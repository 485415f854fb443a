/** Where the guarantees of the waiting room end: the `timestamp` strategy, failed read-backs and resets. */
module WaitingRoomWitnesses {
  import opened Domain
  import opened SortedSet
  import opened WaitingRoom
  import opened WaitingRoomLaws
  import opened TokenLaws

  /** A newcomer's script tells it the rank at which it has been added. */
  lemma ScriptTells(s: State, c: CallId, scoring: Scoring)
    requires Valid(s.stores.zset) && c in s.calls && s.calls[c].Scripting?
    requires Position(s.stores, s.calls[c].user).None?
    ensures var u := s.calls[c].user; var x := EntryOf(s.stores, u, scoring);
            var t := Step(s, Do(c, Script(scoring, Done)));
            && t.stores.zset == Add(s.stores.zset, x) && Valid(t.stores.zset) && Has(t.stores.zset, u)
            && t.calls[c] == Joined(u, Rank(t.stores.zset, u).value + 1)
  {
    AddKeepsValid(s.stores.zset, EntryOf(s.stores, s.calls[c].user, scoring));
  }

  lemma Collision(s: State, c: CallId, scoring: Scoring, s1: State, t: State, d: CallId, scoring': Scoring)
    requires Valid(s.stores.zset) && c in s.calls && s.calls[c].Scripting?
    requires Position(s.stores, s.calls[c].user).None? && s1 == Step(s, Do(c, Script(scoring, Done)))
    requires Valid(t.stores.zset) && forall x :: x in s1.stores.zset ==> x in t.stores.zset
    requires d in t.calls && t.calls[d].Scripting? && Position(t.stores, t.calls[d].user).None?
    ensures var x := EntryOf(s.stores, s.calls[c].user, scoring);
            var y := EntryOf(t.stores, t.calls[d].user, scoring');
            var t1 := Step(t, Do(d, Script(scoring', Done)));
            && s1.calls[c].Joined? && t1.calls[d].Joined?
            && (s1.calls[c].position == t1.calls[d].position
                <==> Before(y, x) && |Between(s.stores.zset, y, x)| == |Overtakers(s1.stores.zset, t.stores.zset, y)|)
  {
    ScriptTells(s, c, scoring);
    ScriptTells(t, d, scoring');
    SameRankIff(s.stores.zset, EntryOf(s.stores, s.calls[c].user, scoring),
                t.stores.zset, EntryOf(t.stores, t.calls[d].user, scoring'));
  }

  lemma AfterScriptOrdered(s: State, e: Event, es: seq<Event>)
    requires Valid(s.stores.zset) && ResetFree(es)
    ensures var s1 := Step(s, e); var t := Run(s1, es);
            Valid(s1.stores.zset) && Valid(t.stores.zset) && forall x :: x in s1.stores.zset ==> x in t.stores.zset
  {
    StepKeepsOrder(s, e);
    RunKeepsOrder(Step(s, e), es);
  }

  /** Two users are handed the same position, whatever their joins are scored by and whoever else joins between
      their scripts, exactly when the second sorts before the first and the entries that stood between the two
      are as many as were inserted ahead of the second in the meantime. */
  lemma TimestampCollisionIff(before: seq<Event>, c: CallId, scoring: Scoring, es: seq<Event>,
                              d: CallId, scoring': Scoring)
    requires ResetFree(es)
    requires var s := Run(Start(), before);
             c in s.calls && s.calls[c].Scripting? && Position(s.stores, s.calls[c].user).None?
    requires var t := Run(Step(Run(Start(), before), Do(c, Script(scoring, Done))), es);
             d in t.calls && t.calls[d].Scripting? && Position(t.stores, t.calls[d].user).None?
    ensures var s := Run(Start(), before);
            var s1 := Step(s, Do(c, Script(scoring, Done)));
            var t := Run(s1, es);
            var t1 := Step(t, Do(d, Script(scoring', Done)));
            var x := EntryOf(s.stores, s.calls[c].user, scoring);
            var y := EntryOf(t.stores, t.calls[d].user, scoring');
            && s1.calls[c].Joined? && t1.calls[d].Joined?
            && (s1.calls[c].position == t1.calls[d].position
                <==> Before(y, x) && |Between(s.stores.zset, y, x)| == |Overtakers(s1.stores.zset, t.stores.zset, y)|)
  {
    var s := Run(Start(), before);
    var first := Do(c, Script(scoring, Done));
    RunKeepsOrder(Start(), before);
    AfterScriptOrdered(s, first, es);
    Collision(s, c, scoring, Step(s, first), Run(Step(s, first), es), d, scoring');
  }

  lemma OneStep(s: State, c: CallId, act: Act, db: Stores, pc: Pc)
    requires c in s.calls && Outcome(s.stores, s.calls[c], act) == (db, pc)
    ensures Step(s, Do(c, act)) == State(db, s.calls[c := pc])
  {}

  /** At no instant of the run was the user's position within the count. */
  predicate NeverEligible(es: seq<Event>, u: User) {
    forall k :: 0 <= k <= |es| ==> !Eligible(Run(Start(), es[..k]).stores, u)
  }

  /** The run goes on with one more event. */
  lemma Then(es: seq<Event>, e: Event, u: User) returns (fs: seq<Event>)
    ensures fs == es + [e] && Run(Start(), fs) == Step(Run(Start(), es), e)
    ensures ResetFree(es) && !e.Reset? ==> ResetFree(fs)
    ensures AllSequenced(es) && Sequenced(e) ==> AllSequenced(fs)
    ensures NeverEligible(es, u) && !Eligible(Run(Start(), fs).stores, u) ==> NeverEligible(fs, u)
  {
    fs := es + [e];
    RunSnoc(Start(), es, e);
    assert fs[..|fs|] == fs;
    assert forall k :: 0 <= k <= |es| ==> fs[..k] == es[..k];
  }

  lemma Next(es: seq<Event>, s: State, c: CallId, act: Act, db: Stores, pc: Pc, u: User) returns (fs: seq<Event>)
    requires Run(Start(), es) == s && c in s.calls && Outcome(s.stores, s.calls[c], act) == (db, pc)
    ensures fs == es + [Do(c, act)] && Run(Start(), fs) == State(db, s.calls[c := pc])
    ensures ResetFree(es) ==> ResetFree(fs)
    ensures AllSequenced(es) && Sequenced(Do(c, act)) ==> AllSequenced(fs)
    ensures NeverEligible(es, u) && !Eligible(db, u) ==> NeverEligible(fs, u)
  {
    OneStep(s, c, act, db, pc);
    fs := Then(es, Do(c, act), u);
  }

  // ---------------------------------------------------------------- two reads under `timestamp`

  function Queue(z: seq<Entry>, admitted: nat): Stores { Stores(z, 0, admitted, map[], {}, {}, []) }

  lemma QueueOfOne(x: Entry, n: nat)
    ensures Add([], x) == [x] && Position(Queue([x], n), x.member) == Some(1)
  {}

  lemma QueueOfTwo(x: Entry, y: Entry, n: nat)
    requires Before(y, x) && x.member != y.member
    ensures Add([x], y) == [y, x] && Position(Queue([y, x], n), x.member) == Some(2)
    ensures Position(Queue([y, x], n), y.member) == Some(1) && Position(Queue([x], n), y.member) == None
  {
    assert [y, x][..1] == [y];
    assert Rank([y], y.member) == Some(0);
    assert Rank([y, x], y.member) == Rank([y, x][..1], y.member);
    assert Rank([x], y.member) == None;
    assert [x][..0] + [y] + [x][0..] == [y, x];
  }

  lemma FirstJoin(u: User, scoring: Scoring)
    ensures var empty := Queue([], 0); var one := RunScript(empty, u, scoring);
            && one == Stores([Entry(if scoring.Incr? then 1 else scoring.ms, u)], if scoring.Incr? then 1 else 0, 0,
                             map[], {}, {}, if scoring.Incr? then [u] else [])
            && Position(one, u) == Some(1)
            && Outcome(empty, Joining(u), PreCheck(true)) == (empty, Scripting(u))
            && Outcome(empty, Scripting(u), Script(scoring, Done)) == (one, Joined(u, 1))
  {
    QueueOfOne(Entry(if scoring.Incr? then 1 else scoring.ms, u), 0);
    assert [] + [u] == [u];
  }

  /** u joins the empty queue. */
  lemma JoinsAlone(u: User, scoring: Scoring) returns (es: seq<Event>)
    ensures Run(Start(), es) == State(RunScript(Queue([], 0), u, scoring), map[0 := Joined(u, 1)])
    ensures ResetFree(es) && NeverEligible(es, u) && (scoring.Incr? ==> AllSequenced(es))
  {
    var empty := Queue([], 0);
    FirstJoin(u, scoring);
    es := Then([], Call(0, u, true), u);
    es := Next(es, State(empty, map[0 := Joining(u)]), 0, PreCheck(true), empty, Scripting(u), u);
    es := Next(es, State(empty, map[0 := Scripting(u)]), 0, Script(scoring, Done),
               RunScript(empty, u, scoring), Joined(u, 1), u);
  }

  /** A poll reads u's rank. */
  lemma PollReads(before: seq<Event>, s: State, u: User) returns (es: seq<Event>)
    requires Run(Start(), before) == s && 1 !in s.calls && Position(s.stores, u) == Some(1)
    ensures Run(Start(), es) == State(s.stores, s.calls[1 := Ranked(u, 1)])
    ensures ResetFree(before) ==> ResetFree(es)
    ensures AllSequenced(before) ==> AllSequenced(es)
    ensures NeverEligible(before, u) && !Eligible(s.stores, u) ==> NeverEligible(es, u)
  {
    es := Then(before, Call(1, u, false), u);
    es := Next(es, State(s.stores, s.calls[1 := Polling(u)]), 1, ReadRank(true), s.stores, Ranked(u, 1), u);
    assert s.calls[1 := Polling(u)][1 := Ranked(u, 1)] == s.calls[1 := Ranked(u, 1)];
  }

  /** u has joined, and a poll for it has read its rank, while nobody has been admitted. */
  lemma FirstReads(u: User, ms: int) returns (es: seq<Event>)
    ensures Run(Start(), es) == State(Queue([Entry(ms, u)], 0), map[0 := Joined(u, 1), 1 := Ranked(u, 1)])
    ensures ResetFree(es) && NeverEligible(es, u)
  {
    FirstJoin(u, Timestamp(ms));
    es := JoinsAlone(u, Timestamp(ms));
    es := PollReads(es, State(Queue([Entry(ms, u)], 0), map[0 := Joined(u, 1)]), u);
  }

  /** The calls once v has joined ahead of u and a tick has come, before u's second read. */
  function CallsOvertaken(u: User, v: User): map<CallId, Pc> {
    map[0 := Joined(u, 1), 1 := Ranked(u, 1), 2 := Joined(v, 1)]
  }

  lemma NewcomerAhead(u: User, ms: int, v: User, ms': int)
    requires u != v && Before(Entry(ms', v), Entry(ms, u))
    ensures Outcome(Queue([Entry(ms, u)], 0), Joining(v), PreCheck(true)) == (Queue([Entry(ms, u)], 0), Scripting(v))
    ensures Outcome(Queue([Entry(ms, u)], 0), Scripting(v), Script(Timestamp(ms'), Done))
            == (Queue([Entry(ms', v), Entry(ms, u)], 0), Joined(v, 1))
    ensures forall n: nat :: n <= 1 ==> !Eligible(Queue([Entry(ms', v), Entry(ms, u)], n), u)
  {
    QueueOfTwo(Entry(ms, u), Entry(ms', v), 0);
    QueueOfTwo(Entry(ms, u), Entry(ms', v), 1);
  }

  lemma NewcomerLooks(u: User, ms: int, v: User, ms': int) returns (es: seq<Event>)
    requires u != v && Before(Entry(ms', v), Entry(ms, u))
    ensures Run(Start(), es)
            == State(Queue([Entry(ms, u)], 0), map[0 := Joined(u, 1), 1 := Ranked(u, 1), 2 := Scripting(v)])
    ensures ResetFree(es) && NeverEligible(es, u)
  {
    var one := Queue([Entry(ms, u)], 0);
    var m: map<CallId, Pc> := map[0 := Joined(u, 1), 1 := Ranked(u, 1)];
    QueueOfOne(Entry(ms, u), 0);
    NewcomerAhead(u, ms, v, ms');
    es := FirstReads(u, ms);
    es := Then(es, Call(2, v, true), u);
    es := Next(es, State(one, m[2 := Joining(v)]), 2, PreCheck(true), one, Scripting(v), u);
  }

  /** v, who sorts before u, joins between u's two reads, and a tick admits one. */
  lemma OvertakingJoin(u: User, ms: int, v: User, ms': int) returns (es: seq<Event>)
    requires u != v && Before(Entry(ms', v), Entry(ms, u))
    ensures Run(Start(), es) == State(Queue([Entry(ms', v), Entry(ms, u)], 1), CallsOvertaken(u, v))
    ensures ResetFree(es) && NeverEligible(es, u)
  {
    var one, two := Queue([Entry(ms, u)], 0), Queue([Entry(ms', v), Entry(ms, u)], 0);
    NewcomerAhead(u, ms, v, ms');
    es := NewcomerLooks(u, ms, v, ms');
    es := Next(es, State(one, map[0 := Joined(u, 1), 1 := Ranked(u, 1), 2 := Scripting(v)]), 2,
               Script(Timestamp(ms'), Done), two, Joined(v, 1), u);
    es := Then(es, Tick, u);
  }

  /** Under `timestamp` the two reads of GetPosition are no snapshot: for any two users who may sort the other
      way round than they join, there is a run in which the first is let in by a poll although at no instant of
      the run was its position within the count. */
  lemma TwoReadsAreNoSnapshotUnderTimestamp(u: User, ms: int, v: User, ms': int)
    requires u != v && Before(Entry(ms', v), Entry(ms, u))
    ensures exists es :: ResetFree(es) && NeverEligible(es, u)
                         && 1 in Run(Start(), es).calls && Run(Start(), es).calls[1] == Cleared(u)
  {
    var es := LetIn(u, ms, v, ms');
  }

  lemma LetIn(u: User, ms: int, v: User, ms': int) returns (es: seq<Event>)
    requires u != v && Before(Entry(ms', v), Entry(ms, u))
    ensures ResetFree(es) && NeverEligible(es, u)
    ensures Run(Start(), es) == State(Queue([Entry(ms', v), Entry(ms, u)], 1), CallsOvertaken(u, v)[1 := Cleared(u)])
  {
    var db := Queue([Entry(ms', v), Entry(ms, u)], 1);
    QueueOfTwo(Entry(ms, u), Entry(ms', v), 1);
    es := OvertakingJoin(u, ms, v, ms');
    es := Next(es, State(db, CallsOvertaken(u, v)), 1, ReadAdmitted(true), db, Cleared(u), u);
  }

  // ---------------------------------------------------------------- the cap under `timestamp`

  /** A call that has been let in finds no token and stores its own. */
  lemma Granted(es: seq<Event>, s: State, c: CallId, u: User, t: Token) returns (fs: seq<Event>)
    requires Run(Start(), es) == s && c in s.calls && s.calls[c] == Cleared(u)
    requires u !in s.stores.tokens && t != "" && t !in s.stores.minted
    ensures ResetFree(es) ==> ResetFree(fs)
    ensures var minted := s.stores.(minted := s.stores.minted + {t});
            Run(Start(), fs) == State(minted.(tokens := s.stores.tokens[u := t], issued := s.stores.issued + {u}),
                                      s.calls[c := Checking(u, t)])
  {
    var db := s.stores.(minted := s.stores.minted + {t});
    fs := Next(es, s, c, GetToken(true, t), db, Minting(u, t), u);
    fs := Next(fs, State(db, s.calls[c := Minting(u, t)]), c, Issue(Done),
               db.(tokens := db.tokens[u := t], issued := db.issued + {u}), Checking(u, t), u);
    assert s.calls[c := Minting(u, t)][c := Checking(u, t)] == s.calls[c := Checking(u, t)];
  }

  /** v, who overtook u, is let in as well: the admitted count of one is the position of both. */
  lemma BothLetIn(u: User, ms: int, v: User, ms': int) returns (es: seq<Event>)
    requires u != v && Before(Entry(ms', v), Entry(ms, u))
    ensures ResetFree(es)
    ensures var s := Run(Start(), es);
            && s.stores == Queue([Entry(ms', v), Entry(ms, u)], 1)
            && 1 in s.calls && s.calls[1] == Cleared(u) && 2 in s.calls && s.calls[2] == Cleared(v)
  {
    var db := Queue([Entry(ms', v), Entry(ms, u)], 1);
    var m := CallsOvertaken(u, v)[1 := Cleared(u)];
    QueueOfTwo(Entry(ms, u), Entry(ms', v), 1);
    es := LetIn(u, ms, v, ms');
    es := Next(es, State(db, m), 2, Confirm(true), db, Ranked(v, 1), u);
    es := Next(es, State(db, m[2 := Ranked(v, 1)]), 2, ReadAdmitted(true), db, Cleared(v), u);
  }

  /** Under `timestamp` the admission cap fails: two users hold tokens, and the count is one. */
  lemma CapFailsUnderTimestamp(u: User, ms: int, v: User, ms': int)
    requires u != v && Before(Entry(ms', v), Entry(ms, u))
    ensures exists es :: ResetFree(es) && var s := Run(Start(), es).stores; s.admitted == 1 && s.tokens.Keys == {u, v}
  {
    var es := BothLetIn(u, ms, v, ms');
    es := Granted(es, Run(Start(), es), 1, u, "a");
    es := Granted(es, Run(Start(), es), 2, v, "b");
    assert Run(Start(), es).stores.tokens.Keys == {u, v};
  }

  // ---------------------------------------------------------------- tokens

  /** Two replicas find no token for one user, and both store their own. */
  function Race(s: State, c: CallId, t: Token, d: CallId, v: Token): State {
    var minted := Step(Step(s, Do(c, GetToken(true, t))), Do(d, GetToken(true, v)));
    Step(Step(minted, Do(c, Issue(Done))), Do(d, Issue(Done)))
  }

  lemma RaceState(s: State, c: CallId, t: Token, d: CallId, v: Token, u: User)
    requires c != d && c in s.calls && d in s.calls && s.calls[c] == Cleared(u) && s.calls[d] == Cleared(u)
    requires u !in s.stores.tokens && t != v && t != "" && v != "" && t !in s.stores.minted && v !in s.stores.minted
    ensures var r := Race(s, c, t, d, v);
            && r.calls == s.calls[c := Checking(u, t)][d := Checking(u, v)]
            && r.stores.tokens == s.stores.tokens[u := t]
  {
    var db := s.stores;
    var db1 := db.(minted := db.minted + {t});
    var db2 := db1.(minted := db1.minted + {v});
    var db3 := db2.(tokens := db.tokens[u := t], issued := db.issued + {u});
    OneStep(s, c, GetToken(true, t), db1, Minting(u, t));
    var m1 := s.calls[c := Minting(u, t)];
    OneStep(State(db1, m1), d, GetToken(true, v), db2, Minting(u, v));
    var m2 := m1[d := Minting(u, v)];
    OneStep(State(db2, m2), c, Issue(Done), db3, Checking(u, t));
    var m3 := m2[c := Checking(u, t)];
    OneStep(State(db3, m3), d, Issue(Done), db3, Checking(u, v));
    assert m3[d := Checking(u, v)] == s.calls[c := Checking(u, t)][d := Checking(u, v)];
  }

  /** The loser's read-back fails after the race. */
  lemma SplitsFrom(s: State, c: CallId, t: Token, d: CallId, v: Token, u: User)
    requires c != d && c in s.calls && d in s.calls && s.calls[c] == Cleared(u) && s.calls[d] == Cleared(u)
    requires u !in s.stores.tokens && t != v && t != "" && v != "" && t !in s.stores.minted && v !in s.stores.minted
    ensures var r := Step(Step(Race(s, c, t, d, v), Do(c, Recheck(true))), Do(d, Recheck(false)));
            && r.calls[c] == Admitted(u, t) && r.calls[d] == Admitted(u, v)
            && u in r.stores.tokens && r.stores.tokens[u] == t
  {
    RaceState(s, c, t, d, v, u);
    var r := Race(s, c, t, d, v);
    OneStep(r, c, Recheck(true), r.stores, Admitted(u, t));
    OneStep(State(r.stores, r.calls[c := Admitted(u, t)]), d, Recheck(false), r.stores, Admitted(u, v));
  }

  lemma JoinedAndTicked(u: User) returns (es: seq<Event>)
    ensures Run(Start(), es) == State(Stores([Entry(1, u)], 1, 1, map[], {}, {}, [u]), map[0 := Joined(u, 1)])
    ensures AllSequenced(es)
  {
    FirstJoin(u, Incr);
    es := JoinsAlone(u, Incr);
    es := Then(es, Tick, u);
  }

  lemma StillFirst(u: User)
    ensures var db := Stores([Entry(1, u)], 1, 1, map[], {}, {}, [u]);
            Position(db, u) == Some(1) && Outcome(db, Joined(u, 1), Confirm(true)) == (db, Ranked(u, 1))
  {
    QueueOfOne(Entry(1, u), 1);
  }

  /** A user joins, a tick comes, and both the join and a poll on another replica read a position within reach. */
  lemma TwoCallsRanked(u: User) returns (es: seq<Event>)
    ensures Run(Start(), es)
            == State(Stores([Entry(1, u)], 1, 1, map[], {}, {}, [u]), map[0 := Ranked(u, 1), 1 := Ranked(u, 1)])
    ensures AllSequenced(es)
  {
    var db := Stores([Entry(1, u)], 1, 1, map[], {}, {}, [u]);
    StillFirst(u);
    es := JoinedAndTicked(u);
    es := Next(es, State(db, map[0 := Joined(u, 1)]), 0, Confirm(true), db, Ranked(u, 1), u);
    es := PollReads(es, State(db, map[0 := Ranked(u, 1)]), u);
  }

  lemma TwoCallsCleared(u: User) returns (es: seq<Event>)
    ensures Run(Start(), es)
            == State(Stores([Entry(1, u)], 1, 1, map[], {}, {}, [u]), map[0 := Cleared(u), 1 := Cleared(u)])
    ensures AllSequenced(es)
  {
    var db := Stores([Entry(1, u)], 1, 1, map[], {}, {}, [u]);
    es := TwoCallsRanked(u);
    es := Next(es, State(db, map[0 := Ranked(u, 1), 1 := Ranked(u, 1)]), 0, ReadAdmitted(true), db, Cleared(u), u);
    es := Next(es, State(db, map[0 := Cleared(u), 1 := Ranked(u, 1)]), 1, ReadAdmitted(true), db, Cleared(u), u);
  }

  /** Two replicas hand one user different tokens: for any user there is a run, even under timestamp_incr, in
      which both race, the loser's read-back fails, and the loser's answer is not the token stored. */
  lemma FailedRecheckSplits(u: User)
    ensures exists es :: AllSequenced(es) && var s := Run(Start(), es);
              && 0 in s.calls && 1 in s.calls && s.calls[0] == Admitted(u, "a") && s.calls[1] == Admitted(u, "b")
              && u in s.stores.tokens && s.stores.tokens[u] == "a"
  {
    var es := TwoCallsCleared(u);
    var s := Run(Start(), es);
    SplitsFrom(s, 0, "a", 1, "b", u);
    var fs := [Do(0, GetToken(true, "a")), Do(1, GetToken(true, "b")), Do(0, Issue(Done)), Do(1, Issue(Done)),
               Do(0, Recheck(true)), Do(1, Recheck(false))];
    SixSteps(s, fs);
    RunAppend(Start(), es, fs);
    assert AllSequenced(es + fs);
  }

  lemma SixSteps(s: State, es: seq<Event>)
    requires |es| == 6
    ensures Run(s, es) == Step(Step(Step(Step(Step(Step(s, es[0]), es[1]), es[2]), es[3]), es[4]), es[5])
  {
    assert es == [es[0]] + ([es[1]] + ([es[2]] + ([es[3]] + ([es[4]] + ([es[5]] + [])))));
    RunCons(s, es[0], [es[1]] + ([es[2]] + ([es[3]] + ([es[4]] + ([es[5]] + [])))));
    var s1 := Step(s, es[0]);
    RunCons(s1, es[1], [es[2]] + ([es[3]] + ([es[4]] + ([es[5]] + []))));
    var s2 := Step(s1, es[1]);
    RunCons(s2, es[2], [es[3]] + ([es[4]] + ([es[5]] + [])));
    var s3 := Step(s2, es[2]);
    RunCons(s3, es[3], [es[4]] + ([es[5]] + []));
    var s4 := Step(s3, es[3]);
    RunCons(s4, es[4], [es[5]] + []);
    RunCons(Step(s4, es[4]), es[5], []);
  }
}
