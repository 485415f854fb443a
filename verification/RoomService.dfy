/**
 The queue store and the handlers of the waiting room in the form of the source: one call's Redis
 commands, with every other call, ticker and expiry free to happen between any two of them.
 */
module RoomService {
  import opened Domain
  import opened SortedSet
  import opened WaitingRoom
  import opened WaitingRoomLaws
  import opened TokenLaws

  /** What the others do before our next command, and how the command fares. */
  datatype Turn = Turn(others: seq<Event>, fate: Fate)

  /** The turn of the next command, and those after it; with none left, nobody moves and nothing fails. */
  function Head(script: seq<Turn>): Turn { if script == [] then Turn([], Done) else script[0] }
  function Tail(script: seq<Turn>): seq<Turn> { if script == [] then [] else script[1..] }

  /** Every command is carried out, and its reply arrives. */
  predicate NoFaults(script: seq<Turn>) { script == [] || (script[0].fate.Done? && NoFaults(script[1..])) }

  /** And nobody else moves. */
  predicate Quiet(script: seq<Turn>) {
    script == [] || (script[0].fate.Done? && script[0].others == [] && Quiet(script[1..]))
  }

  /** The others do not reset the queue, and join by sequence number only. */
  predicate SequencedScript(script: seq<Turn>) {
    script == [] || (AllSequenced(script[0].others) && SequencedScript(script[1..]))
  }

  predicate Mine(e: Event, me: CallId) { (e.Do? && e.who == me) || (e.Call? && e.id == me) }

  /** The events of `es` that leave call `me` alone. */
  function Without(es: seq<Event>, me: CallId): seq<Event> {
    if es == [] then [] else
    Without(es[..|es| - 1], me) + if Mine(es[|es| - 1], me) then [] else [es[|es| - 1]]
  }

  lemma WithoutNext(es: seq<Event>, i: nat, me: CallId, log: seq<Event>)
    requires i < |es|
    ensures log + Without(es[..i + 1], me) == (log + Without(es[..i], me)) + if Mine(es[i], me) then [] else [es[i]]
    ensures Without(es[..i + 1], me) == [] ==> Without(es[..i], me) == [] && Mine(es[i], me)
  {
    assert es[..i + 1][..i] == es[..i];
  }

  /** The commands that a call has sent, the last one outermost. */
  datatype Sent = Nothing | Then(before: Sent, act: Act)

  function SentBy(es: seq<Event>, me: CallId): Sent {
    if es == [] then Nothing else
    var sent, e := SentBy(es[..|es| - 1], me), es[|es| - 1];
    if e.Do? && e.who == me then Then(sent, e.act) else sent
  }

  lemma SentBySnoc(es: seq<Event>, e: Event, me: CallId)
    ensures SentBy(es + [e], me) == if e.Do? && e.who == me then Then(SentBy(es, me), e.act) else SentBy(es, me)
  {
    assert (es + [e])[..|es|] == es;
  }

  /** A command whose failure ends the call with a server error. The look before a join, the look for a token and
      the read-back are not among them. */
  predicate Fatal(act: Act) {
    match act
    case Script(_, fate) => !fate.Done?
    case Confirm(ok) => !ok
    case ReadRank(ok) => !ok
    case ReadAdmitted(ok) => !ok
    case Issue(fate) => !fate.Done?
    case _ => false
  }

  /** What a handler answers. */
  datatype Response =
    | Queued(position: int, admittedCount: nat)                     // 200 or 201, not admitted
    | Granted(position: int, admittedCount: nat, token: Token)      // 200 or 201 with a token
    | BadRequest                                                    // 400
    | NotQueued                                                     // 404
    | ServerError                                                   // 500

  lemma ScriptReply(s: State, me: CallId, u: User, scoring: Scoring, fate: Fate)
    requires me in s.calls && s.calls[me] == Scripting(u)
    requires !fate.NotApplied? && Has(RunScript(s.stores, u, scoring).zset, u)
    ensures var t := RunScript(s.stores, u, scoring);
            Step(s, Do(me, Script(scoring, fate)))
            == State(t, s.calls[me := if fate.Done? then Joined(u, Rank(t.zset, u).value + 1) else Failed(u)])
  {}

  /** INCRBY n, as n ticks with nobody between them. */
  function Ticks(n: nat): seq<Event> { seq(n, _ => Tick) }

  function AdmitMore(s: State, n: nat): State { s.(stores := s.stores.(admitted := s.stores.admitted + n)) }

  lemma OneMoreTick(s: State, n: nat)
    ensures Step(AdmitMore(s, n), Tick) == AdmitMore(s, n + 1)
  {}

  lemma {:induction false} RunTicks(s: State, es: seq<Event>, n: nat)
    ensures Run(s, es + Ticks(n)) == AdmitMore(Run(s, es), n)
  {
    if n == 0 {
      assert es + Ticks(0) == es;
    } else {
      var before := es + Ticks(n - 1);
      RunTicks(s, es, n - 1);
      OneMoreTick(Run(s, es), n - 1);
      RunSnoc(s, before, Tick);
      assert es + Ticks(n) == before + [Tick];
    }
  }

  class QueueStore {
    var zset: seq<Entry>
    var seqno: nat
    var admitted: nat
    var tokens: map<User, Token>
    var minted: set<Token>
    var issued: set<User>
    var arrivals: seq<User>
    var calls: map<CallId, Pc>          // where every handler call is
    var script: seq<Turn>               // the interference and the faults still to come
    ghost var log: seq<Event>           // all that has happened

    function Db(): Stores reads this { Stores(zset, seqno, admitted, tokens, minted, issued, arrivals) }
    function View(): State reads this { State(Db(), calls) }
    predicate At(me: CallId, pc: Pc) reads this { me in calls && calls[me] == pc }

    ghost predicate Valid() reads this { View() == Run(Start(), log) }

    lemma CallIsOk(me: CallId)
      requires Valid() && AllSequenced(log) && me in calls
      ensures CallOk(Db(), calls[me])
    {
      WaitingRoomLaws.RunKeepsInv(Start(), log);
    }

    constructor (script: seq<Turn>)
      ensures Valid() && log == [] && calls == map[]
    {
      zset, seqno, admitted, tokens, minted, issued, arrivals, calls := [], 0, 0, map[], {}, {}, [], map[];
      this.script, log := script, [];
    }

    method Become(t: State)
      modifies this
      ensures View() == t && log == old(log) && script == old(script)
    {
      zset, seqno, admitted, tokens := t.stores.zset, t.stores.seqno, t.stores.admitted, t.stores.tokens;
      minted, issued, arrivals, calls := t.stores.minted, t.stores.issued, t.stores.arrivals, t.calls;
    }

    /** One step of anyone, as the model has it. */
    method Advance(e: Event)
      requires Valid()
      modifies this
      ensures Valid() && View() == Step(old(View()), e) && log == old(log) + [e] && script == old(script)
    {
      ghost var es := log + [e];
      var t := Step(View(), e);
      assert t == Run(Start(), es) by { RunSnoc(Start(), log, e); }
      Become(t);
      log := es;
    }

    function NextOthers(me: CallId): seq<Event> reads this { Without(Head(script).others, me) }

    /** Everything so far has been by sequence number, and so is all that the others have yet to do. */
    ghost predicate InSequence() reads this { AllSequenced(log) && SequencedScript(script) }

    /** What the script has in store for the next command, and after it. */
    lemma Ahead(me: CallId)
      ensures NoFaults(script) ==> Head(script).fate.Done? && NoFaults(Tail(script))
      ensures Quiet(script) ==> Head(script).fate.Done? && NextOthers(me) == [] && Quiet(Tail(script))
    {}

    /** One step of somebody else; a step that would be ours does not happen. */
    method AdvanceOther(e: Event, me: CallId)
      requires Valid()
      modifies this
      ensures Valid() && log == old(log) + (if Mine(e, me) then [] else [e]) && script == old(script)
      ensures SentBy(log, me) == old(SentBy(log, me))
      ensures me in old(calls) ==> me in calls && calls[me] == old(calls)[me]
      ensures me !in old(calls) ==> me !in calls
      ensures old(AllSequenced(log)) && Sequenced(e) ==> AllSequenced(log)
      ensures Mine(e, me) ==> View() == old(View())
    {
      if !Mine(e, me) {
        SentBySnoc(log, e, me);
        Advance(e);
      }
    }

    /** The steps of the others in one turn. */
    method LetOthers(others: seq<Event>, me: CallId)
      requires Valid()
      modifies this
      ensures Valid() && log == old(log) + Without(others, me) && script == old(script)
      ensures SentBy(log, me) == old(SentBy(log, me))
      ensures me in old(calls) ==> me in calls && calls[me] == old(calls)[me]
      ensures me !in old(calls) ==> me !in calls
      ensures old(AllSequenced(log)) && AllSequenced(others) ==> AllSequenced(log)
      ensures Without(others, me) == [] ==> View() == old(View())
    {
      for i := 0 to |others|
        invariant Valid() && script == old(script) && log == old(log) + Without(others[..i], me)
        invariant SentBy(log, me) == old(SentBy(log, me))
        invariant me in old(calls) ==> me in calls && calls[me] == old(calls)[me]
        invariant me !in old(calls) ==> me !in calls
        invariant old(AllSequenced(log)) && AllSequenced(others) ==> AllSequenced(log)
        invariant Without(others[..i], me) == [] ==> View() == old(View())
      {
        WithoutNext(others, i, me, old(log));
        AdvanceOther(others[i], me);
      }
      assert others[..|others|] == others;
    }

    /** Lets the others run for a turn. */
    method Interleave(me: CallId) returns (fate: Fate)
      requires Valid()
      modifies this
      ensures Valid() && fate == Head(old(script)).fate && script == Tail(old(script))
      ensures log == old(log) + old(NextOthers(me)) && SentBy(log, me) == old(SentBy(log, me))
      ensures me in old(calls) ==> me in calls && calls[me] == old(calls)[me]
      ensures me !in old(calls) ==> me !in calls
      ensures old(InSequence()) ==> InSequence()
      ensures old(NextOthers(me)) == [] ==> View() == old(View())
    {
      var turn := Head(script);
      script := Tail(script);
      fate := turn.fate;
      LetOthers(turn.others, me);
    }

    ghost method Record(me: CallId, act: Act)
      requires View() == Step(Run(Start(), log), Do(me, act))
      modifies this`log
      ensures Valid() && log == old(log) + [Do(me, act)] && SentBy(log, me) == Then(old(SentBy(log, me)), act)
      ensures old(InSequence()) && Sequenced(Do(me, act)) ==> InSequence()
    {
      RunSnoc(Start(), log, Do(me, act));
      SentBySnoc(log, Do(me, act), me);
      log := log + [Do(me, act)];
    }

    // ---------------------------------------------------------------- queue/store.go

    /** ZRANK before joining; an error counts as absent. */
    method PreCheckRank(me: CallId, u: User) returns (found: Option<int>)
      requires Valid() && At(me, Joining(u))
      modifies this
      ensures Valid() && script == Tail(old(script)) && old(log) <= log
      ensures var ok := Head(old(script)).fate.Done?;
              && log == old(log) + old(NextOthers(me)) + [Do(me, PreCheck(ok))]
              && SentBy(log, me) == Then(old(SentBy(log, me)), PreCheck(ok))
              && found == if ok then Position(Db(), u) else None
      ensures At(me, if found.Some? then Joined(u, found.value) else Scripting(u))
      ensures old(InSequence()) ==> InSequence()
      ensures Found() == Db() && (old(NextOthers(me)) == [] ==> Db() == old(Db()))
    {
      var fate := Interleave(me);
      found := if fate.Done? then Position(Db(), u) else None;
      calls := calls[me := if found.Some? then Joined(u, found.value) else Scripting(u)];
      ghost var before := log;
      Record(me, PreCheck(fate.Done?));
      assert log[..|log| - 1] == before;
    }

    lemma InOrder()
      requires Valid()
      ensures SortedSet.Valid(zset)
    {
      RunKeepsOrder(Start(), log);
    }

    /** The INCR and ZADD NX of the two scripts. */
    method ScriptBody(u: User, scoring: Scoring)
      requires SortedSet.Valid(zset)
      modifies this`seqno, this`zset, this`arrivals
      ensures Db() == RunScript(old(Db()), u, scoring) && Has(zset, u)
    {
      if scoring.Incr? {
        seqno := seqno + 1;
        AddKeepsValid(zset, Entry(seqno, u));
        zset := Add(zset, Entry(seqno, u));
        arrivals := arrivals + [u];
      } else {
        AddKeepsValid(zset, Entry(scoring.ms, u));
        zset := Add(zset, Entry(scoring.ms, u));
      }
    }

    /** Notes that the script has just been applied to the stores of `before`. */
    ghost method RecordScript(me: CallId, u: User, scoring: Scoring, fate: Fate, before: State)
      requires before == Run(Start(), log) && me in before.calls && before.calls[me] == Scripting(u)
      requires !fate.NotApplied? && Db() == RunScript(before.stores, u, scoring) && Has(zset, u)
      requires calls == before.calls[me := if fate.Done? then Joined(u, Rank(zset, u).value + 1) else Failed(u)]
      modifies this`log
      ensures Valid() && log == old(log) + [Do(me, Script(scoring, fate))]
      ensures SentBy(log, me) == Then(old(SentBy(log, me)), Script(scoring, fate))
      ensures old(InSequence()) && scoring.Incr? ==> InSequence()
    {
      ScriptReply(before, me, u, scoring, fate);
      Record(me, Script(scoring, fate));
    }

    /** The script is applied, and ends with its ZRANK. */
    method ApplyScript(me: CallId, u: User, scoring: Scoring, fate: Fate) returns (rank: int)
      requires Valid() && At(me, Scripting(u)) && !fate.NotApplied? && SortedSet.Valid(zset)
      modifies this`seqno, this`zset, this`arrivals, this`calls, this`log
      ensures Valid() && log == old(log) + [Do(me, Script(scoring, fate))]
      ensures SentBy(log, me) == Then(old(SentBy(log, me)), Script(scoring, fate))
      ensures At(me, if fate.Done? then Joined(u, rank + 1) else Failed(u)) && Position(Db(), u) == Some(rank + 1)
      ensures Db() == RunScript(old(Db()), u, scoring)
      ensures old(InSequence()) && scoring.Incr? ==> InSequence()
    {
      ghost var before := View();
      ScriptBody(u, scoring);
      rank := Rank(zset, u).value;
      calls := calls[me := if fate.Done? then Joined(u, rank + 1) else Failed(u)];
      RecordScript(me, u, scoring, fate, before);
    }

    /** The script is carried out, or fails. */
    method ScriptNow(me: CallId, u: User, scoring: Scoring, fate: Fate) returns (rank: int)
      requires Valid() && At(me, Scripting(u))
      modifies this`seqno, this`zset, this`arrivals, this`calls, this`log
      ensures Valid() && log == old(log) + [Do(me, Script(scoring, fate))] && Found() == old(Db())
      ensures SentBy(log, me) == Then(old(SentBy(log, me)), Script(scoring, fate))
      ensures fate.Done? ==> At(me, Joined(u, rank + 1)) && Position(Db(), u) == Some(rank + 1)
      ensures !fate.Done? ==> At(me, Failed(u))
      ensures Db() == if fate.NotApplied? then old(Db()) else RunScript(old(Db()), u, scoring)
      ensures old(InSequence()) && scoring.Incr? ==> InSequence()
    {
      ghost var before := log;
      if fate.NotApplied? {
        rank := 0;
        calls := calls[me := Failed(u)];
        Record(me, Script(scoring, fate));
      } else {
        InOrder();
        rank := ApplyScript(me, u, scoring, fate);
      }
      assert log[..|log| - 1] == before;
    }

    /** joinIncrScript or joinTimestampScript. */
    method RunJoinScript(me: CallId, u: User, scoring: Scoring) returns (ok: bool, rank: int)
      requires Valid() && At(me, Scripting(u))
      modifies this
      ensures Valid() && script == Tail(old(script)) && old(log) <= log
      ensures var fate := Head(old(script)).fate;
              && log == old(log) + old(NextOthers(me)) + [Do(me, Script(scoring, fate))]
              && SentBy(log, me) == Then(old(SentBy(log, me)), Script(scoring, fate))
              && ok == fate.Done?
              && Db() == if fate.NotApplied? then Found() else RunScript(Found(), u, scoring)
      ensures ok ==> At(me, Joined(u, rank + 1)) && Position(Db(), u) == Some(rank + 1)
      ensures !ok ==> At(me, Failed(u))
      ensures old(InSequence()) && scoring.Incr? ==> InSequence()
      ensures old(NextOthers(me)) == [] ==> Found() == old(Db())
    {
      var fate := Interleave(me);
      ok := fate.Done?;
      rank := ScriptNow(me, u, scoring, fate);
    }

    /** The score by which a join adds a user: only timestamp_incr counts. */
    function Scored(strategy: string, now: int): Scoring {
      if strategy == "timestamp_incr" then Incr else Timestamp(now)
    }

    /** What a join's script does to the queue, told without the script: by timestamp_incr it takes the next number
        and is an arrival, by any other strategy it takes none; and a newcomer stands at that number or at `now`. */
    predicate JoinsBy(before: Stores, after: Stores, u: User, strategy: string, now: int) {
      && (strategy == "timestamp_incr" ==>
            && after.seqno == before.seqno + 1 && after.arrivals == before.arrivals + [u]
            && (!Has(before.zset, u) ==> Entry(after.seqno, u) in after.zset))
      && (strategy != "timestamp_incr" ==>
            && after.seqno == before.seqno && after.arrivals == before.arrivals
            && (!Has(before.zset, u) ==> Entry(now, u) in after.zset))
      && (Has(before.zset, u) ==> after.zset == before.zset)
    }

    lemma ScriptJoins(before: Stores, u: User, strategy: string, now: int)
      ensures JoinsBy(before, RunScript(before, u, Scored(strategy, now)), u, strategy, now)
    {
      AddElements(before.zset, EntryOf(before, u, Scored(strategy, now)));
    }

    /** The commands of a join: the look, and the script unless that found the user. */
    predicate JoinSends(before: Sent, after: Sent, strategy: string, now: int, ok: bool) {
      || (ok && after == Then(before, PreCheck(true)))
      || (after.Then? && after.before in {Then(before, PreCheck(true)), Then(before, PreCheck(false))}
          && after.act.Script? && (ok <==> after.act.fate.Done?)
          && (strategy == "timestamp_incr" <==> after.act.scoring == Incr)
          && (strategy != "timestamp_incr" <==> after.act.scoring == Timestamp(now)))
    }

    /** The script of a join, by the strategy configured. */
    method JoinByScript(me: CallId, u: User, strategy: string, now: int) returns (ok: bool, position: int)
      requires Valid() && At(me, Scripting(u))
      modifies this
      ensures Valid() && script == Tail(old(script)) && old(log) <= log && log != []
      ensures ok ==> At(me, Joined(u, position)) && Position(Db(), u) == Some(position)
      ensures !ok ==> At(me, Failed(u))
      ensures SentBy(log, me).Then? && SentBy(log, me).before == old(SentBy(log, me)) && SentBy(log, me).act.Script?
      ensures ok == SentBy(log, me).act.fate.Done? == Head(old(script)).fate.Done?
      ensures SentBy(log, me).act.scoring == if strategy == "timestamp_incr" then Incr else Timestamp(now)
      ensures Db() == Found() || JoinsBy(Found(), Db(), u, strategy, now)
      ensures old(NextOthers(me)) == [] && ok ==> Db() == RunScript(old(Db()), u, Scored(strategy, now))
      ensures strategy == "timestamp_incr" && old(InSequence()) ==> InSequence()
    {
      var rank;
      ok, rank := RunJoinScript(me, u, if strategy == "timestamp_incr" then Incr else Timestamp(now));
      position := rank + 1;
      ScriptJoins(Found(), u, strategy, now);
    }

    /** Adds the user unless present; returns the 1-based position at that instant. */
    method Join(me: CallId, u: User, strategy: string, now: int) returns (ok: bool, position: int)
      requires Valid() && At(me, Joining(u))
      modifies this
      ensures Valid() && old(log) <= log
      ensures ok ==> At(me, Joined(u, position)) && Position(Db(), u) == Some(position)
      ensures !ok ==> At(me, Failed(u))
      ensures JoinSends(old(SentBy(log, me)), SentBy(log, me), strategy, now, ok)
      ensures old(NoFaults(script)) ==> NoFaults(script) && ok
      // the script, if it was applied, joined by the strategy given; and nothing else touched the queue
      ensures log != [] && (Db() == Found() || JoinsBy(Found(), Db(), u, strategy, now))
      ensures old(Quiet(script)) ==> Quiet(script) && ok && Db() == Joins(old(Db()), u, strategy, now)
      // under timestamp_incr, the user's place in the order of first script executions
      ensures strategy == "timestamp_incr" && old(InSequence()) ==> InSequence()
      ensures ok && AllSequenced(log) ==> 1 <= position <= |FirstOf(arrivals)| && FirstOf(arrivals)[position - 1] == u
    {
      Ahead(me);
      var found := PreCheckRank(me, u);
      if found.Some? {
        ok, position := true, found.value;
      } else {
        Ahead(me);
        ok, position := JoinByScript(me, u, strategy, now);
      }
      if ok && AllSequenced(log) { PlaceInOrder(u, position); }
    }

    /** The queue after a join that nobody disturbs. */
    function Joins(s: Stores, u: User, strategy: string, now: int): Stores {
      if Position(s, u).Some? then s else RunScript(s, u, Scored(strategy, now))
    }

    lemma PlaceInOrder(u: User, position: int)
      requires Valid() && AllSequenced(log) && Position(Db(), u) == Some(position)
      ensures 1 <= position <= |FirstOf(arrivals)| && FirstOf(arrivals)[position - 1] == u
    {
      RefinesFifo(log);
      assert Position(Run(Start(), log).stores, u) == Some(position);
    }

    /** The first read of GetPosition: the rank, for a call that has none yet or already has one. */
    method ReadOwnRank(me: CallId, u: User) returns (ok: bool, rank: Option<int>)
      requires Valid() && me in calls && calls[me].user == u && (calls[me].Polling? || calls[me].Joined?)
      modifies this
      ensures Valid() && script == Tail(old(script)) && old(log) <= log
      ensures var act := if old(calls)[me].Joined? then Confirm(ok) else ReadRank(ok);
              && log == old(log) + old(NextOthers(me)) + [Do(me, act)]
              && SentBy(log, me) == Then(old(SentBy(log, me)), act)
      ensures ok == Head(old(script)).fate.Done? && rank == Position(Db(), u)
      ensures !ok ==> At(me, Failed(u))
      ensures ok && rank.None? ==>
                At(me, if old(calls)[me].Joined? then Waiting(u, old(calls)[me].position, 0) else NotInQueue(u))
      ensures ok && rank.Some? ==>
                At(me, Ranked(u, if old(calls)[me].Joined? then old(calls)[me].position else rank.value))
      ensures old(InSequence()) ==> InSequence()
      ensures old(NextOthers(me)) == [] ==> Db() == old(Db())
    {
      var pc := calls[me];
      var fate := Interleave(me);
      ok, rank := fate.Done?, Position(Db(), u);
      calls := calls[me := if !ok then Failed(u)
                           else if pc.Joined? && rank.None? then Waiting(u, pc.position, 0)
                           else if pc.Joined? then Ranked(u, pc.position)
                           else if rank.None? then NotInQueue(u) else Ranked(u, rank.value)];
      Record(me, if pc.Joined? then Confirm(ok) else ReadRank(ok));
    }

    /** The second read of GetPosition. */
    method ReadAdmittedCount(me: CallId, u: User, position: int) returns (ok: bool, count: nat)
      requires Valid() && At(me, Ranked(u, position))
      modifies this
      ensures Valid() && script == Tail(old(script)) && old(log) <= log
      ensures log == old(log) + old(NextOthers(me)) + [Do(me, ReadAdmitted(ok))]
      ensures SentBy(log, me) == Then(old(SentBy(log, me)), ReadAdmitted(ok))
      ensures ok == Head(old(script)).fate.Done? && count == admitted
      ensures !ok ==> At(me, Failed(u))
      ensures ok ==> At(me, if position <= count then Cleared(u) else Waiting(u, position, count))
      ensures old(InSequence()) ==> InSequence()
      ensures old(NextOthers(me)) == [] ==> Db() == old(Db())
      // under timestamp_incr the earlier rank is still the rank
      ensures AllSequenced(log) ==> Position(Db(), u) == Some(position)
    {
      var fate := Interleave(me);
      if AllSequenced(log) { CallIsOk(me); }
      ok, count := fate.Done?, admitted;
      calls := calls[me := if !ok then Failed(u)
                           else if position <= count then Cleared(u) else Waiting(u, position, count)];
      ghost var before := log;
      Record(me, ReadAdmitted(ok));
      assert AllSequenced(log) ==> AllSequenced(before) by { assert log[..|before|] == before; }
    }

    // What GetPosition needs to know of its two reads.

    /** The position by which the call is judged: a join's own, or the one just read. */
    function Known(pc: Pc, rank: Option<int>): int {
      if pc.Joined? then pc.position else if rank.Some? then rank.value else 0
    }

    method LookUpRank(me: CallId, u: User) returns (ok: bool, rank: Option<int>)
      requires Valid() && me in calls && calls[me].user == u && (calls[me].Polling? || calls[me].Joined?)
      modifies this
      ensures Valid() && old(log) <= log
      ensures SentBy(log, me).Then? && (ok <==> !Fatal(SentBy(log, me).act))
      ensures !Head(old(script)).fate.Done? ==> !ok
      ensures rank == Position(Db(), u)
      ensures !ok ==> At(me, Failed(u))
      ensures ok && rank.None? ==>
                At(me, if old(calls)[me].Joined? then Waiting(u, old(calls)[me].position, 0) else NotInQueue(u))
      ensures ok && rank.Some? ==> At(me, Ranked(u, Known(old(calls)[me], rank)))
      ensures old(InSequence()) ==> InSequence()
      ensures old(NoFaults(script)) ==> NoFaults(script) && ok
      ensures old(Quiet(script)) ==> Quiet(script) && ok && Db() == old(Db())
    {
      Ahead(me);
      ok, rank := ReadOwnRank(me, u);
    }

    method LookUpCount(me: CallId, u: User, position: int) returns (ok: bool, count: nat)
      requires Valid() && At(me, Ranked(u, position))
      modifies this
      ensures Valid() && old(log) <= log
      ensures SentBy(log, me).Then? && (ok <==> !Fatal(SentBy(log, me).act))
      ensures count == admitted
      ensures At(me, if !ok then Failed(u) else if position <= count then Cleared(u) else Waiting(u, position, count))
      ensures old(InSequence()) ==> InSequence()
      ensures old(NoFaults(script)) ==> NoFaults(script) && ok
      ensures old(Quiet(script)) ==> Quiet(script) && ok && Db() == old(Db())
      ensures AllSequenced(log) ==> Position(Db(), u) == Some(position)
    {
      Ahead(me);
      ok, count := ReadAdmittedCount(me, u, position);
    }

    /** Position -1 for a user who is not in the queue. */
    method GetPosition(me: CallId, u: User) returns (ok: bool, position: int, admittedCount: nat)
      requires Valid() && me in calls && calls[me].user == u && (calls[me].Polling? || calls[me].Joined?)
      modifies this
      ensures Valid() && old(log) <= log
      ensures !ok ==> At(me, Failed(u)) && SentBy(log, me).Then? && Fatal(SentBy(log, me).act)
      ensures ok && position == -1 ==>
                admittedCount == 0
                && At(me, if old(calls)[me].Joined? then Waiting(u, old(calls)[me].position, 0) else NotInQueue(u))
      ensures ok && position != -1 ==>
                var p := Known(old(calls)[me], Some(position));
                admittedCount == admitted
                && At(me, if p <= admittedCount then Cleared(u) else Waiting(u, p, admittedCount))
      ensures ok ==> SentBy(log, me).Then? && !Fatal(SentBy(log, me).act)
      ensures ok && old(calls)[me].Polling? ==> position == -1 || position >= 1
      ensures old(InSequence()) ==> InSequence()
      ensures !Head(old(script)).fate.Done? ==> !ok
      ensures old(NoFaults(script)) ==> NoFaults(script) && ok
      ensures old(Quiet(script)) ==>
                && Quiet(script) && ok && Db() == old(Db())
                && position == (if Position(Db(), u).Some? then Position(Db(), u).value else -1)
      // under timestamp_incr both numbers are those of one instant, the return
      ensures ok && position != -1 && old(calls)[me].Polling? && AllSequenced(log) ==>
                Position(Db(), u) == Some(position) && admittedCount == admitted
    {
      var pc := calls[me];
      var read, rank := LookUpRank(me, u);
      if !read { return false, 0, 0; }
      if rank.None? { return true, -1, 0; }
      var read2, count := LookUpCount(me, u, Known(pc, rank));
      if !read2 { return false, 0, 0; }
      return true, rank.value, count;
    }

    /** The stores as our last command found them. */
    ghost function Found(): Stores
      requires log != []
      reads this
    {
      Run(Start(), log[..|log| - 1]).stores
    }

    /** The SETNX is carried out, or fails. */
    method IssueNow(me: CallId, u: User, token: Token, fate: Fate)
      requires Valid() && At(me, Minting(u, token))
      modifies this`tokens, this`issued, this`calls, this`log
      ensures Valid() && log == old(log) + [Do(me, Issue(fate))] && Found() == old(Db())
      ensures SentBy(log, me) == Then(old(SentBy(log, me)), Issue(fate))
      ensures tokens == if fate.NotApplied? || u in old(tokens) then old(tokens) else old(tokens)[u := token]
      ensures At(me, if fate.Done? then Checking(u, token) else Failed(u))
      ensures old(InSequence()) ==> InSequence()
    {
      if !fate.NotApplied? && u !in tokens {
        tokens := tokens[u := token];
        issued := issued + {u};
      }
      calls := calls[me := if fate.Done? then Checking(u, token) else Failed(u)];
      ghost var before := log;
      Record(me, Issue(fate));
      assert log[..|log| - 1] == before;
    }

    /** SETNX with the token's time to live: a token that is there stays; the reply says only that nothing failed. */
    method IssueToken(me: CallId, u: User, token: Token) returns (ok: bool)
      requires Valid() && At(me, Minting(u, token))
      modifies this
      ensures Valid() && script == Tail(old(script)) && old(log) < log
      ensures var fate := Head(old(script)).fate;
              && log == old(log) + old(NextOthers(me)) + [Do(me, Issue(fate))]
              && SentBy(log, me) == Then(old(SentBy(log, me)), Issue(fate))
              && ok == fate.Done?
              && tokens == if fate.NotApplied? || u in Found().tokens then Found().tokens
                           else Found().tokens[u := token]
      ensures At(me, if ok then Checking(u, token) else Failed(u))
      ensures old(InSequence()) ==> InSequence()
      ensures old(NextOthers(me)) == [] ==>
                Found() == old(Db()) && Db() == old(Db()).(tokens := tokens, issued := issued)
    {
      var fate := Interleave(me);
      ok := fate.Done?;
      IssueNow(me, u, token, fate);
    }

    /** INCRBY on the admitted key. */
    method IncrAdmitted(n: nat, fate: Fate) returns (ok: bool)
      requires Valid()
      modifies this`admitted, this`log
      ensures Valid() && ok == fate.Done?
      ensures admitted == old(admitted) + if fate.NotApplied? then 0 else n
      ensures log == old(log) + if fate.NotApplied? then [] else Ticks(n)
    {
      ok := fate.Done?;
      if !fate.NotApplied? {
        ghost var es := log + Ticks(n);
        assert Run(Start(), es) == AdmitMore(View(), n) by { RunTicks(Start(), log, n); }
        admitted := admitted + n;
        log := es;
      }
    }

    /** DEL of the queue, admitted and seq keys: the tokens stay. */
    method ResetQueue(fate: Fate) returns (ok: bool)
      requires Valid()
      modifies this`zset, this`seqno, this`admitted, this`arrivals, this`log
      ensures Valid() && ok == fate.Done?
      ensures log == old(log) + if fate.NotApplied? then [] else [Reset]
      ensures !fate.NotApplied? ==> zset == [] && seqno == 0 && admitted == 0
      ensures fate.NotApplied? ==> Db() == old(Db())
    {
      ok := fate.Done?;
      if !fate.NotApplied? {
        RunSnoc(Start(), log, Reset);
        zset, seqno, admitted, arrivals, log := [], 0, 0, [], log + [Reset];
      }
    }

    // ---------------------------------------------------------------- handlers/handler.go

    /** uuid.New: any token nobody has had. */
    method NewToken() returns (token: Token)
      ensures token != "" && token !in minted
    {
      ghost var fresh' := UnusedString(minted);
      token :| token != "" && token !in minted;
    }

    /** The look before minting: Some when a token is already there; an error counts as none. */
    method FindToken(me: CallId, u: User) returns (existing: Option<Token>, own: Token)
      requires Valid() && At(me, Cleared(u))
      modifies this
      ensures Valid() && script == Tail(old(script)) && old(log) <= log
      ensures var ok := Head(old(script)).fate.Done?;
              && log == old(log) + old(NextOthers(me)) + [Do(me, GetToken(ok, own))]
              && SentBy(log, me) == Then(old(SentBy(log, me)), GetToken(ok, own))
              && existing == if ok && u in tokens then Some(tokens[u]) else None
      ensures existing.Some? ==> At(me, Admitted(u, existing.value))
      ensures existing.None? ==> At(me, Minting(u, own)) && own != ""
      ensures old(InSequence()) ==> InSequence()
      ensures old(NextOthers(me)) == [] ==>
                Db() == if existing.Some? then old(Db()) else old(Db()).(minted := old(minted) + {own})
    {
      var fate := Interleave(me);
      existing, own := None, "";
      if fate.Done? && u in tokens {
        existing := Some(tokens[u]);
        calls := calls[me := Admitted(u, tokens[u])];
        Record(me, GetToken(true, ""));
      } else {
        own := NewToken();
        minted := minted + {own};
        calls := calls[me := Minting(u, own)];
        Record(me, GetToken(fate.Done?, own));
      }
    }

    /** The read-back after SETNX: another replica may have won. */
    method ReadBack(me: CallId, u: User, own: Token) returns (ok: bool, token: Token)
      requires Valid() && At(me, Checking(u, own))
      modifies this
      ensures Valid() && script == Tail(old(script)) && old(log) <= log
      ensures log == old(log) + old(NextOthers(me)) + [Do(me, Recheck(ok))]
      ensures SentBy(log, me) == Then(old(SentBy(log, me)), Recheck(ok)) && ok == Head(old(script)).fate.Done?
      ensures At(me, Admitted(u, token))
      ensures ok ==> token == if u in tokens then tokens[u] else own
      ensures !ok ==> token == own
      ensures old(InSequence()) ==> InSequence()
      ensures old(NextOthers(me)) == [] ==> Db() == old(Db())
    {
      var fate := Interleave(me);
      ok := fate.Done?;
      token := if ok && u in tokens then tokens[u] else own;
      calls := calls[me := Admitted(u, token)];
      Record(me, Recheck(ok));
    }

    lemma AgreesSince(before: seq<Event>, me: CallId, u: User)
      requires Valid() && before <= log && Calm(log[|before|..], me, u) && me in calls && calls[me].user == u
      requires var s := Run(Start(), before); me in s.calls && s.calls[me] == Cleared(u)
      ensures CallAgrees(Db(), calls[me]) && (u in tokens ==> tokens[u] != "")
    {
      assert log == before + log[|before|..];
      RunAppend(Start(), before, log[|before|..]);
      RunKeepsAgreement(Run(Start(), before), log[|before|..], me, u);
      TokenLaws.RunKeepsInv(log);
    }

    method StoreOwn(me: CallId, u: User, own: Token) returns (ok: bool)
      requires Valid() && At(me, Minting(u, own))
      modifies this
      ensures Valid() && old(log) <= log
      ensures At(me, if ok then Checking(u, own) else Failed(u))
      ensures SentBy(log, me).Then? && SentBy(log, me).before == old(SentBy(log, me)) && SentBy(log, me).act.Issue?
      ensures ok <==> SentBy(log, me).act == Issue(Done)
      ensures old(InSequence()) ==> InSequence()
      ensures old(NoFaults(script)) ==> NoFaults(script) && ok
      ensures old(Quiet(script)) ==>
                && Quiet(script) && ok && zset == old(zset) && admitted == old(admitted)
                && tokens == if u in old(tokens) then old(tokens) else old(tokens)[u := own]
    {
      Ahead(me);
      ok := IssueToken(me, u, own);
    }

    /** The SETNX and the read-back: the second half of admissionToken. */
    method IssueAndReadBack(me: CallId, u: User, own: Token) returns (ok: bool, token: Token)
      requires Valid() && At(me, Minting(u, own)) && own != ""
      modifies this
      ensures Valid() && old(log) <= log
      ensures At(me, if ok then Admitted(u, token) else Failed(u))
      ensures SentBy(log, me).Then? && (ok <==> !Fatal(SentBy(log, me).act))
      ensures ok ==> SentBy(log, me).before == Then(old(SentBy(log, me)), Issue(Done)) && SentBy(log, me).act.Recheck?
      ensures old(InSequence()) ==> InSequence()
      ensures old(NoFaults(script)) ==> NoFaults(script) && ok
      ensures old(Quiet(script)) ==>
                && Quiet(script) && ok && zset == old(zset) && admitted == old(admitted)
                && tokens == (if u in old(tokens) then old(tokens) else old(tokens)[u := own]) && token == tokens[u]
    {
      token := "";
      ok := StoreOwn(me, u, own);
      if !ok { return; }
      Ahead(me);
      var read;
      read, token := ReadBack(me, u, own);
    }

    method AdmissionToken(me: CallId, u: User) returns (ok: bool, token: Token)
      requires Valid() && At(me, Cleared(u))
      modifies this
      ensures Valid() && old(log) <= log
      ensures At(me, if ok then Admitted(u, token) else Failed(u))
      ensures SentBy(log, me).Then? && (ok <==> !Fatal(SentBy(log, me).act))
      ensures old(InSequence()) ==> InSequence()
      ensures old(NoFaults(script)) ==> ok
      // a token that is there is returned; otherwise one is stored and returned
      ensures old(Quiet(script)) ==> ok && TokenFor(old(Db()), u, token)
      // unless the user's token expired meanwhile or our read-back failed, it is the one the purchase gate finds
      ensures ok && Calm(log[|old(log)|..], me, u) ==> u in tokens && tokens[u] == token && token != ""
    {
      Ahead(me);
      var existing, own := FindToken(me, u);
      if existing.Some? {
        ok, token := true, existing.value;
      } else {
        ok, token := IssueAndReadBack(me, u, own);
      }
      if ok && Calm(log[|old(log)|..], me, u) { AgreesSince(old(log), me, u); }
    }

    /** Since `s` the user has got `token`, which is now stored, and nothing else has changed for anybody. */
    ghost predicate TokenFor(s: Stores, u: User, token: Token)
      reads this
    {
      && zset == s.zset && admitted == s.admitted
      && u in tokens && tokens[u] == token
      && tokens == if u in s.tokens then s.tokens else s.tokens[u := token]
    }

    // ---------------------------------------------------------------- handlers/position.go, handlers/join.go

    /** What a handler that got past its request's check may answer, and what the answer is worth. A server error
        is answered exactly when a command has failed that the handler cannot do without. */
    ghost predicate Answered(me: CallId, u: User, r: Response)
      reads this
    {
      && me in calls && calls[me].user == u && !r.BadRequest?
      && (r.Granted? <==> calls[me].Admitted?)
      && (r.Granted? ==> calls[me] == Admitted(u, r.token) && r.position <= r.admittedCount)
      && (r.Queued? <==> calls[me].Waiting?)
      && (r.Queued? ==> calls[me] == Waiting(u, r.position, r.admittedCount) && r.position > r.admittedCount)
      && (r.NotQueued? <==> calls[me].NotInQueue?)
      && (r.ServerError? <==> calls[me].Failed?)
      && SentBy(log, me).Then? && (r.ServerError? <==> Fatal(SentBy(log, me).act))
      && (r.Granted? && AllSequenced(log) ==> Eligible(Db(), u))
      && (r.Queued? && AllSequenced(log) ==> Position(Db(), u) == Some(r.position))
    }

    /** The answer for a user at `position` when nothing fails and nobody else moves: the count decides. */
    ghost predicate CountDecides(s: Stores, u: User, position: int, r: Response)
      reads this
    {
      if position > s.admitted then r == Queued(position, s.admitted) && Db() == s
      else r.Granted? && r == Granted(position, s.admitted, r.token) && TokenFor(s, u, r.token)
    }

    /** The end of both handlers: a token for those whose turn it is; it is only ever handed to someone whose
        turn it is, and still is at the answer. */
    method Answer(me: CallId, u: User, position: int, count: nat) returns (r: Response)
      requires Valid() && At(me, if position <= count then Cleared(u) else Waiting(u, position, count))
      requires SentBy(log, me).Then? && !Fatal(SentBy(log, me).act)
      modifies this
      ensures Valid() && old(log) <= log && Answered(me, u, r) && !r.NotQueued?
      ensures r.Granted? || r.Queued? ==> r.position == position && r.admittedCount == count
      ensures old(InSequence()) ==> InSequence()
      ensures old(NoFaults(script)) ==> !r.ServerError?
      ensures old(Quiet(script)) && count == old(admitted) ==> CountDecides(old(Db()), u, position, r)
    {
      if position <= count {
        var issued', token := AdmissionToken(me, u);
        r := if issued' then Granted(position, count, token) else ServerError;
      } else {
        r := Queued(position, count);
      }
      if AllSequenced(log) { CallIsOk(me); }
    }

    /** The call comes in. */
    method Begin(me: CallId, u: User, join: bool)
      requires Valid() && me !in calls
      modifies this
      ensures Valid() && log == old(log) + [Call(me, u, join)] && script == old(script) && Db() == old(Db())
      ensures At(me, if join then Joining(u) else Polling(u)) && SentBy(log, me) == old(SentBy(log, me))
      ensures old(InSequence()) ==> InSequence()
    {
      SentBySnoc(log, Call(me, u, join), me);
      Advance(Call(me, u, join));
    }

    method ServePosition(me: CallId, u: User) returns (r: Response)
      requires Valid() && me !in calls
      modifies this
      ensures Valid() && old(log) <= log && Answered(me, u, r)
      ensures old(InSequence()) ==> InSequence()
      ensures !Head(old(script)).fate.Done? ==> r.ServerError?
      ensures old(NoFaults(script)) ==> !r.ServerError?
      ensures old(Quiet(script)) ==>
                match Position(old(Db()), u)
                case None => r == NotQueued && Db() == old(Db())
                case Some(p) => CountDecides(old(Db()), u, p, r)
    {
      Begin(me, u, false);
      var ok, position, count := GetPosition(me, u);
      if !ok { return ServerError; }
      if position == -1 { return NotQueued; }
      r := Answer(me, u, position, count);
    }

    /** GET /queue/position. */
    method PositionHandler(me: CallId, u: User) returns (r: Response)
      requires Valid() && me !in calls
      modifies this
      ensures Valid() && old(log) <= log
      ensures r.BadRequest? <==> u == ""
      ensures r.BadRequest? ==> View() == old(View()) && log == old(log)
      ensures !r.BadRequest? ==> Answered(me, u, r)
      ensures old(InSequence()) ==> InSequence()
      // without a fault there is no server error, whatever the others do
      ensures u != "" && !Head(old(script)).fate.Done? ==> r.ServerError?
      ensures old(NoFaults(script)) ==> !r.ServerError?
      // and if they do nothing either, the queue and the count decide
      ensures u != "" && old(Quiet(script)) ==>
                match Position(old(Db()), u)
                case None => r == NotQueued && Db() == old(Db())
                case Some(p) => CountDecides(old(Db()), u, p, r)
    {
      if u == "" { return BadRequest; }
      r := ServePosition(me, u);
    }

    /** What follows the join: the count, and the token if it is the user's turn. */
    method AfterJoin(me: CallId, u: User, position: int) returns (r: Response)
      requires Valid() && At(me, Joined(u, position)) && Position(Db(), u) == Some(position)
      modifies this
      ensures Valid() && old(log) <= log && Answered(me, u, r) && !r.NotQueued?
      ensures old(InSequence()) ==> InSequence()
      ensures old(NoFaults(script)) ==> !r.ServerError?
      ensures old(Quiet(script)) ==> CountDecides(old(Db()), u, position, r)
    {
      var ok, _, count := GetPosition(me, u);
      if !ok { return ServerError; }
      r := Answer(me, u, position, count);
    }

    method ServeJoin(me: CallId, u: User, strategy: string, now: int) returns (r: Response)
      requires Valid() && me !in calls
      modifies this
      ensures Valid() && old(log) <= log && Answered(me, u, r) && !r.NotQueued?
      ensures strategy == "timestamp_incr" && old(InSequence()) ==> InSequence()
      ensures old(NoFaults(script)) ==> !r.ServerError?
      ensures old(Quiet(script)) ==>
                var t := Joins(old(Db()), u, strategy, now);
                Position(t, u).Some? && CountDecides(t, u, Position(t, u).value, r)
    {
      Begin(me, u, true);
      var joined, position := Join(me, u, strategy, now);
      if !joined { return ServerError; }
      r := AfterJoin(me, u, position);
    }

    /** POST /queue/join: the position of one call against the admitted count of a later one. */
    method JoinHandler(me: CallId, u: User, strategy: string, now: int) returns (r: Response)
      requires Valid() && me !in calls
      modifies this
      ensures Valid() && old(log) <= log
      ensures r.BadRequest? <==> u == ""
      ensures r.BadRequest? ==> View() == old(View()) && log == old(log)
      ensures !r.BadRequest? ==> Answered(me, u, r) && !r.NotQueued?
      // by timestamp_incr the queue stays in the order of first script executions, and the position is that order's
      ensures strategy == "timestamp_incr" && old(InSequence()) ==> InSequence()
      // without a fault there is no server error, whatever the others do
      ensures old(NoFaults(script)) ==> !r.ServerError?
      // and if they do nothing either, the queue and the count decide
      ensures u != "" && old(Quiet(script)) ==>
                var t := Joins(old(Db()), u, strategy, now);
                && Position(t, u).Some? && CountDecides(t, u, Position(t, u).value, r)
                && (Position(old(Db()), u).None? ==> JoinsBy(old(Db()), t, u, strategy, now))
    {
      if u == "" { return BadRequest; }
      ScriptJoins(Db(), u, strategy, now);
      r := ServeJoin(me, u, strategy, now);
    }
  }
}
