/**
 What a reset of the queue does to the admission cap, exactly: a timestamp_incr continuation can break it if
 and only if somebody holds a token at the reset, or is on the way to one.
 */
module ResetCap {
  import opened Domain
  import opened SortedSet
  import opened WaitingRoom
  import opened WaitingRoomLaws

  /** Somebody who is not among the first `admitted` to join holds a token. */
  predicate CapBroken(s: Stores) {
    exists u :: u in s.tokens && u !in SetOf(UpTo(FirstOf(s.arrivals), s.admitted))
  }

  predicate SameQueue(s: Stores, t: Stores) {
    t.zset == s.zset && t.seqno == s.seqno && t.admitted == s.admitted && t.arrivals == s.arrivals
  }

  lemma RunOne(s: State, e: Event)
    ensures Run(s, [e]) == Step(s, e)
  {
    assert [e] == [e] + [];
    RunCons(s, e, []);
  }

  lemma RunTwo(s: State, e: Event, f: Event)
    ensures Run(s, [e, f]) == Step(Step(s, e), f)
  {
    assert [e, f] == [e] + [f];
    RunCons(s, e, [f]);
    RunOne(Step(s, e), f);
  }

  // ---------------------------------------------------------------- from each point to a token

  /** A call that is about to store its token stores it, unless the user has one. */
  lemma FromMinting(s: State, c: CallId, u: User)
    requires c in s.calls && s.calls[c].Minting? && s.calls[c].user == u
    ensures var t := Run(s, [Do(c, Issue(Done))]).stores; SameQueue(s.stores, t) && u in t.tokens
    ensures AllSequenced([Do(c, Issue(Done))])
  {
    RunOne(s, Do(c, Issue(Done)));
  }

  lemma FromCleared(s: State, c: CallId, u: User) returns (es: seq<Event>)
    requires c in s.calls && s.calls[c] == Cleared(u)
    ensures AllSequenced(es)
    ensures var t := Run(s, es).stores; SameQueue(s.stores, t) && u in t.tokens
  {
    if u in s.stores.tokens {
      es := [];
    } else {
      var own := UnusedString(s.stores.minted);
      var first := Do(c, GetToken(true, own));
      var t := Step(s, first);
      assert t.calls[c] == Minting(u, own) && SameQueue(s.stores, t.stores);
      FromMinting(t, c, u);
      es := [first] + [Do(c, Issue(Done))];
      RunCons(s, first, [Do(c, Issue(Done))]);
    }
  }

  lemma {:induction false} TicksRun(s: State, n: nat) returns (es: seq<Event>)
    ensures AllSequenced(es) && Run(s, es) == s.(stores := s.stores.(admitted := s.stores.admitted + n))
  {
    if n == 0 {
      es := [];
    } else {
      var before := TicksRun(s, n - 1);
      RunSnoc(s, before, Tick);
      es := before + [Tick];
    }
  }

  /** A call that knows its rank waits for the count to reach it, and is let in. */
  lemma FromRanked(s: State, c: CallId, u: User, p: int, n: nat) returns (es: seq<Event>)
    requires c in s.calls && s.calls[c] == Ranked(u, p) && s.stores.admitted == 0 && p <= n
    ensures AllSequenced(es)
    ensures var t := Run(s, es).stores; t.arrivals == s.stores.arrivals && t.admitted == n && u in t.tokens
  {
    var ticks := TicksRun(s, n);
    var ready := s.(stores := s.stores.(admitted := n));
    var look := Do(c, ReadAdmitted(true));
    var cleared := Step(ready, look);
    assert cleared == State(ready.stores, s.calls[c := Cleared(u)]);
    var rest := FromCleared(cleared, c, u);
    es := ticks + ([look] + rest);
    RunCons(ready, look, rest);
    RunAppend(s, ticks, [look] + rest);
  }

  // ---------------------------------------------------------------- joins

  /** One user joins by a call of its own. */
  lemma JoinOne(s: State, v: User) returns (es: seq<Event>)
    requires Fifo(s.stores)
    ensures AllSequenced(es) && Run(s, es).stores == RunScript(s.stores, v, Incr)
    ensures forall c :: c in s.calls ==> c in Run(s, es).calls && Run(s, es).calls[c] == s.calls[c]
  {
    var c := Unused(s.calls.Keys);
    assert c !in s.calls.Keys;
    var s1 := Step(s, Call(c, v, true));
    var s2 := Step(s1, Do(c, PreCheck(false)));
    var s3 := Step(s2, Do(c, Script(Incr, Done)));
    assert s2.calls[c] == Scripting(v) && s2.stores == s.stores;
    assert s3.stores == RunScript(s.stores, v, Incr);
    es := [Call(c, v, true)] + [Do(c, PreCheck(false)), Do(c, Script(Incr, Done))];
    RunCons(s, Call(c, v, true), [Do(c, PreCheck(false)), Do(c, Script(Incr, Done))]);
    RunTwo(s1, Do(c, PreCheck(false)), Do(c, Script(Incr, Done)));
  }

  lemma NewcomerIsLast(s: Stores, v: User)
    requires Fifo(s) && v !in s.arrivals
    ensures var t := RunScript(s, v, Incr);
            && Fifo(t) && FirstOf(t.arrivals) == FirstOf(s.arrivals) + [v] && Position(t, v).Some?
            && t.tokens == s.tokens && t.admitted == s.admitted
  {
    ScriptKeepsFifo(s, v);
    assert RunScript(s, v, Incr).arrivals[..|s.arrivals|] == s.arrivals;
  }

  /** n users other than u join the empty queue. */
  lemma {:induction false} OthersJoin(s: State, u: User, n: nat) returns (es: seq<Event>)
    requires Fifo(s.stores) && s.stores.arrivals == [] && s.stores.admitted == 0
    ensures AllSequenced(es)
    ensures var t := Run(s, es);
            && Fifo(t.stores) && |FirstOf(t.stores.arrivals)| == n && u !in t.stores.arrivals && t.stores.admitted == 0
            && (forall c :: c in s.calls ==> c in t.calls && t.calls[c] == s.calls[c])
    decreases n
  {
    if n == 0 {
      es := [];
    } else {
      var before := OthersJoin(s, u, n - 1);
      var t := Run(s, before);
      var v := UnusedString(SetOf(t.stores.arrivals) + {u});
      NewcomerIsLast(t.stores, v);
      var one := JoinOne(t, v);
      RunAppend(s, before, one);
      es := before + one;
    }
  }

  lemma BehindThemAll(s: Stores, u: User, n: nat)
    requires n + 1 == |FirstOf(s.arrivals)| && FirstOf(s.arrivals)[n..] == [u] && s.admitted == n && u in s.tokens
    ensures CapBroken(s)
  {
    FirstOfIs(s.arrivals);
    var order := FirstOf(s.arrivals);
    assert order[n] == u;
    assert forall i :: 0 <= i < n ==> order[..n][i] != u;
  }

  /** A queue of n users and then u, of whom none is admitted yet. */
  predicate QueueBehind(s: Stores, u: User, n: nat) {
    && |FirstOf(s.arrivals)| == n + 1 && FirstOf(s.arrivals)[n..] == [u]
    && Position(s, u).Some? && s.admitted == 0
  }

  /** Enough others join, and u joins behind them. */
  lemma RejoinsBehind(s: State, u: User, n: nat) returns (es: seq<Event>)
    requires Fifo(s.stores) && s.stores.arrivals == [] && s.stores.admitted == 0
    ensures AllSequenced(es) && QueueBehind(Run(s, es).stores, u, n)
    ensures forall c :: c in s.calls ==> c in Run(s, es).calls && Run(s, es).calls[c] == s.calls[c]
  {
    var others := OthersJoin(s, u, n);
    var s1 := Run(s, others);
    NewcomerIsLast(s1.stores, u);
    var again := JoinOne(s1, u);
    RunAppend(s, others, again);
    es := others + again;
  }

  /** The old position of a join is let in when the count reaches it. */
  lemma OldPositionLetIn(s: State, c: CallId, u: User, p: int, n: nat) returns (es: seq<Event>)
    requires QueueBehind(s.stores, u, n) && c in s.calls && s.calls[c] == Joined(u, p) && p <= n
    ensures AllSequenced(es) && CapBroken(Run(s, es).stores)
  {
    var confirm := Do(c, Confirm(true));
    var t := Step(s, confirm);
    assert t == State(s.stores, s.calls[c := Ranked(u, p)]);
    var rest := FromRanked(t, c, u, p, n);
    BehindThemAll(Run(t, rest).stores, u, n);
    RunCons(s, confirm, rest);
    es := [confirm] + rest;
  }

  /** A join that got its position before the reset: the user joins again behind enough others, and the old
      position is let in when the count reaches it. */
  lemma FromJoined(s: State, c: CallId, u: User, p: int) returns (es: seq<Event>)
    requires Fifo(s.stores) && s.stores.arrivals == [] && s.stores.admitted == 0
    requires c in s.calls && s.calls[c] == Joined(u, p)
    ensures AllSequenced(es) && CapBroken(Run(s, es).stores)
  {
    var n := if p >= 0 then p else 0;
    var again := RejoinsBehind(s, u, n);
    var rest := OldPositionLetIn(Run(s, again), c, u, p, n);
    RunAppend(s, again, rest);
    es := again + rest;
  }

  // ---------------------------------------------------------------- the law

  lemma NobodyJoined(s: Stores, u: User)
    requires s.arrivals == [] && u in s.tokens
    ensures CapBroken(s)
  {}

  lemma ExcusedBreaks(s: State, u: User) returns (es: seq<Event>)
    requires u in Excused(s)
    ensures AllSequenced(es) && CapBroken(Run(Step(s, Reset), es).stores)
  {
    var r := Step(s, Reset);
    es := [];
    if u in s.stores.tokens {
      NobodyJoined(r.stores, u);
    } else {
      var c :| c in s.calls && InFlight(s.calls[c]) && s.calls[c].user == u;
      match s.calls[c] {
        case Joined(_, p) =>
          assert Members([]) == [];
          es := FromJoined(r, c, u, p);
        case Ranked(_, p) =>
          es := FromRanked(r, c, u, p, if p >= 0 then p else 0);
          NobodyJoined(Run(r, es).stores, u);
        case Cleared(_) =>
          es := FromCleared(r, c, u);
          NobodyJoined(Run(r, es).stores, u);
        case Minting(_, _) =>
          es := [Do(c, Issue(Done))];
          FromMinting(r, c, u);
          NobodyJoined(Run(r, es).stores, u);
      }
    }
  }

  ghost predicate CanBreakCap(r: State) { exists es :: AllSequenced(es) && CapBroken(Run(r, es).stores) }

  /** After a reset the cap is safe under timestamp_incr exactly when at the reset nobody held a token and no call
      was on the way to one. */
  lemma CapSafeAfterResetIff(before: seq<Event>)
    ensures var s := Run(Start(), before); CanBreakCap(Step(s, Reset)) <==> Excused(s) != {}
  {
    var s := Run(Start(), before);
    if u :| u in Excused(s) {
      var es := ExcusedBreaks(s, u);
    }
    forall es | AllSequenced(es) && CapBroken(Run(Step(s, Reset), es).stores) ensures Excused(s) != {} {
      CapSinceReset(before, es);
    }
  }
}
