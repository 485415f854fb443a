/** FIFO order, the admission cap and token agreement, over every interleaving of the waiting room. */
module WaitingRoomLaws {
  import opened Domain
  import opened SortedSet
  import opened WaitingRoom

  // ---------------------------------------------------------------- timestamp_incr refines a FIFO list

  /** The users in the order in which each first ran the script. */
  function FirstOf(arrivals: seq<User>): seq<User> {
    if arrivals == [] then [] else
    var n := |arrivals| - 1;
    if arrivals[n] in arrivals[..n] then FirstOf(arrivals[..n]) else FirstOf(arrivals[..n]) + [arrivals[n]]
  }

  function Members(z: seq<Entry>): seq<User> { seq(|z|, i requires 0 <= i < |z| => z[i].member) }

  lemma {:induction false} FirstOfIs(arrivals: seq<User>)
    ensures forall u :: u in FirstOf(arrivals) <==> u in arrivals
    ensures forall i, j :: 0 <= i < j < |FirstOf(arrivals)| ==> FirstOf(arrivals)[i] != FirstOf(arrivals)[j]
    decreases |arrivals|
  {
    if arrivals != [] {
      FirstOfIs(arrivals[..|arrivals| - 1]);
      assert arrivals == arrivals[..|arrivals| - 1] + [arrivals[|arrivals| - 1]];
    }
  }

  /** Every replica scores by the sequence number, and nobody resets the queue. */
  predicate Sequenced(e: Event) { !e.Reset? && (e.Do? && e.act.Script? ==> e.act.scoring.Incr?) }

  predicate AllSequenced(es: seq<Event>) { forall i :: 0 <= i < |es| ==> Sequenced(es[i]) }

  ghost predicate Fifo(s: Stores) {
    && Valid(s.zset)
    && (forall i :: 0 <= i < |s.zset| ==> s.zset[i].score <= s.seqno)
    && Members(s.zset) == FirstOf(s.arrivals)
  }

  predicate Eligible(s: Stores, u: User) { Position(s, u).Some? && Position(s, u).value <= s.admitted }

  predicate CallOk(s: Stores, pc: Pc) {
    match pc
    case Joined(u, p) => Position(s, u) == Some(p)
    case Ranked(u, p) => Position(s, u) == Some(p)
    case Waiting(u, p, _) => Position(s, u) == Some(p)
    case Cleared(u) => Eligible(s, u)
    case Minting(u, _) => Eligible(s, u)
    case Checking(u, _) => Eligible(s, u)
    case Admitted(u, _) => Eligible(s, u)
    case _ => true
  }

  ghost predicate Inv(s: State) {
    && Fifo(s.stores)
    && (forall c :: c in s.calls ==> CallOk(s.stores, s.calls[c]))
    && (forall u :: u in s.stores.issued ==> Eligible(s.stores, u))
  }

  lemma AddAtEnd(z: seq<Entry>, e: Entry)
    requires Valid(z) && !Has(z, e.member) && forall i :: 0 <= i < |z| ==> z[i].score < e.score
    ensures Add(z, e) == z + [e]
  {
    SlotSplits(z, e);
    var k := Slot(z, e);
    assert k < |z| ==> Before(e, z[k]);
  }

  lemma HasIsMembership(s: Stores, u: User)
    requires Fifo(s)
    ensures Has(s.zset, u) <==> u in s.arrivals
  {
    FirstOfIs(s.arrivals);
    var m := Members(s.zset);
    if Has(s.zset, u) {
      var i :| 0 <= i < |s.zset| && s.zset[i].member == u;
      assert m[i] == u;
    }
    if u in m {
      var i :| 0 <= i < |m| && m[i] == u;
      assert s.zset[i].member == u;
    }
  }

  lemma NewcomerKeepsFifo(s: Stores, u: User)
    requires Fifo(s) && !Has(s.zset, u)
    ensures var t := RunScript(s, u, Incr); Fifo(t) && t.zset == s.zset + [Entry(s.seqno + 1, u)]
  {
    var e := Entry(s.seqno + 1, u);
    var t := RunScript(s, u, Incr);
    AddSorted(s.zset, e);
    AddAtEnd(s.zset, e);
    HasIsMembership(s, u);
    assert t.arrivals[..|s.arrivals|] == s.arrivals;
    assert Members(s.zset + [e]) == Members(s.zset) + [u];
  }

  lemma AgainKeepsFifo(s: Stores, u: User)
    requires Fifo(s) && Has(s.zset, u)
    ensures var t := RunScript(s, u, Incr); Fifo(t) && t.zset == s.zset
  {
    HasIsMembership(s, u);
    assert RunScript(s, u, Incr).arrivals[..|s.arrivals|] == s.arrivals;
  }

  lemma ScriptKeepsFifo(s: Stores, u: User)
    requires Fifo(s)
    ensures var t := RunScript(s, u, Incr); Fifo(t) && s.zset <= t.zset && Has(t.zset, u)
  {
    AddHas(s.zset, Entry(s.seqno + 1, u));
    if Has(s.zset, u) { AgainKeepsFifo(s, u); } else { NewcomerKeepsFifo(s, u); }
  }

  /** The queue only grows at its end, and the admitted count only upwards. */
  ghost predicate Later(s: Stores, t: Stores) {
    Valid(s.zset) && Valid(t.zset) && s.zset <= t.zset && s.admitted <= t.admitted
  }

  lemma PositionKept(s: Stores, t: Stores, u: User)
    requires Later(s, t) && Position(s, u).Some?
    ensures Position(t, u) == Position(s, u)
    ensures Eligible(s, u) ==> Eligible(t, u)
  {
    RankIs(t.zset, Rank(s.zset, u).value);
  }

  lemma CallKept(s: Stores, t: Stores, pc: Pc)
    requires Later(s, t) && CallOk(s, pc)
    ensures CallOk(t, pc)
  {
    if Position(s, pc.user).Some? { PositionKept(s, t, pc.user); }
  }

  lemma OutcomeIsLater(s: Stores, pc: Pc, act: Act)
    requires Fifo(s) && (act.Script? ==> act.scoring.Incr?)
    ensures Fifo(Outcome(s, pc, act).0) && Later(s, Outcome(s, pc, act).0)
  {
    if act.Script? && pc.Scripting? {
      ScriptKeepsFifo(s, pc.user);
    }
  }

  lemma OutcomeKeepsCall(s: Stores, pc: Pc, act: Act)
    requires Fifo(s) && CallOk(s, pc) && (act.Script? ==> act.scoring.Incr?)
    ensures CallOk(Outcome(s, pc, act).0, Outcome(s, pc, act).1)
    ensures forall u :: u in Outcome(s, pc, act).0.issued ==> u in s.issued || Eligible(s, u)
  {}

  lemma StepKeepsInv(s: State, e: Event)
    requires Inv(s) && Sequenced(e)
    ensures Inv(Step(s, e)) && Later(s.stores, Step(s, e).stores)
  {
    var t := Step(s, e);
    if e.Do? && e.who in s.calls {
      OutcomeIsLater(s.stores, s.calls[e.who], e.act);
      OutcomeKeepsCall(s.stores, s.calls[e.who], e.act);
    }
    assert Fifo(t.stores) && Later(s.stores, t.stores);
    forall c | c in t.calls ensures CallOk(t.stores, t.calls[c]) {
      if c in s.calls && !(e.Do? && e.who == c) { CallKept(s.stores, t.stores, s.calls[c]); }
    }
    forall u | u in t.stores.issued ensures Eligible(t.stores, u) {
      assert Eligible(s.stores, u);
      PositionKept(s.stores, t.stores, u);
    }
  }

  lemma {:induction false} RunKeepsInv(s: State, es: seq<Event>)
    requires Inv(s) && AllSequenced(es)
    ensures Inv(Run(s, es)) && Later(s.stores, Run(s, es).stores)
    decreases |es|
  {
    if es != [] {
      RunKeepsInv(s, es[..|es| - 1]);
      StepKeepsInv(Run(s, es[..|es| - 1]), es[|es| - 1]);
    }
  }

  lemma PlacesAreFifo(s: Stores, u: User, p: int)
    requires Fifo(s)
    ensures var order := FirstOf(s.arrivals);
            Position(s, u) == Some(p) <==> 1 <= p <= |order| && order[p - 1] == u
  {
    var m := Members(s.zset);
    assert m == FirstOf(s.arrivals);
    if 1 <= p <= |m| && m[p - 1] == u { RankIs(s.zset, p - 1); }
    if Position(s, u) == Some(p) { assert m[p - 1] == u; }
  }

  /** Under timestamp_incr the queue is the list of users in order of first script execution: positions
      are 1..n along it, and every position any call was given is the user's place in it. */
  lemma RefinesFifo(es: seq<Event>)
    requires AllSequenced(es)
    ensures var s := Run(Start(), es); var order := FirstOf(s.stores.arrivals);
            && (forall i, j :: 0 <= i < j < |order| ==> order[i] != order[j])
            && (forall u, p :: Position(s.stores, u) == Some(p) <==> 1 <= p <= |order| && order[p - 1] == u)
            && (forall c :: c in s.calls ==> match s.calls[c]
                case Joined(u, p) => 1 <= p <= |order| && order[p - 1] == u
                case Ranked(u, p) => 1 <= p <= |order| && order[p - 1] == u
                case Waiting(u, p, _) => 1 <= p <= |order| && order[p - 1] == u
                case _ => true)
  {
    RunKeepsInv(Start(), es);
    var s := Run(Start(), es);
    FirstOfIs(s.stores.arrivals);
    forall u, p { PlacesAreFifo(s.stores, u, p); }
    forall c | c in s.calls ensures CallOk(s.stores, s.calls[c]) {}
  }

  /** A position, once there, never changes; so callers joining twice get the same one. */
  lemma PositionForever(before: seq<Event>, es: seq<Event>, u: User)
    requires AllSequenced(before) && AllSequenced(es)
    requires Position(Run(Start(), before).stores, u).Some?
    ensures Position(Run(Run(Start(), before), es).stores, u) == Position(Run(Start(), before).stores, u)
  {
    RunKeepsInv(Start(), before);
    RunKeepsInv(Run(Start(), before), es);
    PositionKept(Run(Start(), before).stores, Run(Run(Start(), before), es).stores, u);
  }

  // ---------------------------------------------------------------- admission

  function SetOf(users: seq<User>): set<User> { set u | u in users }

  lemma {:induction false} SetOfSize(users: seq<User>)
    ensures |SetOf(users)| <= |users|
    decreases |users|
  {
    if users != [] {
      SetOfSize(users[..|users| - 1]);
      assert users == users[..|users| - 1] + [users[|users| - 1]];
      assert SetOf(users) == SetOf(users[..|users| - 1]) + {users[|users| - 1]};
    }
  }

  function UpTo(order: seq<User>, n: nat): seq<User> { if n <= |order| then order[..n] else order }

  lemma EligibleIsFirst(s: Stores, u: User)
    requires Fifo(s) && Eligible(s, u)
    ensures u in SetOf(UpTo(FirstOf(s.arrivals), s.admitted))
  {
    var r := Rank(s.zset, u).value;
    assert Members(s.zset)[r] == u;
    assert UpTo(FirstOf(s.arrivals), s.admitted)[r] == u;
  }

  lemma CapFromInv(s: State)
    requires Inv(s)
    ensures s.stores.issued <= SetOf(UpTo(FirstOf(s.stores.arrivals), s.stores.admitted))
    ensures |SetOf(UpTo(FirstOf(s.stores.arrivals), s.stores.admitted))| <= s.stores.admitted
  {
    var head := UpTo(FirstOf(s.stores.arrivals), s.stores.admitted);
    forall u | u in s.stores.issued ensures u in SetOf(head) { EligibleIsFirst(s.stores, u); }
    SetOfSize(head);
  }

  /** The admission cap: whoever was ever issued a token is among the first `admitted` to join. */
  lemma AdmissionCap(es: seq<Event>)
    requires AllSequenced(es)
    ensures var s := Run(Start(), es).stores;
            s.issued <= SetOf(UpTo(FirstOf(s.arrivals), s.admitted)) && |s.issued| <= s.admitted
  {
    RunKeepsInv(Start(), es);
    CapFromInv(Run(Start(), es));
    var s := Run(Start(), es).stores;
    SubsetSizes(s.issued, SetOf(UpTo(FirstOf(s.arrivals), s.admitted)));
  }

  /** The decision made from two separate reads is the one a single read at the later instant makes, and
      it can never turn out wrong later. */
  lemma TwoReadsAreASnapshot(before: seq<Event>, c: CallId, es: seq<Event>)
    requires AllSequenced(before) && AllSequenced(es)
    requires c in Run(Start(), before).calls && Run(Start(), before).calls[c].Ranked?
    ensures var s := Run(Start(), before); var u := s.calls[c].user;
            && (Step(s, Do(c, ReadAdmitted(true))).calls[c].Cleared? <==> Eligible(s.stores, u))
            && (Eligible(s.stores, u) ==> Eligible(Run(s, es).stores, u))
  {
    RunKeepsInv(Start(), before);
    var s := Run(Start(), before);
    assert CallOk(s.stores, s.calls[c]);
    RunKeepsInv(s, es);
    PositionKept(s.stores, Run(s, es).stores, s.calls[c].user);
  }

  // ---------------------------------------------------------------- across a reset

  /** Still on its way to a token when the queue was reset. */
  predicate InFlight(pc: Pc) { pc.Joined? || pc.Ranked? || pc.Cleared? || pc.Minting? }

  predicate Past(pc: Pc) { pc.Checking? || pc.Admitted? || pc.Waiting? || pc.NotInQueue? || pc.Failed? }

  function InFlightUsers(s: State): set<User> { set c | c in s.calls && InFlight(s.calls[c]) :: s.calls[c].user }

  /** Who may hold a token out of turn after a reset in state `s`. */
  function Excused(s: State): set<User> { s.stores.tokens.Keys + InFlightUsers(s) }

  ghost predicate InvSince(s: State, t: State) {
    && Fifo(t.stores)
    && (forall c :: c in t.calls ==>
          CallOk(t.stores, t.calls[c]) || Past(t.calls[c]) || t.calls[c].user in InFlightUsers(s))
    && (forall u :: u in t.stores.tokens ==> Eligible(t.stores, u) || u in Excused(s))
  }

  lemma OutcomeSince(s: Stores, pc: Pc, act: Act)
    ensures var (t, pc') := Outcome(s, pc, act);
            && pc'.user == pc.user
            && (Past(pc) ==> Past(pc'))
            && (forall u :: u in t.tokens ==> u in s.tokens || (u == pc.user && pc.Minting?))
  {}

  lemma StepSince(s: State, t: State, e: Event)
    requires InvSince(s, t) && Sequenced(e)
    ensures InvSince(s, Step(t, e))
  {
    var t' := Step(t, e);
    if e.Do? && e.who in t.calls {
      var pc := t.calls[e.who];
      OutcomeIsLater(t.stores, pc, e.act);
      OutcomeSince(t.stores, pc, e.act);
      if CallOk(t.stores, pc) { OutcomeKeepsCall(t.stores, pc, e.act); }
    }
    assert Fifo(t'.stores) && Later(t.stores, t'.stores);
    forall c | c in t'.calls && !Past(t'.calls[c]) && t'.calls[c].user !in InFlightUsers(s)
      ensures CallOk(t'.stores, t'.calls[c])
    {
      if c in t.calls && !(e.Do? && e.who == c) { CallKept(t.stores, t'.stores, t.calls[c]); }
    }
    forall u | u in t'.stores.tokens && u !in Excused(s) ensures Eligible(t'.stores, u) {
      assert Eligible(t.stores, u);
      PositionKept(t.stores, t'.stores, u);
    }
  }

  lemma {:induction false} RunSince(s: State, es: seq<Event>)
    requires AllSequenced(es)
    ensures InvSince(s, Run(Step(s, Reset), es))
    decreases |es|
  {
    if es == [] {
      assert Members([]) == [];
      forall c | c in s.calls && InFlight(s.calls[c]) ensures s.calls[c].user in InFlightUsers(s) {}
    } else {
      RunSince(s, es[..|es| - 1]);
      StepSince(s, Run(Step(s, Reset), es[..|es| - 1]), es[|es| - 1]);
    }
  }

  lemma UnionSize<T>(a: set<T>, b: set<T>)
    ensures |a + b| <= |a| + |b|
  {}

  /** What a reset leaves of the cap: since the last one, whatever went on before, whoever holds a token is
      among the first `admitted` to join, or held one at the reset, or was on the way to one. */
  lemma CapSinceReset(before: seq<Event>, es: seq<Event>)
    requires AllSequenced(es)
    ensures var s := Run(Start(), before); var t := Run(Step(s, Reset), es).stores;
            && t.tokens.Keys <= SetOf(UpTo(FirstOf(t.arrivals), t.admitted)) + Excused(s)
            && |t.tokens| <= t.admitted + |s.stores.tokens| + |InFlightUsers(s)|
  {
    var s := Run(Start(), before);
    var t := Run(Step(s, Reset), es).stores;
    RunSince(s, es);
    var head := UpTo(FirstOf(t.arrivals), t.admitted);
    forall u | u in t.tokens && u !in Excused(s) ensures u in SetOf(head) { EligibleIsFirst(t, u); }
    SetOfSize(head);
    UnionSize(SetOf(head), Excused(s));
    UnionSize(s.stores.tokens.Keys, InFlightUsers(s));
    SubsetSizes(t.tokens.Keys, SetOf(head) + Excused(s));
    assert |t.tokens.Keys| == |t.tokens| && |s.stores.tokens.Keys| == |s.stores.tokens|;
  }

  // ---------------------------------------------------------------- under either strategy

  /** The decision made from two separate reads, exactly: with `p` the rank read first and `d` the number that
      overtook the user since, it is the one a single read at the later instant makes unless the count has
      reached p but not p + d. */
  lemma TwoReadsExactly(before: seq<Event>, es: seq<Event>, c: CallId)
    requires ResetFree(es)
    requires var s, t := Run(Start(), before).stores, Run(Run(Start(), before), es);
             && c in t.calls && t.calls[c].Ranked? && Position(s, t.calls[c].user) == Some(t.calls[c].position)
    ensures var s, t := Run(Start(), before).stores, Run(Run(Start(), before), es);
            var u, p := t.calls[c].user, t.calls[c].position;
            var d := |Overtakers(s.zset, t.stores.zset, s.zset[p - 1])|;
            (Step(t, Do(c, ReadAdmitted(true))).calls[c].Cleared? <==> Eligible(t.stores, u))
            <==> !(p <= t.stores.admitted < p + d)
  {
    RankDrift(before, es, Run(Run(Start(), before), es).calls[c].user);
  }

  /** At some instant the user's position was `n` or less. */
  ghost predicate Reached(es: seq<Event>, u: User, n: int) { exists k: nat :: ReachedAt(es, k, u, n) }

  predicate ReachedAt(es: seq<Event>, k: nat, u: User, n: int) {
    && k <= |es|
    && var s := Run(Start(), es[..k]).stores;
       Position(s, u).Some? && Position(s, u).value <= n
  }

  ghost predicate CallReached(es: seq<Event>, pc: Pc, admitted: nat) {
    match pc
    case Joined(u, p) => Reached(es, u, p)
    case Ranked(u, p) => Reached(es, u, p)
    case Cleared(u) => Reached(es, u, admitted)
    case Minting(u, _) => Reached(es, u, admitted)
    case _ => true
  }

  lemma ReachedGrows(es: seq<Event>, u: User, n: int, e: Event, m: int)
    requires Reached(es, u, n) && n <= m
    ensures Reached(es + [e], u, m)
  {
    var k: nat :| ReachedAt(es, k, u, n);
    assert (es + [e])[..k] == es[..k];
    assert ReachedAt(es + [e], k, u, m);
  }

  lemma ReachedNow(es: seq<Event>, u: User, n: int)
    requires var s := Run(Start(), es).stores; Position(s, u).Some? && Position(s, u).value <= n
    ensures Reached(es, u, n)
  {
    assert es[..|es|] == es;
    assert ReachedAt(es, |es|, u, n);
  }

  lemma CallReachedGrows(es: seq<Event>, pc: Pc, n: nat, e: Event, m: nat)
    requires CallReached(es, pc, n) && n <= m
    ensures CallReached(es + [e], pc, m)
  {
    match pc
    case Joined(u, p) => ReachedGrows(es, u, p, e, p);
    case Ranked(u, p) => ReachedGrows(es, u, p, e, p);
    case Cleared(u) => ReachedGrows(es, u, n, e, m);
    case Minting(u, _) => ReachedGrows(es, u, n, e, m);
    case _ =>
  }

  /** A call's next point rests on the position it had, or on one the user has right now. */
  lemma OutcomeReached(s: Stores, pc: Pc, act: Act)
    ensures var (t, pc') := Outcome(s, pc, act);
            && t.admitted == s.admitted
            && (pc'.Joined? ==> pc' == pc || Position(t, pc'.user) == Some(pc'.position))
            && (pc'.Ranked? ==> pc' == pc || (pc.Joined? && pc' == Ranked(pc.user, pc.position))
                                || Position(t, pc'.user) == Some(pc'.position))
            && (pc'.Cleared? ==> pc' == pc || (pc.Ranked? && pc'.user == pc.user && pc.position <= s.admitted))
            && (pc'.Minting? ==> pc' == pc || (pc.Cleared? && pc'.user == pc.user))
            && (forall u :: u in t.issued ==> u in s.issued || (pc.Minting? && u == pc.user))
  {}

  lemma CallReachedStep(es: seq<Event>, e: Event)
    requires e.Do? && var s := Run(Start(), es); e.who in s.calls && CallReached(es, s.calls[e.who], s.stores.admitted)
    ensures var t := Run(Start(), es + [e]); CallReached(es + [e], t.calls[e.who], t.stores.admitted)
  {
    var s := Run(Start(), es);
    var pc := s.calls[e.who];
    RunSnoc(Start(), es, e);
    OutcomeReached(s.stores, pc, e.act);
    CallReachedGrows(es, pc, s.stores.admitted, e, s.stores.admitted);
    var pc' := Outcome(s.stores, pc, e.act).1;
    if pc'.Joined? && pc' != pc { ReachedNow(es + [e], pc'.user, pc'.position); }
    if pc'.Ranked? && pc' != pc && !pc.Joined? { ReachedNow(es + [e], pc'.user, pc'.position); }
    if pc'.Cleared? && pc' != pc { ReachedGrows(es, pc.user, pc.position, e, s.stores.admitted); }
  }

  ghost predicate AllReached(es: seq<Event>) {
    var s := Run(Start(), es);
    && (forall c :: c in s.calls ==> CallReached(es, s.calls[c], s.stores.admitted))
    && (forall u :: u in s.stores.issued ==> Reached(es, u, s.stores.admitted))
  }

  lemma StepReached(es: seq<Event>, e: Event)
    requires AllReached(es) && !e.Reset?
    ensures AllReached(es + [e])
  {
    var s := Run(Start(), es);
    var t := Step(s, e);
    RunSnoc(Start(), es, e);
    if e.Do? && e.who in s.calls {
      OutcomeReached(s.stores, s.calls[e.who], e.act);
      CallReachedStep(es, e);
    }
    forall c | c in t.calls ensures CallReached(es + [e], t.calls[c], t.stores.admitted) {
      if c in s.calls && !(e.Do? && e.who == c) {
        CallReachedGrows(es, s.calls[c], s.stores.admitted, e, t.stores.admitted);
      }
    }
    forall u | u in t.stores.issued ensures Reached(es + [e], u, t.stores.admitted) {
      assert u in s.stores.issued || s.calls[e.who] == Minting(u, s.calls[e.who].own);
      ReachedGrows(es, u, s.stores.admitted, e, t.stores.admitted);
    }
  }

  lemma {:induction false} RunReached(es: seq<Event>)
    requires ResetFree(es)
    ensures AllReached(es)
    decreases |es|
  {
    if es != [] {
      RunReached(es[..|es| - 1]);
      StepReached(es[..|es| - 1], es[|es| - 1]);
      assert es == es[..|es| - 1] + [es[|es| - 1]];
    }
  }

  lemma ReachedDrifts(es: seq<Event>, k: nat, u: User, n: int)
    requires ResetFree(es) && ReachedAt(es, k, u, n)
    ensures Drifted(Run(Start(), es[..k]).stores, Run(Start(), es).stores, u)
  {
    RunKeepsOrder(Start(), es[..k]);
    DriftFrom(Run(Start(), es[..k]), es[k..], u);
    RunAppend(Start(), es[..k], es[k..]);
    assert es == es[..k] + es[k..];
  }

  /** What survives of the cap under either strategy: whoever was ever issued a token was at some instant at a
      position that the count has reached, and has since moved back only by those who overtook it. */
  lemma CapButForOvertakers(es: seq<Event>, u: User)
    requires ResetFree(es) && u in Run(Start(), es).stores.issued
    ensures exists k: nat :: ReachedAt(es, k, u, Run(Start(), es).stores.admitted)
                             && Drifted(Run(Start(), es[..k]).stores, Run(Start(), es).stores, u)
  {
    RunReached(es);
    var k: nat :| ReachedAt(es, k, u, Run(Start(), es).stores.admitted);
    ReachedDrifts(es, k, u, Run(Start(), es).stores.admitted);
  }
}
