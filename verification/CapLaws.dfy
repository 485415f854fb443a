/**
 The admission cap under either scoring strategy: everyone ever issued a token stands within the admitted
 count. Under timestamp_incr it always holds between resets; under `timestamp` it holds exactly as long as no
 step of a run does one of two things, which `Breaks` names.
 */
module CapLaws {
  import opened Domain
  import opened SortedSet
  import opened WaitingRoom
  import opened WaitingRoomLaws

  predicate Capped(s: Stores) { forall u :: u in s.issued ==> Eligible(s, u) }

  // ---------------------------------------------------------------- what the cap means for numbers

  /** The members of the first n places. */
  function FirstMembers(z: seq<Entry>, n: nat): set<User> { SetOf(Members(z[..if n <= |z| then n else |z|])) }

  lemma EligibleIsAmongFirst(s: Stores, u: User)
    requires Eligible(s, u)
    ensures u in FirstMembers(s.zset, s.admitted)
  {
    var n := if s.admitted <= |s.zset| then s.admitted else |s.zset|;
    var r := Rank(s.zset, u).value;
    assert Members(s.zset[..n])[r] == u;
  }

  /** While the cap holds, no more users were ever issued a token than are admitted. */
  lemma CappedBounds(s: Stores)
    requires Capped(s)
    ensures |s.issued| <= s.admitted
  {
    var n := if s.admitted <= |s.zset| then s.admitted else |s.zset|;
    forall u | u in s.issued ensures u in FirstMembers(s.zset, s.admitted) { EligibleIsAmongFirst(s, u); }
    SetOfSize(Members(s.zset[..n]));
    SubsetSizes(s.issued, FirstMembers(s.zset, s.admitted));
  }

  // ---------------------------------------------------------------- which step breaks it

  /** A script that is applied and adds a newcomer ahead of the token holder who stands last within the count. */
  predicate PushesOut(s: Stores, pc: Pc, act: Act, u: User) {
    && act.Script? && pc.Scripting? && !act.fate.NotApplied? && !Has(s.zset, pc.user)
    && u in s.issued && Position(s, u) == Some(s.admitted)
    && 1 <= s.admitted <= |s.zset| && Before(EntryOf(s, pc.user, act.scoring), s.zset[s.admitted - 1])
  }

  /** A SETNX that is applied and stores a token for a user who no longer is within the count. */
  predicate IssuesLate(s: Stores, pc: Pc, act: Act) {
    act.Issue? && pc.Minting? && !act.fate.NotApplied? && pc.user !in s.tokens && !Eligible(s, pc.user)
  }

  predicate Breaks(s: State, e: Event) {
    && e.Do? && e.who in s.calls
    && var pc := s.calls[e.who];
       IssuesLate(s.stores, pc, e.act) || exists u :: u in s.stores.issued && PushesOut(s.stores, pc, e.act, u)
  }

  lemma PositionAfterScript(s: Stores, v: User, scoring: Scoring, u: User)
    requires Valid(s.zset) && Position(s, u).Some? && !Has(s.zset, v)
    ensures var t := RunScript(s, v, scoring); var p := Position(s, u).value;
            && 1 <= p <= |s.zset|
            && Position(t, u) == Some(if Before(EntryOf(s, v, scoring), s.zset[p - 1]) then p + 1 else p)
            && t.issued == s.issued && t.admitted == s.admitted
  {
    RankAfterAdd(s.zset, Rank(s.zset, u).value, EntryOf(s, v, scoring));
  }

  lemma PushedOutIff(s: Stores, v: User, scoring: Scoring, u: User)
    requires Valid(s.zset) && Eligible(s, u) && u in s.issued && !Has(s.zset, v)
    ensures Eligible(RunScript(s, v, scoring), u) <==> !PushesOut(s, Scripting(v), Script(scoring, Done), u)
  {
    PositionAfterScript(s, v, scoring, u);
  }

  lemma ScriptBreaks(s: Stores, v: User, scoring: Scoring)
    requires Valid(s.zset) && Capped(s)
    ensures Capped(RunScript(s, v, scoring))
            <==> !exists u :: u in s.issued && PushesOut(s, Scripting(v), Script(scoring, Done), u)
  {
    var t := RunScript(s, v, scoring);
    assert t.issued == s.issued;
    if Has(s.zset, v) {
      SameCap(s, t);
    } else {
      forall u | u in s.issued
        ensures Eligible(t, u) <==> !PushesOut(s, Scripting(v), Script(scoring, Done), u)
      {
        PushedOutIff(s, v, scoring, u);
      }
    }
  }

  lemma IssueBreaks(s: Stores, u: User, own: Token)
    requires Capped(s)
    ensures Capped(StoreToken(s, u, own)) <==> u in s.tokens || Eligible(s, u)
  {
    var t := StoreToken(s, u, own);
    assert forall v :: Position(t, v) == Position(s, v);
    if u !in s.tokens { assert u in t.issued; }
  }

  /** Every other command leaves the queue, the count and the issued users alone. */
  lemma OthersKeepCap(s: Stores, pc: Pc, act: Act)
    requires !(act.Script? && pc.Scripting? && !act.fate.NotApplied?)
    requires !(act.Issue? && pc.Minting? && !act.fate.NotApplied?)
    ensures var t := Outcome(s, pc, act).0; t.zset == s.zset && t.admitted == s.admitted && t.issued == s.issued
  {}

  lemma SameCap(s: Stores, t: Stores)
    requires t.zset == s.zset && t.issued == s.issued && t.admitted >= s.admitted && Capped(s)
    ensures Capped(t)
  {
    forall u | u in t.issued ensures Eligible(t, u) { assert Eligible(s, u) && Position(t, u) == Position(s, u); }
  }

  lemma PushesOutWhatever(s: Stores, v: User, scoring: Scoring, f: Fate, u: User)
    requires !f.NotApplied?
    ensures PushesOut(s, Scripting(v), Script(scoring, f), u) <==> PushesOut(s, Scripting(v), Script(scoring, Done), u)
  {}

  lemma CommandBreaks(s: Stores, pc: Pc, act: Act)
    requires Valid(s.zset) && Capped(s)
    ensures Capped(Outcome(s, pc, act).0)
            <==> !IssuesLate(s, pc, act) && !exists u :: u in s.issued && PushesOut(s, pc, act, u)
  {
    if act.Script? && pc.Scripting? && !act.fate.NotApplied? {
      ScriptBreaks(s, pc.user, act.scoring);
      forall u { PushesOutWhatever(s, pc.user, act.scoring, act.fate, u); }
      assert Outcome(s, pc, act).0 == RunScript(s, pc.user, act.scoring);
    } else if act.Issue? && pc.Minting? && !act.fate.NotApplied? {
      IssueBreaks(s, pc.user, pc.own);
      assert Outcome(s, pc, act).0 == StoreToken(s, pc.user, pc.own);
    } else {
      OthersKeepCap(s, pc, act);
      SameCap(s, Outcome(s, pc, act).0);
    }
  }

  /** While the cap holds, a step that is no reset ends it exactly if it pushes a token holder out of the count,
      or issues a token to someone who has been. */
  lemma StepBreaks(s: State, e: Event)
    requires Valid(s.stores.zset) && Capped(s.stores) && !e.Reset?
    ensures Capped(Step(s, e).stores) <==> !Breaks(s, e)
  {
    if e.Do? && e.who in s.calls {
      CommandBreaks(s.stores, s.calls[e.who], e.act);
    } else {
      SameCap(s.stores, Step(s, e).stores);
    }
  }

  // ---------------------------------------------------------------- over runs

  /** The cap holds at every instant of the run. */
  predicate AlwaysCapped(es: seq<Event>) { forall k :: 0 <= k <= |es| ==> Capped(Run(Start(), es[..k]).stores) }

  predicate BreaksAt(es: seq<Event>, k: nat) { k < |es| && Breaks(Run(Start(), es[..k]), es[k]) }

  lemma AlwaysCappedSnoc(es: seq<Event>, e: Event)
    ensures AlwaysCapped(es + [e]) <==> AlwaysCapped(es) && Capped(Run(Start(), es + [e]).stores)
  {
    var fs := es + [e];
    assert fs[..|fs|] == fs;
    assert forall k :: 0 <= k <= |es| ==> fs[..k] == es[..k];
  }

  lemma BreaksAtSnoc(es: seq<Event>, e: Event)
    ensures (exists k: nat :: BreaksAt(es + [e], k))
            <==> (exists k: nat :: BreaksAt(es, k)) || Breaks(Run(Start(), es), e)
  {
    var fs := es + [e];
    assert fs[..|es|] == es;
    forall k: nat | k < |es| ensures BreaksAt(fs, k) <==> BreaksAt(es, k) { assert fs[..k] == es[..k]; }
    if k: nat :| BreaksAt(fs, k) { assert k == |es| || BreaksAt(es, k); }
    if k: nat :| BreaksAt(es, k) { assert BreaksAt(fs, k); }
    if Breaks(Run(Start(), es), e) { assert BreaksAt(fs, |es|); }
  }

  lemma OneMoreCapped(es: seq<Event>, e: Event)
    requires Capped(Run(Start(), es).stores) && !e.Reset?
    ensures Capped(Run(Start(), es + [e]).stores) <==> !Breaks(Run(Start(), es), e)
  {
    RunKeepsOrder(Start(), es);
    StepBreaks(Run(Start(), es), e);
    RunSnoc(Start(), es, e);
  }

  lemma CappedNow(es: seq<Event>)
    requires AlwaysCapped(es)
    ensures Capped(Run(Start(), es).stores)
  {
    assert es[..|es|] == es;
  }

  /** Exactly when the cap holds throughout a reset-free run, under either strategy and any mix of the two: when
      no step pushes a token holder out of the count or issues a token to someone who has been. */
  lemma {:induction false} CapHoldsIff(es: seq<Event>)
    requires ResetFree(es)
    ensures AlwaysCapped(es) <==> !exists k: nat :: BreaksAt(es, k)
    decreases |es|
  {
    if es != [] {
      var before, e := es[..|es| - 1], es[|es| - 1];
      CapHoldsIff(before);
      assert es == before + [e];
      AlwaysCappedSnoc(before, e);
      BreaksAtSnoc(before, e);
      if AlwaysCapped(before) {
        CappedNow(before);
        OneMoreCapped(before, e);
      }
    }
  }

  // ---------------------------------------------------------------- a condition on the joins alone

  /** No script of the run inserts anybody ahead of anybody. */
  predicate AppendsOnly(es: seq<Event>) {
    forall k :: 0 <= k < |es| ==> Run(Start(), es[..k]).stores.zset <= Run(Start(), es[..k + 1]).stores.zset
  }

  lemma {:induction false} AppendsFrom(es: seq<Event>, k: nat)
    requires AppendsOnly(es) && k <= |es|
    ensures Run(Start(), es[..k]).stores.zset <= Run(Start(), es).stores.zset
    decreases |es| - k
  {
    if k == |es| {
      assert es[..k] == es;
    } else {
      AppendsFrom(es, k + 1);
    }
  }

  /** The cap can only fail when some script inserts a newcomer ahead of someone: without one, everyone ever issued
      a token is within the count, whatever the strategy. */
  lemma CapUnlessOvertaken(es: seq<Event>)
    requires ResetFree(es) && AppendsOnly(es)
    ensures var s := Run(Start(), es).stores; Capped(s) && |s.issued| <= s.admitted
  {
    var t := Run(Start(), es).stores;
    RunReached(es);
    RunKeepsOrder(Start(), es);
    forall u | u in t.issued ensures Eligible(t, u) {
      var k: nat :| ReachedAt(es, k, u, t.admitted);
      AppendsFrom(es, k);
      RankIs(t.zset, Rank(Run(Start(), es[..k]).stores.zset, u).value);
    }
    CappedBounds(t);
  }
}
