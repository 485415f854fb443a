/** Which stored orders the confirmed metric misses for good, and which events make it miss them. */
module ConfirmedMetric {
  import opened Domain
  import opened OrderWorker
  import opened OrderWorkerLaws

  /** Stored, not confirmed, and no worker is on the way to confirming it. */
  ghost predicate Missed(s: State, id: OrderId) {
    id in s.stores.table && id !in s.stores.confirmed && forall w :: !Claims(s.PcOf(w), id)
  }

  /** The event takes from the worker that inserted the order its knowledge of having done so: the reply of the
      insert is lost, the counter update does not succeed, so that the retry finds the order present, or the
      worker is gone. */
  predicate Loses(s: State, e: Event, id: OrderId) {
    e.Do? && var pc := s.PcOf(e.who);
             || (pc.Saving? && pc.order.id == id && id !in s.stores.table && e.act == Put(ReplyLost))
             || (Claims(pc, id) && (e.act.Drop? || (pc.Stored? && e.act.Update? && !e.act.fate.Done?)))
  }

  /** A claim ends with the order confirmed, or lost. */
  lemma ClaimEnds(s: State, e: Event, id: OrderId)
    requires e.Do? && Claims(s.PcOf(e.who), id) && !Claims(Step(s, e).PcOf(e.who), id)
    ensures Loses(s, e, id) || id in Step(s, e).stores.confirmed
  {}

  /** An order becomes stored with a claim on it, unless its insert's reply is lost. */
  lemma InsertClaims(s: State, e: Event, id: OrderId)
    requires Inv(s) && id !in s.stores.table && id in Step(s, e).stores.table
    ensures e.Do? && (Claims(Step(s, e).PcOf(e.who), id) || Loses(s, e, id))
  {
    assert PcOk(s.stores, s.PcOf(e.who));
  }

  lemma LostIsMissed(s: State, e: Event, id: OrderId)
    requires Inv(s) && Loses(s, e, id)
    ensures Missed(Step(s, e), id)
  {
    var t := Step(s, e);
    StepKeepsInv(s, e);
    StepConfirms(s, e);
    forall w ensures !Claims(t.PcOf(w), id) {
      if Claims(t.PcOf(w), id) { StepClaims(s, e, w, id); }
    }
  }

  lemma MissedStays(s: State, e: Event, id: OrderId)
    requires Inv(s) && Missed(s, id)
    ensures Missed(Step(s, e), id)
  {
    var t := Step(s, e);
    StepKeepsInv(s, e);
    StepConfirms(s, e);
    forall w ensures !Claims(t.PcOf(w), id) {
      if Claims(t.PcOf(w), id) { StepClaims(s, e, w, id); }
    }
  }

  lemma MissedIsNew(s: State, e: Event, id: OrderId)
    requires Inv(s) && !Missed(s, id) && Missed(Step(s, e), id)
    ensures Loses(s, e, id)
  {
    var t := Step(s, e);
    StepKeepsInv(s, e);
    if id !in s.stores.table {
      InsertClaims(s, e, id);
    } else {
      if id in s.stores.confirmed { ConfirmedKept(s, e, id); }
      var w :| Claims(s.PcOf(w), id);
      assert !Claims(t.PcOf(w), id);
      assert e.Do? && e.who == w;
      ClaimEnds(s, e, id);
    }
  }

  lemma ConfirmedKept(s: State, e: Event, id: OrderId)
    requires id in s.stores.confirmed
    ensures id in Step(s, e).stores.confirmed
  {}

  lemma StepMisses(s: State, e: Event, id: OrderId)
    requires Inv(s)
    ensures Missed(Step(s, e), id) <==> Missed(s, id) || Loses(s, e, id)
  {
    if Missed(s, id) {
      MissedStays(s, e, id);
    } else if Loses(s, e, id) {
      LostIsMissed(s, e, id);
    } else if Missed(Step(s, e), id) {
      MissedIsNew(s, e, id);
    }
  }

  predicate LosesAt(es: seq<Event>, k: nat, id: OrderId) { k < |es| && Loses(Run(Start(), es[..k]), es[k], id) }

  lemma LosesBefore(es: seq<Event>, e: Event, k: nat, id: OrderId)
    requires k < |es|
    ensures LosesAt(es + [e], k, id) <==> LosesAt(es, k, id)
  {
    assert (es + [e])[..k] == es[..k];
  }

  lemma LosesNow(es: seq<Event>, e: Event, id: OrderId)
    ensures LosesAt(es + [e], |es|, id) <==> Loses(Run(Start(), es), e, id)
  {
    assert (es + [e])[..|es|] == es;
  }

  lemma LosesGrows(es: seq<Event>, e: Event, id: OrderId)
    ensures (exists k: nat :: LosesAt(es + [e], k, id))
            <==> (exists k: nat :: LosesAt(es, k, id)) || Loses(Run(Start(), es), e, id)
  {
    LosesNow(es, e, id);
    forall k: nat | k < |es| ensures LosesAt(es + [e], k, id) <==> LosesAt(es, k, id) { LosesBefore(es, e, k, id); }
    if k: nat :| LosesAt(es + [e], k, id) { assert k == |es| || LosesAt(es, k, id); }
    if k: nat :| LosesAt(es, k, id) { assert LosesAt(es + [e], k, id); }
    if Loses(Run(Start(), es), e, id) { assert LosesAt(es + [e], |es|, id); }
  }

  lemma OneMoreMisses(es: seq<Event>, e: Event, id: OrderId)
    ensures Missed(Run(Start(), es + [e]), id) <==> Missed(Run(Start(), es), id) || Loses(Run(Start(), es), e, id)
  {
    StartInv();
    RunKeepsInv(Start(), es);
    RunSnoc(Start(), es, e);
    StepMisses(Run(Start(), es), e, id);
  }

  lemma {:induction false} RunMisses(es: seq<Event>, id: OrderId)
    ensures Missed(Run(Start(), es), id) <==> exists k: nat :: LosesAt(es, k, id)
    decreases |es|
  {
    if es != [] {
      var before, e := es[..|es| - 1], es[|es| - 1];
      RunMisses(before, id);
      OneMoreMisses(before, e, id);
      LosesGrows(before, e, id);
      assert es == before + [e];
    }
  }

  lemma {:induction false} MissedForever(s: State, id: OrderId, es: seq<Event>)
    requires Inv(s) && Missed(s, id)
    ensures Inv(Run(s, es)) && Missed(Run(s, es), id)
    decreases |es|
  {
    if es != [] {
      MissedForever(s, id, es[..|es| - 1]);
      StepKeepsInv(Run(s, es[..|es| - 1]), es[|es| - 1]);
      MissedStays(Run(s, es[..|es| - 1]), es[|es| - 1], id);
    }
  }

  /** Whoever claims an order can go on and confirm it. */
  lemma ClaimCanConfirm(s: State, w: WorkerId, id: OrderId) returns (es: seq<Event>)
    requires Claims(s.PcOf(w), id)
    ensures id in Run(s, es).stores.confirmed
  {
    var pc := s.PcOf(w);
    if pc.Saved? {
      es := [Do(w, Count)];
      RunCons(s, es[0], []);
      assert es == [es[0]] + [];
    } else {
      es := [Do(w, Update(Done)), Do(w, Count)];
      assert es == [es[0]] + ([es[1]] + []);
      RunCons(s, es[0], [es[1]] + []);
      var t := Step(s, es[0]);
      assert t.PcOf(w) == Saved(pc.order, true);
      RunCons(t, es[1], []);
    }
  }

  ghost predicate NeverConfirmed(s: State, id: OrderId) { forall es :: id !in Run(s, es).stores.confirmed }

  lemma MissedIffNeverConfirmed(s: State, id: OrderId)
    requires Inv(s) && id in s.stores.table
    ensures NeverConfirmed(s, id) <==> Missed(s, id)
  {
    if Missed(s, id) {
      forall es ensures id !in Run(s, es).stores.confirmed { MissedForever(s, id, es); }
    } else if id in s.stores.confirmed {
      var now: seq<Event> := [];
      assert Run(s, now) == s;
    } else {
      var w :| Claims(s.PcOf(w), id);
      var es := ClaimCanConfirm(s, w, id);
    }
  }

  /** The confirmed metric misses a stored order for good exactly when, at some step of the run, its insert's
      reply was lost, or the worker that had inserted it failed to update the counter or stopped before it
      bumped the metric. */
  lemma NeverConfirmedIff(es: seq<Event>, id: OrderId)
    requires id in Run(Start(), es).stores.table
    ensures NeverConfirmed(Run(Start(), es), id) <==> exists k: nat :: LosesAt(es, k, id)
  {
    StartInv();
    RunKeepsInv(Start(), es);
    RunMisses(es, id);
    MissedIffNeverConfirmed(Run(Start(), es), id);
  }
}
