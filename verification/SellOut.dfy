/** How many of equal requests are accepted when nothing fails: exactly as many as the stock holds. */
module SellOut {
  import opened Domain
  import opened Totals
  import opened Inventory
  import opened InventoryLaws

  /** No fault, no failed publish, no reset, and every request asks for `q` units. */
  predicate Smooth(e: Event, q: int) {
    match e
    case Arrive(o) => o.quantity == q
    case Do(_, act) => FaultFreeAct(act)
    case Reset(_) => false
  }

  predicate Loser(pc: Pc) { pc.Losing? || pc.SoldOut? }

  predicate SmoothPc(pc: Pc) {
    !(pc.Rolling? || pc.Errored? || pc.Leaked? || pc.Credited? || pc.Orphaned?)
  }

  ghost function Won(s: State): int { Holds(s) + SentUnits(s) }

  ghost predicate Orderly(s: State, stock: int, q: int) {
    && Inv(s)
    && Ledger(s) == stock
    && (forall c :: c in s.requests ==> s.requests[c].order.quantity == q && SmoothPc(s.requests[c].pc))
    // once anyone has been turned away, what is left does not make another sale
    && (forall c :: c in s.requests && Loser(s.requests[c].pc) ==> stock - Won(s) < q)
  }

  lemma NothingLost(s: State)
    requires forall c :: c in s.requests ==> SmoothPc(s.requests[c].pc)
    ensures Leaks(s) == 0 && Credits(s) == 0
    ensures (forall c :: c in s.requests ==> !Loser(s.requests[c].pc)) ==> Debts(s) == 0
  {
    TotalZero(s.requests, LeakOf);
    TotalZero(s.requests, CreditOf);
    if forall c :: c in s.requests ==> !Loser(s.requests[c].pc) {
      TotalZero(s.requests, DebtOf);
    }
  }

  /** What one fault-free step of a request does to what is won and who is turned away. */
  lemma SmoothOutcome(value: int, version: nat, o: Order, pc: Pc, act: Act)
    requires FaultFreeAct(act) && SmoothPc(pc) && o.quantity >= 1
    ensures var e := Outcome(value, version, o.quantity, pc, act);
            && SmoothPc(e.pc)
            && HoldOf(Request(o, e.pc)) + (if e.send then o.quantity else 0) >= HoldOf(Request(o, pc))
            && (Loser(e.pc) && !Loser(pc) ==> value < o.quantity && e.pc != pc && !e.send
                                               && HoldOf(Request(o, pc)) == 0 == HoldOf(Request(o, e.pc)))
  {}

  lemma SmoothStep(s: State, e: Event, stock: int, q: int)
    requires Orderly(s, stock, q) && Smooth(e, q)
    ensures Orderly(Step(s, e), stock, q)
  {
    StepKeepsInv(s, e);
    StepConserves(s, e);
    NothingLost(s);
    match e
    case Arrive(o) => if o.id !in s.requests { ArriveTotals(s, o); }
    case Do(c, act) =>
      if c in s.requests {
        var r := s.requests[c];
        var f := EffectOf(s, c, act);
        assert RequestOk(s, c);
        SmoothOutcome(s.Value(), s.version, r.order, r.pc, act);
        OutcomeBalances(s.Value(), s.version, r.order, r.pc, act);
        ApplyTotals(s, c, f);
        SmoothLosers(s, c, act, stock, q);
      }
    case Reset(n) =>
  }

  lemma SmoothLosers(s: State, c: OrderId, act: Act, stock: int, q: int)
    requires Orderly(s, stock, q) && FaultFreeAct(act) && c in s.requests
    requires Won(Apply(s, c, EffectOf(s, c, act))) >= Won(s)
    ensures var t := Apply(s, c, EffectOf(s, c, act));
            forall k :: k in t.requests && Loser(t.requests[k].pc) ==> stock - Won(t) < q
  {
    var r := s.requests[c];
    var f := EffectOf(s, c, act);
    var t := Apply(s, c, f);
    NothingLost(s);
    SmoothOutcome(s.Value(), s.version, r.order, r.pc, act);
    assert RequestOk(s, c);
    if k :| k in s.requests && Loser(s.requests[k].pc) {
      assert stock - Won(s) < q;
    } else if Loser(f.pc) {
      assert s.Value() == stock - Won(s) < q;
    }
  }

  lemma {:induction false} SmoothRun(stock: nat, es: seq<Event>, q: int)
    requires forall i :: 0 <= i < |es| ==> Smooth(es[i], q)
    ensures Orderly(Run(Start(stock), es), stock, q)
    decreases |es|
  {
    if es == [] {
      StartInv(stock);
    } else {
      SmoothRun(stock, es[..|es| - 1], q);
      SmoothStep(Run(Start(stock), es[..|es| - 1]), es[|es| - 1], stock, q);
    }
  }

  // ---------------------------------------------------------------- who is turned away

  /** Somebody turned away had asked for more than `n` units. */
  predicate AskedForMore(s: State, n: int) {
    exists k :: k in s.requests && Loser(s.requests[k].pc) && s.requests[k].order.quantity > n
  }

  /** Whenever anybody has been turned away, somebody has who asked for more than there now is. */
  ghost predicate Blamed(s: State) {
    && Inv(s)
    && (forall c :: c in s.requests ==> SmoothPc(s.requests[c].pc))
    && ((exists c :: c in s.requests && Loser(s.requests[c].pc)) ==> AskedForMore(s, TrueStock(s)))
  }

  /** Without faults the true stock only falls, and whoever loses stays a loser. */
  lemma TrueStockFalls(value: int, version: nat, o: Order, pc: Pc, act: Act)
    requires FaultFreeAct(act) && SmoothPc(pc) && o.quantity >= 1
    ensures var e := Outcome(value, version, o.quantity, pc, act);
            && e.delta + DebtOf(Request(o, e.pc)) - DebtOf(Request(o, pc)) <= 0
            && (Loser(pc) ==> Loser(e.pc))
  {}

  lemma StepLowersStock(s: State, c: OrderId, act: Act)
    requires Inv(s) && FaultFreeAct(act) && c in s.requests && SmoothPc(s.requests[c].pc)
    ensures TrueStock(Apply(s, c, EffectOf(s, c, act))) <= TrueStock(s)
  {
    var r := s.requests[c];
    assert RequestOk(s, c);
    TrueStockFalls(s.Value(), s.version, r.order, r.pc, act);
    OutcomeBalances(s.Value(), s.version, r.order, r.pc, act);
    ApplyTotals(s, c, EffectOf(s, c, act));
  }

  lemma ArrivalKeepsBlame(s: State, o: Order)
    requires Blamed(s)
    ensures Blamed(Step(s, Arrive(o)))
  {
    StepKeepsInv(s, Arrive(o));
    if o.id !in s.requests {
      var t := Step(s, Arrive(o));
      ArriveTotals(s, o);
      if k :| k in s.requests && Loser(s.requests[k].pc) && s.requests[k].order.quantity > TrueStock(s) {
        assert t.requests[k] == s.requests[k] && TrueStock(t) == TrueStock(s);
      }
    }
  }

  lemma ActKeepsBlame(s: State, c: OrderId, act: Act)
    requires Blamed(s) && FaultFreeAct(act) && c in s.requests
    ensures Blamed(Step(s, Do(c, act)))
  {
    var r := s.requests[c];
    StepKeepsInv(s, Do(c, act));
    assert RequestOk(s, c);
    SmoothOutcome(s.Value(), s.version, r.order, r.pc, act);
    StepLowersStock(s, c, act);
    LosersAreBlamed(s, c, act);
  }

  lemma StepKeepsBlame(s: State, e: Event)
    requires Blamed(s) && FaultFree(e)
    ensures Blamed(Step(s, e))
  {
    match e
    case Arrive(o) => ArrivalKeepsBlame(s, o);
    case Do(c, act) => if c in s.requests { ActKeepsBlame(s, c, act); }
    case Reset(_) =>
  }

  lemma LosersAreBlamed(s: State, c: OrderId, act: Act)
    requires Blamed(s) && FaultFreeAct(act) && c in s.requests
    requires TrueStock(Apply(s, c, EffectOf(s, c, act))) <= TrueStock(s)
    ensures var t := Apply(s, c, EffectOf(s, c, act));
            (exists k :: k in t.requests && Loser(t.requests[k].pc)) ==> AskedForMore(t, TrueStock(t))
  {
    var r := s.requests[c];
    var t := Apply(s, c, EffectOf(s, c, act));
    NothingLost(s);
    assert RequestOk(s, c);
    SmoothOutcome(s.Value(), s.version, r.order, r.pc, act);
    TrueStockFalls(s.Value(), s.version, r.order, r.pc, act);
    if k :| k in s.requests && Loser(s.requests[k].pc) && s.requests[k].order.quantity > TrueStock(s) {
      assert k in t.requests && Loser(t.requests[k].pc) && t.requests[k].order == s.requests[k].order;
    } else if Loser(EffectOf(s, c, act).pc) {
      assert t.requests[c].order.quantity > s.Value() == TrueStock(s);
    }
  }

  lemma {:induction false} RunKeepsBlame(stock: nat, es: seq<Event>)
    requires AllFaultFree(es)
    ensures Blamed(Run(Start(stock), es))
    decreases |es|
  {
    if es == [] {
      StartInv(stock);
    } else {
      RunKeepsBlame(stock, es[..|es| - 1]);
      StepKeepsBlame(Run(Start(stock), es[..|es| - 1]), es[|es| - 1]);
    }
  }

  /** Without faults, a request refused although the stock would serve it owes that to someone who asked for
      more than there is and was turned away before. */
  lemma SpuriousMeansLargerLoser(stock: nat, es: seq<Event>, c: OrderId, act: Act)
    requires AllFaultFree(es) && Decides(Run(Start(stock), es), c, act)
    ensures var s := Run(Start(stock), es);
            TurnedAway(s, c, act) && TrueStock(s) >= s.requests[c].order.quantity ==> AskedForMore(s, TrueStock(s))
  {
    RunKeepsBlame(stock, es);
    RejectionBound(stock, es, c, act);
  }

  /** So a rejection is exact for whoever asks for no less than everyone before: without faults, and whatever
      the strategies, it is turned away exactly when the true stock is short of its quantity. In particular
      for requests of one quantity. */
  lemma RejectionIsExact(stock: nat, es: seq<Event>, c: OrderId, act: Act)
    requires AllFaultFree(es)
    requires var s := Run(Start(stock), es);
             && Decides(s, c, act)
             && (forall k :: k in s.requests ==> s.requests[k].order.quantity <= s.requests[c].order.quantity)
    ensures var s := Run(Start(stock), es);
            TurnedAway(s, c, act) <==> TrueStock(s) < s.requests[c].order.quantity
  {
    SpuriousMeansLargerLoser(stock, es, c, act);
    RejectionBound(stock, es, c, act);
  }

  predicate WithoutDecr(es: seq<Event>) { forall i :: 0 <= i < |es| && es[i].Do? ==> !es[i].act.Decr? }

  lemma {:induction false} NobodyLoses(stock: nat, es: seq<Event>)
    requires WithoutDecr(es)
    ensures forall c :: c in Run(Start(stock), es).requests ==> !Run(Start(stock), es).requests[c].pc.Losing?
    decreases |es|
  {
    if es != [] { NobodyLoses(stock, es[..|es| - 1]); }
  }

  /** And it is exact for everyone, of any quantity and under any faults, as long as the DECRBY strategy is not
      used. */
  lemma RejectionIsExactWithoutDecr(stock: nat, es: seq<Event>, c: OrderId, act: Act)
    requires SaneResets(es) && WithoutDecr(es) && Decides(Run(Start(stock), es), c, act)
    ensures var s := Run(Start(stock), es);
            TurnedAway(s, c, act) <==> TrueStock(s) < s.requests[c].order.quantity
  {
    NobodyLoses(stock, es);
    RejectionBound(stock, es, c, act);
  }

  // ---------------------------------------------------------------- counting the answers

  function IsAccepted(r: Request): int { if r.pc.Accepted? then 1 else 0 }
  function IsSoldOut(r: Request): int { if r.pc.SoldOut? then 1 else 0 }
  function IsContended(r: Request): int { if r.pc.Contention? then 1 else 0 }
  function IsTurnedAway(r: Request): int { IsSoldOut(r) + IsContended(r) }

  predicate Answered(s: State) {
    forall c :: c in s.requests ==> var pc := s.requests[c].pc; pc.Accepted? || pc.SoldOut? || pc.Contention?
  }

  function Min(a: int, b: int): int { if a <= b then a else b }

  lemma CountAnswers(s: State)
    requires Answered(s)
    ensures Total(s.requests, IsAccepted) + Total(s.requests, IsSoldOut) + Total(s.requests, IsContended)
            == |s.requests|
    ensures Total(s.requests, IsSoldOut) >= 0
    ensures Total(s.requests, IsSoldOut) > 0 ==> exists c :: c in s.requests && Loser(s.requests[c].pc)
  {
    TotalPlus(s.requests, IsSoldOut, IsContended, IsTurnedAway);
    TotalPlus(s.requests, IsAccepted, IsTurnedAway, One);
    TotalOne(s.requests);
    TotalNonNegative(s.requests, IsSoldOut);
    if forall c :: c in s.requests ==> !s.requests[c].pc.SoldOut? {
      TotalZero(s.requests, IsSoldOut);
    }
  }

  lemma NothingOwed(s: State)
    requires Answered(s)
    ensures Debts(s) == 0 && Holds(s) == 0 && Leaks(s) == 0 && Credits(s) == 0 && Total(s.requests, OutUnpaidOf) == 0
  {
    TotalZero(s.requests, DebtOf);
    TotalZero(s.requests, HoldOf);
    TotalZero(s.requests, LeakOf);
    TotalZero(s.requests, CreditOf);
    TotalZero(s.requests, OutUnpaidOf);
  }

  lemma WonWhenAnswered(s: State, q: int)
    requires Inv(s) && Answered(s) && forall c :: c in s.requests ==> s.requests[c].order.quantity == q
    ensures Debts(s) == 0 && Holds(s) == 0 && Leaks(s) == 0 && Credits(s) == 0
    ensures SentUnits(s) == q * Total(s.requests, IsAccepted)
  {
    NothingOwed(s);
    SentByOutcome(s);
    TotalScaled(s.requests, AcceptedOf, IsAccepted, q);
  }

  lemma TimesMonotone(q: int, x: int, y: int)
    requires q >= 1 && x <= y
    ensures q * x <= q * y
  {}

  lemma DivisionBy(stock: nat, q: int, a: int)
    requires q >= 1 && q * a <= stock
    ensures a <= stock / q
    ensures stock - q * a < q ==> a == stock / q
  {
    var d := stock / q;
    assert stock == q * d + stock % q;
    if d + 1 <= a { TimesMonotone(q, d + 1, a); }
    if a + 1 <= d { TimesMonotone(q, a + 1, d); }
  }

  lemma MinOf(stock: nat, q: int, accepted: int, soldOut: int, eligible: int)
    requires q >= 1 && q * accepted <= stock && soldOut >= 0 && accepted + soldOut == eligible
    requires soldOut > 0 ==> stock - q * accepted < q
    ensures accepted == Min(eligible, stock / q)
  {
    DivisionBy(stock, q, accepted);
  }

  lemma AnswersAddUp(s: State, stock: nat, q: int)
    requires Orderly(s, stock, q) && Answered(s)
    ensures q * Total(s.requests, IsAccepted) <= stock
    ensures Total(s.requests, IsSoldOut) > 0 ==> stock - q * Total(s.requests, IsAccepted) < q
  {
    CountAnswers(s);
    WonWhenAnswered(s, q);
  }

  lemma SellOutOf(s: State, stock: nat, q: int)
    requires q >= 1 && Orderly(s, stock, q) && Answered(s)
    ensures Total(s.requests, IsAccepted) == Min(|s.requests| - Total(s.requests, IsContended), stock / q)
  {
    CountAnswers(s);
    AnswersAddUp(s, stock, q);
    MinOf(stock, q, Total(s.requests, IsAccepted), Total(s.requests, IsSoldOut),
          |s.requests| - Total(s.requests, IsContended));
  }

  /** Exact sell-out, under any mix of the three strategies and any interleaving: of the requests that
      did not give up on contention, exactly stock/q are accepted, or all of them if there are fewer. */
  lemma ExactSellOut(stock: nat, es: seq<Event>, q: int)
    requires q >= 1
    requires forall i :: 0 <= i < |es| ==> Smooth(es[i], q)
    requires Answered(Run(Start(stock), es))
    ensures var s := Run(Start(stock), es);
            Total(s.requests, IsAccepted) == Min(|s.requests| - Total(s.requests, IsContended), stock / q)
  {
    SmoothRun(stock, es, q);
    SellOutOf(Run(Start(stock), es), stock, q);
  }
}
