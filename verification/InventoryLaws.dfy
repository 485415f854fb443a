/** What holds of every interleaving of purchase requests: conservation, no oversell, true remainders. */
module InventoryLaws {
  import opened Domain
  import opened Totals
  import opened Inventory

  predicate NoReset(es: seq<Event>) { forall i :: 0 <= i < |es| ==> !es[i].Reset? }

  /** Resets, if any, are to a count that is not negative. */
  predicate SaneResets(es: seq<Event>) { forall i :: 0 <= i < |es| && es[i].Reset? ==> es[i].count >= 0 }

  predicate FaultFreeAct(act: Act) {
    match act
    case Decr(f) => f.Done?
    case Compensate(f) => f.Done?
    case Lua(f) => f.Done?
    case Watch(ok) => ok
    case Get(ok) => ok
    case Exec(f) => f.Done?
    case GiveUp => true
    case Refuse => false
    case Publish(f) => f.Done?
    case Rollback(f) => f.Done?
  }

  /** A step in which nothing fails and nobody resets the counter. */
  predicate FaultFree(e: Event) { !e.Reset? && (e.Do? ==> FaultFreeAct(e.act)) }

  predicate AllFaultFree(es: seq<Event>) { forall i :: 0 <= i < |es| ==> FaultFree(es[i]) }

  lemma {:induction false} RunKeepsInv(s: State, es: seq<Event>)
    requires Inv(s) && SaneResets(es)
    ensures Inv(Run(s, es))
    decreases |es|
  {
    if es != [] {
      RunKeepsInv(s, es[..|es| - 1]);
      StepKeepsInv(Run(s, es[..|es| - 1]), es[|es| - 1]);
    }
  }

  lemma {:induction false} RunConserves(s: State, es: seq<Event>)
    requires Inv(s) && NoReset(es)
    ensures Inv(Run(s, es)) && Ledger(Run(s, es)) == Ledger(s)
    decreases |es|
  {
    RunKeepsInv(s, es);
    if es != [] {
      RunConserves(s, es[..|es| - 1]);
      StepConserves(Run(s, es[..|es| - 1]), es[|es| - 1]);
    }
  }

  lemma StartInv(stock: int)
    requires stock >= 0
    ensures Inv(Start(stock)) && Ledger(Start(stock)) == stock
  {}

  /** Conservation: at every point of every interleaving the stock is accounted for, unit by unit. */
  lemma Conservation(stock: nat, es: seq<Event>)
    requires NoReset(es)
    ensures var s := Run(Start(stock), es);
            s.Value() + Debts(s) + Holds(s) + SentUnits(s) + Leaks(s) == stock + Credits(s)
  {
    StartInv(stock);
    RunConserves(Start(stock), es);
  }

  /** After a reset to `n` the books balance to `n` plus all that was owed, reserved, sent or leaked at the reset,
      less what was credited. */
  lemma ResetLaw(stock: nat, before: seq<Event>, n: nat, es: seq<Event>)
    requires SaneResets(before) && NoReset(es)
    ensures var s := Run(Start(stock), before); var t := Run(Step(s, Reset(n)), es);
            Ledger(t) == n + Debts(s) + Holds(s) + SentUnits(s) + Leaks(s) - Credits(s)
  {
    StartInv(stock);
    RunKeepsInv(Start(stock), before);
    var s := Run(Start(stock), before);
    StepKeepsInv(s, Reset(n));
    RunConserves(Step(s, Reset(n)), es);
  }

  /** Nobody moves but losers giving back what they took. */
  predicate OnlyCompensates(es: seq<Event>) {
    forall i :: 0 <= i < |es| ==> es[i].Do? && es[i].act.Compensate? && !es[i].act.fate.NotApplied?
  }

  lemma {:induction false} CompensatingMovesOnlyDebts(s: State, es: seq<Event>)
    requires Inv(s) && OnlyCompensates(es)
    ensures var t := Run(s, es); Inv(t) && t.Value() + Debts(t) == s.Value() + Debts(s)
    decreases |es|
  {
    if es != [] {
      var before, e := es[..|es| - 1], es[|es| - 1];
      CompensatingMovesOnlyDebts(s, before);
      var t := Run(s, before);
      StepKeepsInv(t, e);
      if e.who in t.requests { ApplyTotals(t, e.who, EffectOf(t, e.who, e.act)); }
    }
  }

  /** So a reset with debts pending leaves the counter at `n` plus those debts once they are compensated. */
  lemma ResetWithDebtsPending(stock: nat, before: seq<Event>, n: nat, es: seq<Event>)
    requires SaneResets(before) && OnlyCompensates(es)
    requires Debts(Run(Step(Run(Start(stock), before), Reset(n)), es)) == 0
    ensures var s := Run(Start(stock), before); Run(Step(s, Reset(n)), es).Value() == n + Debts(s)
  {
    StartInv(stock);
    RunKeepsInv(Start(stock), before);
    var s := Run(Start(stock), before);
    StepKeepsInv(s, Reset(n));
    CompensatingMovesOnlyDebts(Step(s, Reset(n)), es);
  }

  // ---------------------------------------------------------------- no oversell

  function AcceptedOf(r: Request): int { if r.pc.Accepted? then r.order.quantity else 0 }
  function OutUnpaidOf(r: Request): int {
    if r.pc.Orphaned? || (r.pc.Rolling? && r.pc.enqueued) then r.order.quantity else 0
  }
  function OutOf(r: Request): int { if Out(r.pc) then r.order.quantity else 0 }
  function AcceptedOrUnpaid(r: Request): int { AcceptedOf(r) + OutUnpaidOf(r) }

  ghost function AcceptedUnits(s: State): int { Total(s.requests, AcceptedOf) }

  lemma SentIsOut(s: State)
    requires Inv(s)
    ensures SentUnits(s) == Total(s.requests, OutOf)
  {
    forall c | c in s.requests ensures OutOf(s.requests[c]) == if c in s.sent then Units(s.sent[c]) else 0 {
      assert RequestOk(s, c);
    }
    TotalSubset(s.sent, Units, s.requests, OutOf);
  }

  lemma SentIsPart(s: State)
    requires Inv(s)
    ensures SentUnits(s) == AcceptedUnits(s) + Total(s.requests, OutUnpaidOf) + Credits(s)
  {
    SentIsOut(s);
    TotalPlus(s.requests, AcceptedOf, OutUnpaidOf, AcceptedOrUnpaid);
    TotalPlus(s.requests, AcceptedOrUnpaid, CreditOf, OutOf);
  }

  /** The orders that reached SQS are the accepted ones and those whose publish reported an error. */
  lemma SentByOutcome(s: State)
    requires Inv(s)
    ensures SentUnits(s) == AcceptedUnits(s) + Total(s.requests, OutUnpaidOf) + Credits(s)
    ensures AcceptedUnits(s) >= 0 && Total(s.requests, OutUnpaidOf) >= 0
  {
    SentIsPart(s);
    assert forall c :: c in s.requests ==> RequestOk(s, c);
    TotalNonNegative(s.requests, AcceptedOf);
    TotalNonNegative(s.requests, OutUnpaidOf);
  }

  /** No oversell, whatever the mix of strategies and faults: buyers told "accepted" never hold more
      than the stock; the orders sent exceed it by no more than what was credited by mistake; and
      every success reports a remainder that is not negative. */
  lemma NoOversell(stock: nat, es: seq<Event>)
    requires NoReset(es)
    ensures var s := Run(Start(stock), es);
            && AcceptedUnits(s) <= stock
            && SentUnits(s) + Holds(s) <= stock + Credits(s)
            && s.Value() + Debts(s) + Leaks(s) >= 0
            && (forall c :: c in s.requests && (s.requests[c].pc.Held? || s.requests[c].pc.Accepted?)
                            ==> s.requests[c].pc.remaining >= 0)
  {
    var s := Run(Start(stock), es);
    StartInv(stock);
    RunConserves(Start(stock), es);
    assert forall c :: c in s.requests ==> RequestOk(s, c);
    DebtsAndLeaksNonNegative(s);
    SentByOutcome(s);
  }

  /** One unit is reserved, its publish reports an error although the order is out, and it is given back. */
  lemma CreditedOnce(one: Order) returns (es: seq<Event>)
    requires one.id == 1 && one.quantity == 1
    ensures NoReset(es)
    ensures Run(Start(1), es) == State(Some(1), 2, map[1 := Request(one, Credited)], map[1 := one])
  {
    var s0 := Start(1);
    es := [Arrive(one), Do(1, Decr(Done)), Do(1, Publish(ReplyLost)), Do(1, Rollback(Done))];
    RunPrefix(s0, es, 0, s0);
    RunPrefix(s0, es, 1, State(Some(1), 0, map[1 := Request(one, Idle)], map[]));
    RunPrefix(s0, es, 2, State(Some(0), 1, map[1 := Request(one, Held(0))], map[]));
    RunPrefix(s0, es, 3, State(Some(0), 1, map[1 := Request(one, Rolling(true))], map[1 := one]));
    assert es[..4] == es;
  }

  /** A second buyer takes the unit that was given back. */
  lemma SoldAgain(s: State, two: Order) returns (es: seq<Event>)
    requires two.id !in s.requests && two.quantity == 1 && s.Value() == 1
    ensures NoReset(es) && Run(s, es).sent == s.sent[two.id := two]
  {
    es := [Arrive(two), Do(two.id, Decr(Done)), Do(two.id, Publish(Done))];
    RunPrefix(s, es, 0, s);
    var s1 := Step(s, es[0]);
    RunPrefix(s, es, 1, s1);
    var s2 := Step(s1, es[1]);
    assert s2.requests[two.id] == Request(two, Held(0)) && s2.sent == s.sent;
    RunPrefix(s, es, 2, s2);
    assert es[..3] == es;
  }

  /** The rollback of a publish that did reach SQS does oversell: one unit, two orders out. */
  lemma CreditOversells()
    ensures exists es :: NoReset(es) && SentUnits(Run(Start(1), es)) == 2
  {
    var one, two := Order(1, "ann", SaleItem, 1), Order(2, "bob", SaleItem, 1);
    var es := CreditedOnce(one);
    var fs := SoldAgain(Run(Start(1), es), two);
    RunAppend(Start(1), es, fs);
    TotalOfTwo<OrderId, Order>(1, one, 2, two, Units);
    assert NoReset(es + fs);
  }

  // ---------------------------------------------------------------- what a success and a rejection mean

  /** At any point of any run, a step that reserves for `c` moves the counter from at least the quantity down
      to exactly the remainder reported, under every strategy: an EXEC acts on the value its GET read. */
  lemma ReserveIsTrue(stock: nat, es: seq<Event>, c: OrderId, act: Act)
    requires SaneResets(es)
    requires var s := Run(Start(stock), es);
             c in s.requests && !s.requests[c].pc.Held? && Step(s, Do(c, act)).requests[c].pc.Held?
    ensures var s := Run(Start(stock), es); var t := Step(s, Do(c, act));
            && t.requests[c].pc.remaining == t.Value()
            && t.Value() == s.Value() - s.requests[c].order.quantity >= 0
  {
    StartInv(stock);
    RunKeepsInv(Start(stock), es);
    assert RequestOk(Run(Start(stock), es), c);
  }

  /** The units neither sold nor reserved: what the losers took is only out on loan. */
  ghost function TrueStock(s: State): int { s.Value() + Debts(s) }

  /** The request is turned away by this step, or made to owe a compensation. */
  predicate TurnedAway(s: State, c: OrderId, act: Act)
    requires c in s.requests
  {
    var e := EffectOf(s, c, act);
    (e.pc.Losing? || e.pc.SoldOut?) && e.pc != s.requests[c].pc && !s.requests[c].pc.Losing?
  }

  /** `act` is the command on which the request is sold out or not. */
  predicate Decides(s: State, c: OrderId, act: Act) {
    c in s.requests && ((s.requests[c].pc.Idle? && act in {Decr(Done), Lua(Done)})
                        || (s.requests[c].pc.Watching? && act == Get(true)))
  }

  /** At any point of any run, with any faults, short stock turns a request away; and one turned away although
      the stock suffices owes that to others: they are about to give back what is missing. */
  lemma RejectionBound(stock: nat, es: seq<Event>, c: OrderId, act: Act)
    requires SaneResets(es) && Decides(Run(Start(stock), es), c, act)
    ensures var s := Run(Start(stock), es); var q := s.requests[c].order.quantity;
            && (TrueStock(s) < q ==> TurnedAway(s, c, act))
            && (TurnedAway(s, c, act) ==> TrueStock(s) < q + Debts(s))
            && (TurnedAway(s, c, act) && TrueStock(s) >= q ==>
                  exists k :: k in s.requests && k != c && s.requests[k].pc.Losing?)
  {
    StartInv(stock);
    RunKeepsInv(Start(stock), es);
    var s := Run(Start(stock), es);
    assert forall k :: k in s.requests ==> RequestOk(s, k);
    DebtsAndLeaksNonNegative(s);
    if forall k :: k in s.requests ==> !s.requests[k].pc.Losing? { TotalZero(s.requests, DebtOf); }
  }

  /** A DECRBY can turn away a request that the stock would serve: whenever a request for more than the stock
      is about to give its units back, one that the stock suffices for is refused meanwhile. */
  lemma SpuriousRejection(stock: nat, large: int, small: int)
    requires 1 <= small <= stock < large
    ensures exists es :: AllFaultFree(es) && var s := Run(Start(stock), es);
              && Decides(s, 2, Decr(Done))
              && s.requests[2].order.quantity == small <= TrueStock(s) == stock
              && TurnedAway(s, 2, Decr(Done))
  {
    var one, two := Order(1, "ann", SaleItem, large), Order(2, "bob", SaleItem, small);
    var es := [Arrive(one), Arrive(two), Do(1, Decr(Done))];
    var s0 := Start(stock);
    RunPrefix(s0, es, 0, s0);
    var s1 := Step(s0, es[0]);
    RunPrefix(s0, es, 1, s1);
    var s2 := Step(s1, es[1]);
    RunPrefix(s0, es, 2, s2);
    assert es[..3] == es;
    var s := Run(s0, es);
    var m: map<OrderId, Request> := map[1 := Request(one, Losing), 2 := Request(two, Idle)];
    assert s.requests == m;
    TotalOfTwo<OrderId, Request>(1, m[1], 2, m[2], DebtOf);
    assert TrueStock(s) == stock;
    assert AllFaultFree(es);
  }
}
