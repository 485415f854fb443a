/**
 When more orders can go out than there were units.

 A publish that reports an error although the order is out gets rolled back, and its units are sold
 again. `Cap` is what the faults so far leave for sale: the most that any fault-free continuation can
 send, and one does send that much. It exceeds the stock exactly when such rollbacks, done or still
 owed, outweigh what leaked.
 */
module Oversell {
  import opened Domain
  import opened Totals
  import opened Inventory
  import opened InventoryLaws

  function HeldOf(r: Request): int { if r.pc.Held? then r.order.quantity else 0 }
  function RollingOf(r: Request): int { if r.pc.Rolling? then r.order.quantity else 0 }
  function FalseOf(r: Request): int { if r.pc.Rolling? && r.pc.enqueued then r.order.quantity else 0 }

  ghost function HeldUnits(s: State): int { Total(s.requests, HeldOf) }
  ghost function RollingUnits(s: State): int { Total(s.requests, RollingOf) }

  /** Units already sent whose rollback is still owed. */
  ghost function FalseUnits(s: State): int { Total(s.requests, FalseOf) }

  /** The counter once all that is owed to it has been given back. */
  ghost function Backed(s: State): int { s.Value() + Debts(s) + RollingUnits(s) }

  function AtLeastZero(x: int): int { if x >= 0 then x else 0 }

  /** Sent, about to be sent, and still for sale. */
  ghost function Cap(s: State): int { SentUnits(s) + HeldUnits(s) + AtLeastZero(Backed(s)) }

  // ---------------------------------------------------------------- no fault-free step changes the cap

  /** A fault-free step of a request sells its quantity off the counter, or neither sells nor takes. */
  lemma FaultFreeOutcome(value: int, version: nat, o: Order, pc: Pc, act: Act)
    requires FaultFreeAct(act)
    requires pc.Deciding? && pc.seen == version ==> value == pc.current >= o.quantity
    ensures var e := Outcome(value, version, o.quantity, pc, act); var r, r' := Request(o, pc), Request(o, e.pc);
            var sold := (if e.send then o.quantity else 0) + HeldOf(r') - HeldOf(r);
            var backed := e.delta + DebtOf(r') - DebtOf(r) + RollingOf(r') - RollingOf(r);
            (sold == 0 && backed == 0) || (sold == o.quantity == -backed && value >= o.quantity)
  {}

  lemma CapTotals(s: State, c: OrderId, e: Effect)
    requires c in s.requests && (e.send ==> c !in s.sent)
    ensures var t := Apply(s, c, e); var r := s.requests[c]; var r' := r.(pc := e.pc);
            && HeldUnits(t) == HeldUnits(s) + HeldOf(r') - HeldOf(r)
            && Backed(t) == Backed(s) + e.delta + DebtOf(r') - DebtOf(r) + RollingOf(r') - RollingOf(r)
  {
    var r := s.requests[c];
    ApplyTotals(s, c, e);
    TotalUpdate(s.requests, c, r.(pc := e.pc), HeldOf);
    TotalUpdate(s.requests, c, r.(pc := e.pc), RollingOf);
  }

  lemma OwedIsNonNegative(s: State)
    requires Inv(s)
    ensures Backed(s) >= s.Value() && HeldUnits(s) >= 0 && FalseUnits(s) >= 0
  {
    assert forall c :: c in s.requests ==> RequestOk(s, c);
    TotalNonNegative(s.requests, DebtOf);
    TotalNonNegative(s.requests, RollingOf);
    TotalNonNegative(s.requests, HeldOf);
    TotalNonNegative(s.requests, FalseOf);
  }

  lemma StepKeepsCap(s: State, e: Event)
    requires Inv(s) && FaultFree(e)
    ensures Cap(Step(s, e)) == Cap(s)
  {
    match e
    case Arrive(o) =>
      if o.id !in s.requests {
        ArriveTotals(s, o);
        TotalUpdate(s.requests, o.id, Request(o, Idle), HeldOf);
        TotalUpdate(s.requests, o.id, Request(o, Idle), RollingOf);
      }
    case Do(c, act) =>
      if c in s.requests {
        var r := s.requests[c];
        assert RequestOk(s, c);
        OutcomeBalances(s.Value(), s.version, r.order, r.pc, act);
        FaultFreeOutcome(s.Value(), s.version, r.order, r.pc, act);
        ApplyTotals(s, c, EffectOf(s, c, act));
        CapTotals(s, c, EffectOf(s, c, act));
        OwedIsNonNegative(s);
      }
    case Reset(_) =>
  }

  lemma {:induction false} RunKeepsCap(s: State, es: seq<Event>)
    requires Inv(s) && AllFaultFree(es)
    ensures Inv(Run(s, es)) && Cap(Run(s, es)) == Cap(s)
    decreases |es|
  {
    if es != [] {
      var before := es[..|es| - 1];
      RunKeepsCap(s, before);
      StepKeepsInv(Run(s, before), es[|es| - 1]);
      StepKeepsCap(Run(s, before), es[|es| - 1]);
    }
  }

  // ---------------------------------------------------------------- and the cap can be reached

  /** Requests that hold units or owe some. */
  function Open(s: State): set<OrderId> {
    set c | c in s.requests && (s.requests[c].pc.Losing? || s.requests[c].pc.Held? || s.requests[c].pc.Rolling?)
  }

  function Closing(pc: Pc): Act {
    if pc.Losing? then Compensate(Done) else if pc.Held? then Publish(Done) else Rollback(Done)
  }

  lemma CloseOne(s: State, c: OrderId)
    requires c in Open(s)
    ensures var t := Step(s, Do(c, Closing(s.requests[c].pc))); Open(t) == Open(s) - {c}
  {
    var t := Step(s, Do(c, Closing(s.requests[c].pc)));
    assert forall k :: k in s.requests && k != c ==> t.requests[k] == s.requests[k];
  }

  /** Every request in flight can be brought to its answer. */
  lemma {:induction false} CloseAll(s: State) returns (es: seq<Event>)
    requires Inv(s)
    ensures AllFaultFree(es) && Open(Run(s, es)) == {}
    decreases Open(s)
  {
    if Open(s) == {} {
      es := [];
    } else {
      var c :| c in Open(s);
      var e := Do(c, Closing(s.requests[c].pc));
      CloseOne(s, c);
      StepKeepsInv(s, e);
      var rest := CloseAll(Step(s, e));
      es := [e] + rest;
      assert Run(s, [e]) == Step(Run(s, []), e) by { RunSnoc(s, [], e); assert [] + [e] == [e]; }
      RunAppend(s, [e], rest);
    }
  }

  lemma ClosedCap(s: State)
    requires Open(s) == {}
    ensures Cap(s) == SentUnits(s) + AtLeastZero(s.Value())
  {
    forall c | c in s.requests ensures DebtOf(s.requests[c]) == HeldOf(s.requests[c]) == RollingOf(s.requests[c]) == 0 {
      assert c !in Open(s);
    }
    TotalZero(s.requests, DebtOf);
    TotalZero(s.requests, HeldOf);
    TotalZero(s.requests, RollingOf);
  }

  /** A new buyer takes the order `o`, of no more units than the counter shows. */
  lemma BuyOne(s: State, o: Order)
    requires o.id !in s.requests && o.id !in s.sent && 1 <= o.quantity <= s.Value()
    ensures Run(s, [Arrive(o), Do(o.id, Lua(Done)), Do(o.id, Publish(Done))]).sent == s.sent[o.id := o]
  {
    var es := [Arrive(o), Do(o.id, Lua(Done)), Do(o.id, Publish(Done))];
    RunPrefix(s, es, 0, s);
    var s1 := Step(s, es[0]);
    RunPrefix(s, es, 1, s1);
    var s2 := Step(s1, es[1]);
    assert s2.requests[o.id] == Request(o, Held(s.Value() - o.quantity)) && s2.sent == s.sent;
    RunPrefix(s, es, 2, s2);
    assert es[..3] == es;
  }

  lemma SellTheRest(s: State) returns (es: seq<Event>)
    requires Inv(s) && Open(s) == {}
    ensures AllFaultFree(es) && SentUnits(Run(s, es)) == Cap(s)
  {
    ClosedCap(s);
    es := [];
    if s.Value() > 0 {
      var id := Unused(s.requests.Keys);
      var o := Order(id, "ann", SaleItem, s.Value());
      es := [Arrive(o), Do(id, Lua(Done)), Do(id, Publish(Done))];
      BuyOne(s, o);
      TotalUpdate(s.sent, id, o, Units);
    }
  }

  /** `Cap` is the most that can be sent without another fault: no fault-free continuation sends more,
      and one sends exactly that. */
  lemma CapIsTheMost(stock: nat, es: seq<Event>)
    requires SaneResets(es)
    ensures var s := Run(Start(stock), es);
            && (forall fs :: AllFaultFree(fs) ==> SentUnits(Run(s, fs)) <= Cap(s))
            && (exists fs :: AllFaultFree(fs) && SentUnits(Run(s, fs)) == Cap(s))
  {
    StartInv(stock);
    InventoryLaws.RunKeepsInv(Start(stock), es);
    var s := Run(Start(stock), es);
    forall fs | AllFaultFree(fs) ensures SentUnits(Run(s, fs)) <= Cap(s) {
      RunKeepsCap(s, fs);
      OwedIsNonNegative(Run(s, fs));
    }
    var fs := CloseAll(s);
    RunKeepsCap(s, fs);
    var gs := SellTheRest(Run(s, fs));
    RunAppend(s, fs, gs);
    assert AllFaultFree(fs + gs);
  }

  // ---------------------------------------------------------------- when the cap exceeds the stock

  ghost predicate CanOversell(stock: nat, s: State) {
    exists fs :: AllFaultFree(fs) && SentUnits(Run(s, fs)) > stock
  }

  function RolledBackUnsent(r: Request): int { if r.pc.Rolling? && !r.pc.enqueued then r.order.quantity else 0 }

  lemma CapAgainstLedger(s: State)
    ensures Cap(s) > Ledger(s)
            <==> Credits(s) + FalseUnits(s) > Leaks(s) || SentUnits(s) + HeldUnits(s) > Ledger(s)
  {
    TotalPlus(s.requests, FalseOf, RolledBackUnsent, RollingOf);
    TotalPlus(s.requests, HeldOf, RolledBackUnsent, HoldOf);
  }

  /** Without another fault more orders than units can go out exactly when the units of rollbacks that
      were not due, done or still owed, outweigh the leaked ones, or too many are reserved or out already. */
  lemma OversellPossibleIff(stock: nat, es: seq<Event>)
    requires NoReset(es)
    ensures var s := Run(Start(stock), es);
            CanOversell(stock, s) <==> Credits(s) + FalseUnits(s) > Leaks(s) || SentUnits(s) + HeldUnits(s) > stock
  {
    Conservation(stock, es);
    CapIsTheMost(stock, es);
    CapAgainstLedger(Run(Start(stock), es));
  }

  // ---------------------------------------------------------------- which event makes it possible

  /** Only publishes fail. */
  predicate RedisSound(e: Event) { !e.Reset? && (e.Do? ==> e.act.Publish? || FaultFreeAct(e.act)) }

  predicate AllRedisSound(es: seq<Event>) { forall i :: 0 <= i < |es| ==> RedisSound(es[i]) }

  /** Step k is a publish that reports an error although its order is out. */
  predicate FalseErrorAt(s: State, es: seq<Event>, k: nat) {
    && k < |es|
    && es[k].Do? && es[k].act == Publish(ReplyLost)
    && var t := Run(s, es[..k]);
       es[k].who in t.requests && t.requests[es[k].who].pc.Held?
  }

  predicate FalselyFailed(pc: Pc) { pc.Credited? || (pc.Rolling? && pc.enqueued) }

  predicate SomeFalselyFailed(s: State) { exists c :: c in s.requests && FalselyFailed(s.requests[c].pc) }

  predicate NoLeakOrOrphan(s: State) {
    forall c :: c in s.requests ==> !s.requests[c].pc.Leaked? && !s.requests[c].pc.Orphaned?
  }

  lemma RedisSoundStep(s: State, e: Event)
    requires NoLeakOrOrphan(s) && RedisSound(e)
    ensures NoLeakOrOrphan(Step(s, e))
    ensures SomeFalselyFailed(Step(s, e)) <==> SomeFalselyFailed(s) || FalseErrorAt(s, [e], 0)
  {
    var t := Step(s, e);
    assert [e][..0] == [];
    if c :| c in s.requests && FalselyFailed(s.requests[c].pc) {
      assert c in t.requests && FalselyFailed(t.requests[c].pc);
    } else if FalseErrorAt(s, [e], 0) {
      assert FalselyFailed(t.requests[e.who].pc);
    }
  }

  lemma {:induction false} RedisSoundRun(s: State, es: seq<Event>)
    requires NoLeakOrOrphan(s) && !SomeFalselyFailed(s) && AllRedisSound(es)
    ensures NoLeakOrOrphan(Run(s, es))
    ensures SomeFalselyFailed(Run(s, es)) <==> exists k: nat :: FalseErrorAt(s, es, k)
    decreases |es|
  {
    if es != [] {
      var n := |es| - 1;
      RedisSoundRun(s, es[..n]);
      RedisSoundStep(Run(s, es[..n]), es[n]);
      assert [es[n]][..0] == [];
      forall k | 0 <= k < n ensures FalseErrorAt(s, es, k) <==> FalseErrorAt(s, es[..n], k) {
        assert es[..n][..k] == es[..k];
      }
      assert FalseErrorAt(s, es, n) <==> FalseErrorAt(Run(s, es[..n]), [es[n]], 0);
    }
  }

  /** The hypothesis "a failed publish means nothing was enqueued" is exactly what is needed: while Redis
      keeps working, overselling becomes possible with the first publish that reports a false error, and
      not before. */
  lemma OversellIffFalseError(stock: nat, es: seq<Event>)
    requires AllRedisSound(es)
    ensures CanOversell(stock, Run(Start(stock), es)) <==> exists k: nat :: FalseErrorAt(Start(stock), es, k)
  {
    var s := Run(Start(stock), es);
    RedisSoundRun(Start(stock), es);
    OversellPossibleIff(stock, es);
    NoOversell(stock, es);
    StartInv(stock);
    InventoryLaws.RunKeepsInv(Start(stock), es);
    NothingLeaked(s);
    FalseUnitsIff(s);
  }

  lemma NothingLeaked(s: State)
    requires Inv(s) && NoLeakOrOrphan(s)
    ensures Leaks(s) == 0 && HeldUnits(s) <= Holds(s)
  {
    assert forall c :: c in s.requests ==> RequestOk(s, c);
    TotalZero(s.requests, LeakOf);
    TotalNonNegative(s.requests, RolledBackUnsent);
    TotalPlus(s.requests, HeldOf, RolledBackUnsent, HoldOf);
  }

  lemma FalseUnitsIff(s: State)
    requires Inv(s) && NoLeakOrOrphan(s)
    ensures Credits(s) >= 0 && FalseUnits(s) >= 0 && (Credits(s) + FalseUnits(s) > 0 <==> SomeFalselyFailed(s))
  {
    assert forall c :: c in s.requests ==> RequestOk(s, c);
    TotalNonNegative(s.requests, CreditOf);
    TotalNonNegative(s.requests, FalseOf);
    if !SomeFalselyFailed(s) {
      TotalZero(s.requests, CreditOf);
      TotalZero(s.requests, FalseOf);
    }
  }

  predicate NoFalseErrors(es: seq<Event>) { forall i :: 0 <= i < |es| && es[i].Do? ==> es[i].act != Publish(ReplyLost) }

  lemma {:induction false} NothingFalse(s: State, es: seq<Event>)
    requires !SomeFalselyFailed(s) && NoFalseErrors(es)
    ensures !SomeFalselyFailed(Run(s, es))
    decreases |es|
  {
    if es != [] { NothingFalse(s, es[..|es| - 1]); }
  }

  /** No oversell at all, whatever else fails, as long as a failed publish means that nothing was enqueued. */
  lemma NoFalseErrorNoOversell(stock: nat, es: seq<Event>)
    requires NoReset(es) && NoFalseErrors(es)
    ensures var s := Run(Start(stock), es); SentUnits(s) + Holds(s) <= stock
  {
    NoOversell(stock, es);
    NothingFalse(Start(stock), es);
    TotalZero(Run(Start(stock), es).requests, CreditOf);
  }
}
