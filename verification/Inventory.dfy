/**
 The inventory reservation protocol of the flash-sale API.

 Any number of purchase requests work on one Redis counter; each takes one step at a time, a step
 being one Redis command, one Lua script, one EXEC or one SQS send. A list of events is one
 interleaving. An event whose request is not at the matching point of its code changes nothing, so
 that the lemmas about lists of events are about every interleaving.
 */
module Inventory {
  import opened Domain
  import opened Totals

  /** Where one purchase request is in its code. */
  datatype Pc =
    | Idle                                     // nothing sent yet
    | Losing                                   // DECRBY went below zero: owes the compensating INCRBY
    | Watching(seen: nat)                      // WATCH done at version `seen`
    | Deciding(seen: nat, current: int)        // GET done after it
    | Conflicted                               // EXEC refused: the key changed
    | Held(remaining: int)                     // reserved, not yet published
    | Rolling(enqueued: bool)                  // publish reported an error: owes the rollback
    | Accepted(remaining: int)                 // 201
    | SoldOut | Contention                     // 409
    | Errored                                  // 500, and nothing taken for good
    | Leaked                                   // 500, and units taken off the counter for nothing
    | Credited                                 // 500, order out, and its units given back all the same
    | Orphaned                                 // 500, order out, rollback lost

  datatype Request = Request(order: Order, pc: Pc)

  datatype State = State(
    cell: Option<int>,                 // the Redis key; None when absent
    version: nat,                      // number of writes to the key
    requests: map<OrderId, Request>,
    sent: map<OrderId, Order>          // every order that ever reached SQS
  ) {
    function Value(): int { if cell.Some? then cell.value else 0 }
  }

  datatype Act =
    | Decr(fate: Fate)
    | Compensate(fate: Fate)
    | Lua(fate: Fate)
    | Watch(ok: bool)
    | Get(ok: bool)
    | Exec(fate: Fate)
    | GiveUp
    | Refuse
    | Publish(fate: Fate)
    | Rollback(fate: Fate)

  datatype Event =
    | Arrive(order: Order)
    | Do(who: OrderId, act: Act)
    | Reset(count: int)

  /** What one step does: the request's next point, the change of the counter (a zero change is no
      write) and whether the order reaches SQS. */
  datatype Effect = Effect(pc: Pc, delta: int, send: bool)

  function Outcome(value: int, version: nat, q: int, pc: Pc, act: Act): Effect {
    match act
    case Decr(f) =>
      if !pc.Idle? then Effect(pc, 0, false)
      else if f.NotApplied? then Effect(Errored, 0, false)
      else if f.ReplyLost? then Effect(Leaked, -q, false)
      else if value - q < 0 then Effect(Losing, -q, false)
      else Effect(Held(value - q), -q, false)
    case Compensate(f) =>
      if !pc.Losing? then Effect(pc, 0, false)
      else if f.NotApplied? then Effect(Leaked, 0, false)
      else Effect(if f.Done? then SoldOut else Errored, q, false)
    case Lua(f) =>
      if !pc.Idle? then Effect(pc, 0, false)
      else if f.NotApplied? then Effect(Errored, 0, false)
      else if value < q then Effect(if f.Done? then SoldOut else Errored, 0, false)
      else Effect(if f.Done? then Held(value - q) else Leaked, -q, false)
    case Watch(ok) =>
      if !(pc.Idle? || pc.Conflicted?) then Effect(pc, 0, false)
      else Effect(if ok then Watching(version) else Errored, 0, false)
    case Get(ok) =>
      if !pc.Watching? then Effect(pc, 0, false)
      else if !ok then Effect(Errored, 0, false)
      else Effect(if value < q then SoldOut else Deciding(pc.seen, value), 0, false)
    case Exec(f) =>
      if !pc.Deciding? then Effect(pc, 0, false)
      else if f.NotApplied? then Effect(Errored, 0, false)
      else if version != pc.seen then Effect(if f.Done? then Conflicted else Errored, 0, false)
      else Effect(if f.Done? then Held(pc.current - q) else Leaked, -q, false)
    case GiveUp => Effect(if pc.Conflicted? then Contention else pc, 0, false)
    case Refuse => Effect(if pc.Idle? then Errored else pc, 0, false)
    case Publish(f) =>
      if !pc.Held? then Effect(pc, 0, false)
      else if f.Done? then Effect(Accepted(pc.remaining), 0, true)
      else Effect(Rolling(f.ReplyLost?), 0, f.ReplyLost?)
    case Rollback(f) =>
      if !pc.Rolling? then Effect(pc, 0, false)
      else if f.NotApplied? then Effect(if pc.enqueued then Orphaned else Leaked, 0, false)
      else Effect(if pc.enqueued then Credited else Errored, q, false)
  }

  function Apply(s: State, c: OrderId, e: Effect): State
    requires c in s.requests
  {
    State(
      if e.delta == 0 then s.cell else Some(s.Value() + e.delta),
      if e.delta == 0 then s.version else s.version + 1,
      s.requests[c := s.requests[c].(pc := e.pc)],
      if e.send then s.sent[c := s.requests[c].order] else s.sent)
  }

  function EffectOf(s: State, c: OrderId, act: Act): Effect
    requires c in s.requests
  {
    Outcome(s.Value(), s.version, s.requests[c].order.quantity, s.requests[c].pc, act)
  }

  function Step(s: State, e: Event): State {
    match e
    case Arrive(o) =>
      if o.id in s.requests || o.quantity < 1 then s
      else s.(requests := s.requests[o.id := Request(o, Idle)])
    case Do(c, act) => if c in s.requests then Apply(s, c, EffectOf(s, c, act)) else s
    case Reset(n) => s.(cell := Some(n), version := s.version + 1)
  }

  function Run(s: State, es: seq<Event>): State {
    if es == [] then s else Step(Run(s, es[..|es| - 1]), es[|es| - 1])
  }

  function Start(stock: int): State { State(Some(stock), 0, map[], map[]) }

  lemma RunSnoc(s: State, es: seq<Event>, e: Event)
    ensures Run(s, es + [e]) == Step(Run(s, es), e)
  {
    assert (es + [e])[..|es|] == es;
  }

  lemma RunPrefix(s: State, es: seq<Event>, k: nat, t: State)
    requires k < |es| && Run(s, es[..k]) == t
    ensures Run(s, es[..k + 1]) == Step(t, es[k])
  {
    assert es[..k + 1][..k] == es[..k];
  }

  lemma {:induction false} RunAppend(s: State, es: seq<Event>, fs: seq<Event>)
    ensures Run(s, es + fs) == Run(Run(s, es), fs)
    decreases |fs|
  {
    if fs == [] {
      assert es + fs == es;
    } else {
      assert es + fs == (es + fs[..|fs| - 1]) + [fs[|fs| - 1]];
      RunSnoc(s, es + fs[..|fs| - 1], fs[|fs| - 1]);
      RunAppend(s, es, fs[..|fs| - 1]);
    }
  }

  // ---------------------------------------------------------------- the ledger

  function DebtOf(r: Request): int { if r.pc.Losing? then r.order.quantity else 0 }
  function HoldOf(r: Request): int {
    if r.pc.Held? || (r.pc.Rolling? && !r.pc.enqueued) then r.order.quantity else 0
  }
  function LeakOf(r: Request): int { if r.pc.Leaked? then r.order.quantity else 0 }
  function CreditOf(r: Request): int { if r.pc.Credited? then r.order.quantity else 0 }
  predicate Out(pc: Pc) {
    pc.Accepted? || (pc.Rolling? && pc.enqueued) || pc.Credited? || pc.Orphaned?
  }

  ghost function Debts(s: State): int { Total(s.requests, DebtOf) }
  ghost function Holds(s: State): int { Total(s.requests, HoldOf) }
  ghost function Leaks(s: State): int { Total(s.requests, LeakOf) }
  ghost function Credits(s: State): int { Total(s.requests, CreditOf) }
  ghost function SentUnits(s: State): int { Total(s.sent, Units) }

  /** Everything the initial stock has turned into. */
  ghost function Ledger(s: State): int {
    s.Value() + Debts(s) + Holds(s) + SentUnits(s) + Leaks(s) - Credits(s)
  }

  predicate RequestOk(s: State, c: OrderId)
    requires c in s.requests
  {
    var r := s.requests[c];
    && r.order.id == c
    && r.order.quantity >= 1
    && (c in s.sent <==> Out(r.pc))
    && (c in s.sent ==> s.sent[c] == r.order)
    && (r.pc.Watching? || r.pc.Deciding? ==> r.pc.seen <= s.version)
    // what an EXEC will act on: an unchanged version means an unchanged value
    && (r.pc.Deciding? ==> r.pc.current >= r.order.quantity
                           && (r.pc.seen == s.version ==> r.pc.current == s.Value()))
    && (r.pc.Held? || r.pc.Accepted? ==> r.pc.remaining >= 0)
  }

  ghost predicate Inv(s: State) {
    && (forall c :: c in s.requests ==> RequestOk(s, c))
    && s.sent.Keys <= s.requests.Keys
    && s.Value() + Debts(s) + Leaks(s) >= 0
  }

  /** The weights of a request before and after its own step account for the counter's change. */
  lemma OutcomeBalances(value: int, version: nat, o: Order, pc: Pc, act: Act)
    ensures var e := Outcome(value, version, o.quantity, pc, act);
            var r, r' := Request(o, pc), Request(o, e.pc);
            && e.delta + (DebtOf(r') - DebtOf(r)) + (HoldOf(r') - HoldOf(r)) + (LeakOf(r') - LeakOf(r))
               - (CreditOf(r') - CreditOf(r)) + (if e.send then o.quantity else 0) == 0
            && (Out(e.pc) <==> (Out(pc) || e.send))
            && (e.send ==> !Out(pc))
  {}

  lemma ApplyTotals(s: State, c: OrderId, e: Effect)
    requires c in s.requests && (e.send ==> c !in s.sent)
    ensures var t := Apply(s, c, e); var r := s.requests[c]; var r' := r.(pc := e.pc);
            && t.Value() == s.Value() + e.delta
            && Debts(t) == Debts(s) + DebtOf(r') - DebtOf(r)
            && Holds(t) == Holds(s) + HoldOf(r') - HoldOf(r)
            && Leaks(t) == Leaks(s) + LeakOf(r') - LeakOf(r)
            && Credits(t) == Credits(s) + CreditOf(r') - CreditOf(r)
            && SentUnits(t) == SentUnits(s) + if e.send then r.order.quantity else 0
  {
    var r := s.requests[c];
    var r' := r.(pc := e.pc);
    TotalUpdate(s.requests, c, r', DebtOf);
    TotalUpdate(s.requests, c, r', HoldOf);
    TotalUpdate(s.requests, c, r', LeakOf);
    TotalUpdate(s.requests, c, r', CreditOf);
    TotalUpdate(s.sent, c, r.order, Units);
  }

  lemma ArriveTotals(s: State, o: Order)
    requires o.id !in s.requests
    ensures var t := s.(requests := s.requests[o.id := Request(o, Idle)]);
            && Debts(t) == Debts(s) && Holds(t) == Holds(s) && Leaks(t) == Leaks(s) && Credits(t) == Credits(s)
  {
    var r := Request(o, Idle);
    TotalUpdate(s.requests, o.id, r, DebtOf);
    TotalUpdate(s.requests, o.id, r, HoldOf);
    TotalUpdate(s.requests, o.id, r, LeakOf);
    TotalUpdate(s.requests, o.id, r, CreditOf);
  }

  /** No step but a reset changes the ledger. */
  lemma StepConserves(s: State, e: Event)
    requires Inv(s) && !e.Reset?
    ensures Ledger(Step(s, e)) == Ledger(s)
  {
    match e
    case Arrive(o) => if o.id !in s.requests { ArriveTotals(s, o); }
    case Do(c, act) =>
      if c in s.requests {
        var r := s.requests[c];
        assert RequestOk(s, c);
        OutcomeBalances(s.Value(), s.version, r.order, r.pc, act);
        ApplyTotals(s, c, EffectOf(s, c, act));
      }
    case Reset(n) =>
  }

  lemma OutcomeKeepsRequest(s: State, c: OrderId, act: Act)
    requires c in s.requests && RequestOk(s, c)
    ensures RequestOk(Apply(s, c, EffectOf(s, c, act)), c)
  {
    var r := s.requests[c];
    OutcomeBalances(s.Value(), s.version, r.order, r.pc, act);
  }

  /** A decrement that is not undone leaves the counter, counted with the debts and leaks, non-negative. */
  lemma OutcomeKeepsFloor(s: State, c: OrderId, act: Act)
    requires c in s.requests && RequestOk(s, c)
    ensures var r := s.requests[c]; var e := EffectOf(s, c, act); var r' := r.(pc := e.pc);
            var change := e.delta + DebtOf(r') - DebtOf(r) + LeakOf(r') - LeakOf(r);
            change >= 0 || s.Value() + e.delta >= 0
  {}

  lemma DebtsAndLeaksNonNegative(s: State)
    requires forall c :: c in s.requests ==> s.requests[c].order.quantity >= 1
    ensures Debts(s) >= 0 && Holds(s) >= 0 && Leaks(s) >= 0 && Credits(s) >= 0
  {
    TotalNonNegative(s.requests, DebtOf);
    TotalNonNegative(s.requests, HoldOf);
    TotalNonNegative(s.requests, LeakOf);
    TotalNonNegative(s.requests, CreditOf);
  }

  lemma StepKeepsFloor(s: State, e: Event)
    requires Inv(s) && (e.Reset? ==> e.count >= 0)
    ensures var t := Step(s, e); t.Value() + Debts(t) + Leaks(t) >= 0
  {
    var t := Step(s, e);
    assert forall c :: c in s.requests ==> RequestOk(s, c);
    match e
    case Arrive(o) => if o.id !in s.requests { ArriveTotals(s, o); }
    case Do(c, act) =>
      if c in s.requests {
        OutcomeBalances(s.Value(), s.version, s.requests[c].order, s.requests[c].pc, act);
        ApplyTotals(s, c, EffectOf(s, c, act));
        OutcomeKeepsFloor(s, c, act);
        assert forall k :: k in t.requests ==> t.requests[k].order == s.requests[k].order;
        DebtsAndLeaksNonNegative(t);
      }
    case Reset(n) => DebtsAndLeaksNonNegative(t);
  }

  lemma StepKeepsRequests(s: State, e: Event)
    requires Inv(s)
    ensures var t := Step(s, e); (forall c :: c in t.requests ==> RequestOk(t, c)) && t.sent.Keys <= t.requests.Keys
  {
    var t := Step(s, e);
    forall k | k in t.requests ensures RequestOk(t, k) {
      if k in s.requests { assert RequestOk(s, k); }
      if e.Do? && e.who in s.requests {
        assert RequestOk(s, e.who);
        OutcomeKeepsRequest(s, e.who, e.act);
      }
    }
  }

  lemma StepKeepsInv(s: State, e: Event)
    requires Inv(s) && (e.Reset? ==> e.count >= 0)
    ensures Inv(Step(s, e))
  {
    StepKeepsRequests(s, e);
    StepKeepsFloor(s, e);
  }
}
