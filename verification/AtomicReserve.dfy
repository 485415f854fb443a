/**
 The optimistic WATCH/GET/MULTI/EXEC loop refines one atomic check-and-decrement.

 Every interleaving, with writers of any strategy and any fault, is matched step by step by one in
 which no request ever watches: each optimistic call is a single run of the Lua script, at its EXEC
 if it commits and at its GET if it finds the item sold out, and nothing at all in between.
 */
module AtomicReserve {
  import opened Domain
  import opened Inventory
  import opened InventoryLaws

  /** A request's point with the optimistic bookkeeping taken away. Giving up on contention is an
      answer that took nothing, like any refusal. */
  function Plain(pc: Pc): Pc {
    if pc.Watching? || pc.Deciding? || pc.Conflicted? then Idle
    else if pc.Contention? then Errored
    else pc
  }

  function PlainAct(pc: Pc, version: nat, value: int, q: int, act: Act): Option<Act> {
    match act
    case Watch(ok) => if ok || !(pc.Idle? || pc.Conflicted?) then None else Some(Refuse)
    case Get(ok) =>
      if !pc.Watching? then None
      else if !ok then Some(Refuse)
      else if value < q then Some(Lua(Done)) else None
    case Exec(f) =>
      if !pc.Deciding? then None
      else if f.NotApplied? then Some(Refuse)
      else if version == pc.seen then Some(Lua(f))
      else if f.Done? then None else Some(Refuse)
    case GiveUp => if pc.Conflicted? then Some(Refuse) else None
    // acts of the other strategies do not start inside an optimistic call
    case Decr(_) => if pc.Idle? then Some(act) else None
    case Lua(_) => if pc.Idle? then Some(act) else None
    case Refuse => if pc.Idle? then Some(act) else None
    case _ => Some(act)
  }

  /** What the atomic system does while the real one takes step `e` from `s`. */
  function PlainEvents(s: State, e: Event): seq<Event> {
    match e
    case Do(c, act) =>
      if c !in s.requests then [] else
      var r := s.requests[c];
      (match PlainAct(r.pc, s.version, s.Value(), r.order.quantity, act)
       case Some(a) => [Do(c, a)]
       case None => [])
    case _ => [e]
  }

  function PlainRun(s: State, es: seq<Event>): seq<Event> {
    if es == [] then []
    else PlainRun(s, es[..|es| - 1]) + PlainEvents(Run(s, es[..|es| - 1]), es[|es| - 1])
  }

  /** The two systems agree on everything a buyer, SQS or a reader of the key can see. */
  ghost predicate Matches(s: State, t: State) {
    && s.cell == t.cell
    && s.sent == t.sent
    && s.requests.Keys == t.requests.Keys
    && forall c :: c in s.requests ==> t.requests[c] == Request(s.requests[c].order, Plain(s.requests[c].pc))
  }

  /** No act of the optimistic strategy. */
  predicate Atomic(e: Event) {
    e.Do? ==> !(e.act.Watch? || e.act.Get? || e.act.Exec? || e.act.GiveUp?)
  }

  lemma OutcomeMatches(value: int, version: nat, version': nat, q: int, pc: Pc, act: Act)
    requires pc.Deciding? ==> pc.current >= q && (pc.seen == version ==> pc.current == value)
    ensures var e := Outcome(value, version, q, pc, act);
            match PlainAct(pc, version, value, q, act)
            case Some(a) => Outcome(value, version', q, Plain(pc), a) == Effect(Plain(e.pc), e.delta, e.send)
            case None => Plain(e.pc) == Plain(pc) && e.delta == 0 && !e.send
  {}

  lemma ApplyMatches(s: State, t: State, c: OrderId, e: Effect)
    requires Matches(s, t) && c in s.requests
    ensures Matches(Apply(s, c, e), Apply(t, c, e.(pc := Plain(e.pc))))
    ensures Plain(e.pc) == Plain(s.requests[c].pc) && e.delta == 0 && !e.send ==> Matches(Apply(s, c, e), t)
  {}

  lemma RunOne(t: State, e: Event)
    ensures Run(t, [e]) == Step(t, e)
  {
    RunSnoc(t, [], e);
    assert [] + [e] == [e];
  }

  lemma StepMatches(s: State, t: State, e: Event)
    requires Inv(s) && Matches(s, t)
    ensures Matches(Step(s, e), Run(t, PlainEvents(s, e)))
  {
    if !e.Do? {
      RunOne(t, e);
    } else if e.who in s.requests {
      var c := e.who;
      var r := s.requests[c];
      assert RequestOk(s, c);
      OutcomeMatches(s.Value(), s.version, t.version, r.order.quantity, r.pc, e.act);
      ApplyMatches(s, t, c, EffectOf(s, c, e.act));
      match PlainAct(r.pc, s.version, s.Value(), r.order.quantity, e.act)
      case Some(a) => RunOne(t, Do(c, a));
      case None =>
    }
  }

  lemma PlainEventsAtomic(s: State, e: Event)
    ensures forall i :: 0 <= i < |PlainEvents(s, e)| ==> Atomic(PlainEvents(s, e)[i])
  {}

  /** Optimistic locking is invisible: the atomic system reaches the same counter, the same orders and
      the same answers, by the same steps in the same order. */
  lemma {:induction false} OptimisticRefinesAtomic(stock: nat, es: seq<Event>)
    requires SaneResets(es)
    ensures Matches(Run(Start(stock), es), Run(Start(stock), PlainRun(Start(stock), es)))
    ensures forall i :: 0 <= i < |PlainRun(Start(stock), es)| ==> Atomic(PlainRun(Start(stock), es)[i])
    decreases |es|
  {
    var s0 := Start(stock);
    if es != [] {
      var before, e := es[..|es| - 1], es[|es| - 1];
      OptimisticRefinesAtomic(stock, before);
      StartInv(stock);
      RunKeepsInv(s0, before);
      StepMatches(Run(s0, before), Run(s0, PlainRun(s0, before)), e);
      RunAppend(s0, PlainRun(s0, before), PlainEvents(Run(s0, before), e));
      PlainEventsAtomic(Run(s0, before), e);
    }
  }
}
