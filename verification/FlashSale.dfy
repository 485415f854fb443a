/**
 The whole pipeline: waiting room, purchase API, SQS, order workers and their tables, all moving at
 once. Each service is the machine of its own module; here they share the token store and the queue.
 */
module FlashSale {
  import opened Domain
  import opened Totals
  import opened AuditCounter
  import opened SortedSet
  import I = Inventory
  import IL = InventoryLaws
  import W = OrderWorker
  import WL = OrderWorkerLaws
  import R = WaitingRoom
  import RL = WaitingRoomLaws
  import RW = WaitingRoomWitnesses
  import D = Delivery
  import Api = FlashSaleApi

  datatype State = State(buy: I.State, work: W.State, room: R.State)

  datatype Event =
    | Enter(order: Order, presented: string)     // a purchase request arrives at the gate
    | Buy(who: OrderId, act: I.Act)              // one step of a request that passed it
    | Restock(count: int)                        // POST /reset
    | Work(worker: W.WorkerId, job: W.Act)
    | Queue(event: R.Event)

  function TokenOf(s: R.State, u: string): Option<string> {
    if u in s.stores.tokens then Some(s.stores.tokens[u]) else None
  }

  /** `gate` is REQUIRE_ADMISSION_TOKEN. */
  predicate LetIn(gate: bool, s: State, o: Order, presented: string) {
    !Api.Malformed(o) && o.item == SaleItem && Api.GatePasses(gate, presented, TokenOf(s.room, o.user))
  }

  function Step(gate: bool, s: State, e: Event): State {
    match e
    case Enter(o, presented) => if LetIn(gate, s, o, presented) then s.(buy := I.Step(s.buy, I.Arrive(o))) else s
    case Buy(c, act) =>
      var buy := I.Step(s.buy, I.Do(c, act));
      State(buy, if c in buy.sent then W.Step(s.work, W.Send(buy.sent[c])) else s.work, s.room)
    case Restock(n) => s.(buy := I.Step(s.buy, I.Reset(n)))
    case Work(w, act) => s.(work := W.Step(s.work, W.Do(w, act)))
    case Queue(r) => s.(room := R.Step(s.room, r))
  }

  function Run(gate: bool, s: State, es: seq<Event>): State {
    if es == [] then s else Step(gate, Run(gate, s, es[..|es| - 1]), es[|es| - 1])
  }

  function Start(stock: int): State { State(I.Start(stock), W.Start(), R.Start()) }

  lemma RunSnoc(gate: bool, s: State, es: seq<Event>, e: Event)
    ensures Run(gate, s, es + [e]) == Step(gate, Run(gate, s, es), e)
  {
    assert (es + [e])[..|es|] == es;
  }

  lemma {:induction false} RunAppend(gate: bool, s: State, es: seq<Event>, fs: seq<Event>)
    ensures Run(gate, s, es + fs) == Run(gate, Run(gate, s, es), fs)
    decreases |fs|
  {
    if fs == [] {
      assert es + fs == es;
    } else {
      assert es + fs == (es + fs[..|fs| - 1]) + [fs[|fs| - 1]];
      RunSnoc(gate, s, es + fs[..|fs| - 1], fs[|fs| - 1]);
      RunAppend(gate, s, es, fs[..|fs| - 1]);
    }
  }

  /** The workers alone move. */
  function Works(ws: seq<W.Event>): seq<Event>
    requires D.OnlyWork(ws)
  {
    seq(|ws|, i requires 0 <= i < |ws| => Work(ws[i].who, ws[i].act))
  }

  lemma {:induction false} WorksRun(gate: bool, s: State, ws: seq<W.Event>)
    requires D.OnlyWork(ws)
    ensures Run(gate, s, Works(ws)) == s.(work := W.Run(s.work, ws))
    decreases |ws|
  {
    if ws != [] {
      WorksRun(gate, s, ws[..|ws| - 1]);
      assert Works(ws)[..|ws| - 1] == Works(ws[..|ws| - 1]);
    }
  }

  /** The waiting room alone moves. */
  function Queues(rs: seq<R.Event>): seq<Event> { seq(|rs|, i requires 0 <= i < |rs| => Queue(rs[i])) }

  lemma {:induction false} QueuesRun(gate: bool, s: State, rs: seq<R.Event>)
    ensures Run(gate, s, Queues(rs)) == s.(room := R.Run(s.room, rs))
    decreases |rs|
  {
    if rs != [] {
      QueuesRun(gate, s, rs[..|rs| - 1]);
      assert Queues(rs)[..|rs| - 1] == Queues(rs[..|rs| - 1]);
    }
  }

  /** A purchase that meets no fault. */
  function Sale(o: Order, presented: string): seq<Event> {
    [Enter(o, presented), Buy(o.id, I.Decr(Done)), Buy(o.id, I.Publish(Done))]
  }

  lemma SaleEnds(gate: bool, s: State, o: Order, presented: string)
    requires LetIn(gate, s, o, presented) && o.id !in s.buy.requests && o.id !in s.buy.sent
    requires o.quantity <= s.buy.Value()
    ensures var left := s.buy.Value() - o.quantity;
            Run(gate, s, Sale(o, presented))
            == State(I.State(Some(left), s.buy.version + 1, s.buy.requests[o.id := I.Request(o, I.Accepted(left))],
                             s.buy.sent[o.id := o]),
                     W.Step(s.work, W.Send(o)), s.room)
  {
    var es := Sale(o, presented);
    var left := s.buy.Value() - o.quantity;
    assert es[..1] == [] + [es[0]] && es[..2] == es[..1] + [es[1]] && es == es[..2] + [es[2]];
    RunSnoc(gate, s, [], es[0]);
    var entered := s.buy.(requests := s.buy.requests[o.id := I.Request(o, I.Idle)]);
    assert Run(gate, s, es[..1]) == s.(buy := entered);
    RunSnoc(gate, s, es[..1], es[1]);
    SaleReserves(gate, s.(buy := entered), o, left);
    var reserved := entered.requests[o.id := I.Request(o, I.Held(left))];
    var held := I.State(Some(left), s.buy.version + 1, reserved, s.buy.sent);
    RunSnoc(gate, s, es[..2], es[2]);
    SalePublishes(gate, s.(buy := held), o, left);
    assert held.requests[o.id := I.Request(o, I.Accepted(left))]
           == s.buy.requests[o.id := I.Request(o, I.Accepted(left))];
  }

  lemma SaleReserves(gate: bool, s: State, o: Order, left: int)
    requires o.id in s.buy.requests && s.buy.requests[o.id] == I.Request(o, I.Idle) && o.id !in s.buy.sent
    requires o.quantity >= 1 && left == s.buy.Value() - o.quantity >= 0
    ensures Step(gate, s, Buy(o.id, I.Decr(Done)))
            == s.(buy := I.State(Some(left), s.buy.version + 1,
                                 s.buy.requests[o.id := I.Request(o, I.Held(left))], s.buy.sent))
  {}

  lemma SalePublishes(gate: bool, s: State, o: Order, left: int)
    requires o.id in s.buy.requests && s.buy.requests[o.id] == I.Request(o, I.Held(left))
    ensures Step(gate, s, Buy(o.id, I.Publish(Done)))
            == State(s.buy.(requests := s.buy.requests[o.id := I.Request(o, I.Accepted(left))],
                            sent := s.buy.sent[o.id := o]),
                     W.Step(s.work, W.Send(o)), s.room)
  {}

  predicate ForThisSale(s: I.State) { forall c :: c in s.requests ==> s.requests[c].order.item == SaleItem }

  predicate TokensIssued(s: R.Stores) { forall u :: u in s.tokens ==> u in s.issued }

  /** Every request that got past the gate came from someone with a token. */
  predicate Guarded(s: State) {
    forall c :: c in s.buy.requests ==> s.buy.requests[c].order.user in s.room.stores.issued
  }

  ghost predicate Inv(gate: bool, s: State) {
    && I.Inv(s.buy) && ForThisSale(s.buy)
    && W.Inv(s.work)
    && s.work.stores.sent == s.buy.sent
    && TokensIssued(s.room.stores)
    && (gate ==> Guarded(s))
  }

  predicate NoRestock(es: seq<Event>) { forall i :: 0 <= i < |es| ==> !es[i].Restock? }

  lemma EnterKeepsInv(gate: bool, s: State, o: Order, presented: string)
    requires Inv(gate, s)
    ensures var t := Step(gate, s, Enter(o, presented));
            && I.Inv(t.buy) && ForThisSale(t.buy) && t.buy.sent == s.buy.sent && (gate ==> Guarded(t))
            && I.Ledger(t.buy) == I.Ledger(s.buy)
  {
    I.StepKeepsInv(s.buy, I.Arrive(o));
    I.StepConserves(s.buy, I.Arrive(o));
  }

  lemma BuyKeepsOrders(s: I.State, c: OrderId, act: I.Act)
    ensures var t := I.Step(s, I.Do(c, act));
            && t.requests.Keys == s.requests.Keys
            && forall k :: k in s.requests ==> t.requests[k].order == s.requests[k].order
  {}

  /** What a step publishes is exactly what the queue receives. */
  lemma BuySends(s: I.State, c: OrderId, act: I.Act)
    requires I.Inv(s)
    ensures var t := I.Step(s, I.Do(c, act));
            t.sent == if c in t.sent && c !in s.sent then s.sent[c := t.sent[c]] else s.sent
    ensures var t := I.Step(s, I.Do(c, act)); c in t.sent ==> t.sent[c].id == c
  {
    if c in s.requests {
      assert I.RequestOk(s, c);
      I.OutcomeBalances(s.Value(), s.version, s.requests[c].order, s.requests[c].pc, act);
    }
  }

  lemma BuyKeepsInv(gate: bool, s: State, c: OrderId, act: I.Act)
    requires Inv(gate, s)
    ensures Inv(gate, Step(gate, s, Buy(c, act)))
    ensures I.Ledger(Step(gate, s, Buy(c, act)).buy) == I.Ledger(s.buy)
  {
    I.StepKeepsInv(s.buy, I.Do(c, act));
    I.StepConserves(s.buy, I.Do(c, act));
    BuyKeepsOrders(s.buy, c, act);
    BuySends(s.buy, c, act);
    var buy := I.Step(s.buy, I.Do(c, act));
    if c in buy.sent { W.StepKeepsInv(s.work, W.Send(buy.sent[c])); }
  }

  lemma WorkKeepsSent(s: W.State, w: W.WorkerId, job: W.Act)
    ensures W.Step(s, W.Do(w, job)).stores.sent == s.stores.sent
  {}

  lemma QueueKeepsIssued(s: R.State, e: R.Event)
    requires TokensIssued(s.stores)
    ensures TokensIssued(R.Step(s, e).stores) && s.stores.issued <= R.Step(s, e).stores.issued
  {}

  lemma StepKeepsInv(gate: bool, s: State, e: Event)
    requires Inv(gate, s) && !e.Restock?
    ensures Inv(gate, Step(gate, s, e)) && I.Ledger(Step(gate, s, e).buy) == I.Ledger(s.buy)
  {
    match e {
      case Enter(o, presented) => EnterKeepsInv(gate, s, o, presented);
      case Buy(c, act) => BuyKeepsInv(gate, s, c, act);
      case Work(w, job) => W.StepKeepsInv(s.work, W.Do(w, job)); WorkKeepsSent(s.work, w, job);
      case Queue(r) => QueueKeepsIssued(s.room, r);
    }
  }

  lemma {:induction false} RunKeepsInv(gate: bool, stock: nat, es: seq<Event>)
    requires NoRestock(es)
    ensures Inv(gate, Run(gate, Start(stock), es)) && I.Ledger(Run(gate, Start(stock), es).buy) == stock
    decreases |es|
  {
    if es == [] {
      IL.StartInv(stock);
      WL.StartInv();
    } else {
      RunKeepsInv(gate, stock, es[..|es| - 1]);
      StepKeepsInv(gate, Run(gate, Start(stock), es[..|es| - 1]), es[|es| - 1]);
    }
  }

  // ---------------------------------------------------------------- conservation, end to end

  ghost function TableUnits(s: State): int { Total(s.work.stores.table, Units) }

  /** Every published order has been acknowledged. */
  predicate Drained(s: State) { s.buy.sent.Keys <= s.work.stores.deleted }

  /** No request owes a compensation, holds units or owes a rollback. */
  predicate Settled(s: State) {
    forall c :: c in s.buy.requests ==> var pc := s.buy.requests[c].pc; !(pc.Losing? || pc.Held? || pc.Rolling?)
  }

  predicate FaultFree(s: State) {
    forall c :: c in s.buy.requests ==> !(s.buy.requests[c].pc.Leaked? || s.buy.requests[c].pc.Credited?)
  }

  lemma TableWithinSent(s: State)
    requires W.Inv(s.work) && s.work.stores.sent == s.buy.sent
    ensures s.work.stores.table.Keys <= s.buy.sent.Keys
    ensures forall id :: id in s.work.stores.table ==> s.work.stores.table[id] == s.buy.sent[id]
    ensures Drained(s) ==> s.work.stores.table == s.buy.sent
  {
    var db := s.work.stores;
    assert forall id :: id in db.table ==> W.Genuine(db, db.table[id]);
  }

  lemma TableUnitsWithinSent(s: State)
    requires Inv(false, s)
    ensures TableUnits(s) <= I.SentUnits(s.buy)
  {
    TableWithinSent(s);
    forall id | id in s.buy.sent ensures Units(s.buy.sent[id]) >= 0 { assert I.RequestOk(s.buy, id); }
    TotalPart(s.work.stores.table, s.buy.sent, Units);
  }

  /** At every instant of every run the stock is accounted for across the services, and the orders table
      never holds more than the stock, but for what faulty rollbacks credited. */
  lemma AccountedAtEveryInstant(gate: bool, stock: nat, es: seq<Event>)
    requires NoRestock(es)
    ensures var s := Run(gate, Start(stock), es);
            && s.buy.Value() + I.Debts(s.buy) + I.Holds(s.buy) + I.SentUnits(s.buy) + I.Leaks(s.buy)
               == stock + I.Credits(s.buy)
            && TableUnits(s) <= I.SentUnits(s.buy) <= stock + I.Credits(s.buy)
            && (FaultFree(s) ==> TableUnits(s) <= stock)
  {
    RunKeepsInv(gate, stock, es);
    var s := Run(gate, Start(stock), es);
    TableUnitsWithinSent(s);
    assert forall c :: c in s.buy.requests ==> I.RequestOk(s.buy, c);
    I.DebtsAndLeaksNonNegative(s.buy);
    if FaultFree(s) { TotalZero(s.buy.requests, I.CreditOf); }
  }

  lemma SettledTotals(s: State)
    requires Settled(s)
    ensures I.Debts(s.buy) == 0 && I.Holds(s.buy) == 0
    ensures FaultFree(s) ==> I.Leaks(s.buy) == 0 && I.Credits(s.buy) == 0
  {
    TotalZero(s.buy.requests, I.DebtOf);
    TotalZero(s.buy.requests, I.HoldOf);
    if FaultFree(s) {
      TotalZero(s.buy.requests, I.LeakOf);
      TotalZero(s.buy.requests, I.CreditOf);
    }
  }

  /** End-to-end conservation: once every request is answered and the queue drained, what remains and
      what the orders table holds make up the stock, but for units leaked or credited by faults; and
      without such faults they make up exactly the stock. */
  lemma Conservation(gate: bool, stock: nat, es: seq<Event>)
    requires NoRestock(es)
    requires var s := Run(gate, Start(stock), es); Drained(s) && Settled(s)
    ensures var s := Run(gate, Start(stock), es);
            && s.buy.Value() + TableUnits(s) == stock + I.Credits(s.buy) - I.Leaks(s.buy)
            && (FaultFree(s) ==> s.buy.Value() + TableUnits(s) == stock && s.buy.Value() >= 0)
  {
    RunKeepsInv(gate, stock, es);
    var s := Run(gate, Start(stock), es);
    TableWithinSent(s);
    SettledTotals(s);
  }

  /** A purchase by a customer whose name is all blanks passes the API, which only refuses the empty name,
      but not the worker: its order is never stored and the queue never drains. */
  lemma BlankCustomerBlocksDrain(gate: bool, stock: nat, es: seq<Event>, id: OrderId)
    requires NoRestock(es)
    requires var s := Run(gate, Start(stock), es); id in s.buy.sent && W.Blank(s.buy.sent[id].user)
    ensures var s := Run(gate, Start(stock), es); id !in s.work.stores.table && !Drained(s)
  {
    RunKeepsInv(gate, stock, es);
    var db := Run(gate, Start(stock), es).work.stores;
    assert id in db.table ==> W.Genuine(db, db.table[id]);
  }

  lemma StepKeepsSent(gate: bool, s: State, e: Event, id: OrderId)
    requires I.Inv(s.buy) && id in s.buy.sent
    ensures var t := Step(gate, s, e); id in t.buy.sent && t.buy.sent[id] == s.buy.sent[id]
  {
    if e.Buy? { BuySends(s.buy, e.who, e.act); }
  }

  lemma {:induction false} SentStays(gate: bool, s: State, es: seq<Event>, id: OrderId)
    requires Inv(gate, s) && NoRestock(es) && id in s.buy.sent
    ensures var t := Run(gate, s, es); Inv(gate, t) && id in t.buy.sent && t.buy.sent[id] == s.buy.sent[id]
    decreases |es|
  {
    if es != [] {
      var before := es[..|es| - 1];
      SentStays(gate, s, before, id);
      StepKeepsInv(gate, Run(gate, s, before), es[|es| - 1]);
      StepKeepsSent(gate, Run(gate, s, before), es[|es| - 1], id);
    }
  }

  ghost predicate CanDrain(gate: bool, s: State) { exists es :: NoRestock(es) && Drained(Run(gate, s, es)) }

  lemma SentIsWellFormed(gate: bool, s: State, id: OrderId)
    requires Inv(gate, s) && id in s.buy.sent
    ensures W.WellFormed(s.work.stores.sent[id]) <==> !W.Blank(s.buy.sent[id].user)
  {
    assert I.RequestOk(s.buy, id);
    assert SaleItem[0] == 'f';
  }

  /** At every point of every run the queue can still drain exactly when no published order is from a customer
      whose name is all blanks. */
  lemma DrainableIff(gate: bool, stock: nat, es: seq<Event>)
    requires NoRestock(es)
    ensures var s := Run(gate, Start(stock), es);
            CanDrain(gate, s) <==> forall id :: id in s.buy.sent ==> !W.Blank(s.buy.sent[id].user)
  {
    var s := Run(gate, Start(stock), es);
    RunKeepsInv(gate, stock, es);
    if id :| id in s.buy.sent && W.Blank(s.buy.sent[id].user) {
      forall fs | NoRestock(fs) ensures !Drained(Run(gate, s, fs)) {
        SentStays(gate, s, fs, id);
        SentIsWellFormed(gate, Run(gate, s, fs), id);
        var db := Run(gate, s, fs).work.stores;
        assert id in db.table ==> W.Genuine(db, db.table[id]);
      }
    } else {
      forall id | id in s.buy.sent ensures W.WellFormed(s.work.stores.sent[id]) { SentIsWellFormed(gate, s, id); }
      var ws := D.CanDrain(s.work);
      WorksRun(gate, s, ws);
      assert NoRestock(Works(ws)) && Drained(Run(gate, s, Works(ws)));
    }
  }

  /** And such an order does get out: the API accepts it, and then the queue can never drain. */
  lemma BlankCustomerIsAccepted(stock: nat, o: Order)
    requires W.Blank(o.user) && o.user != "" && o.item == SaleItem && 1 <= o.quantity <= stock
    ensures exists es :: NoRestock(es) && var s := Run(false, Start(stock), es);
              && o.id in s.buy.requests && s.buy.requests[o.id].pc.Accepted?
              && !CanDrain(false, s)
  {
    var es := Sale(o, "");
    SaleEnds(false, Start(stock), o, "");
    DrainableIff(false, stock, es);
    assert o.id in Run(false, Start(stock), es).buy.sent;
  }

  lemma StoredWasAttempted(s: State, id: OrderId)
    requires Inv(false, s) && Drained(s) && id in s.work.stores.table
    ensures s.work.stores.table[id] in W.OnItem(s.work.stores.tried, SaleItem)
  {
    var db := s.work.stores;
    TableWithinSent(s);
    W.OnItemIs(db.tried, SaleItem);
    assert id in db.deleted && I.RequestOk(s.buy, id);
    assert db.table[id].item == SaleItem && db.table[id] in db.tried;
  }

  lemma AttemptedIsTable(s: State)
    requires Inv(false, s) && Drained(s)
    ensures var tries := W.OnItem(s.work.stores.tried, SaleItem);
            Consistent(tries) && Distinct(tries) == s.work.stores.table
  {
    var db := s.work.stores;
    var tries := W.OnItem(db.tried, SaleItem);
    WL.AttemptsConsistent(db, SaleItem);
    W.OnItemIs(db.tried, SaleItem);
    DistinctIs(tries);
    forall id | id in db.table ensures id in Distinct(tries) && Distinct(tries)[id] == db.table[id] {
      StoredWasAttempted(s, id);
      assert W.Genuine(db, db.table[id]) && db.table[id].id == id;
    }
    forall id | id in Distinct(tries) ensures id in db.table {
      assert Distinct(tries)[id] in db.tried;
    }
  }

  /** The consistency check, remaining + confirmed_orders == INVENTORY_COUNT, after a drained, settled,
      fault-free sale: it never reports lost orders, and it passes exactly when no order's counter
      updates were separated by another order's. */
  lemma ConsistencyCheck(gate: bool, stock: nat, es: seq<Event>)
    requires NoRestock(es)
    requires var s := Run(gate, Start(stock), es); Drained(s) && Settled(s) && FaultFree(s)
    ensures var s := Run(gate, Start(stock), es);
            var confirmed := s.work.stores.RowOf(SaleItem).confirmed;
            && s.buy.Value() + confirmed >= stock
            && (s.buy.Value() + confirmed == stock <==> Contiguous(W.OnItem(s.work.stores.tried, SaleItem)))
  {
    Conservation(gate, stock, es);
    RunKeepsInv(gate, stock, es);
    var s := Run(gate, Start(stock), es);
    AttemptedIsTable(s);
    assert W.RowOk(s.work.stores, SaleItem);
    ExactOnceIffContiguous(W.OnItem(s.work.stores.tried, SaleItem));
  }

  /** Two sales, and then the first order's counter update loses its reply and is retried after the second's. */
  function OverreportingSale(a: Order, b: Order): seq<Event> {
    Sale(a, "") + Sale(b, "") + Works(D.CountTwice(a.id, b.id))
  }

  predicate SoldTogether(stock: nat, a: Order, b: Order) {
    && !W.Blank(a.user) && !W.Blank(b.user) && a.item == SaleItem == b.item && a.id != b.id
    && a.quantity >= 1 && b.quantity >= 1 && a.quantity + b.quantity <= stock
  }

  lemma FirstSaleEnds(stock: nat, a: Order)
    requires !Api.Malformed(a) && a.item == SaleItem && a.quantity <= stock
    ensures var left := stock - a.quantity;
            Run(false, Start(stock), Sale(a, ""))
            == State(I.State(Some(left), 1, map[a.id := I.Request(a, I.Accepted(left))], map[a.id := a]),
                     W.Step(W.Start(), W.Send(a)), R.Start())
  {
    SaleEnds(false, Start(stock), a, "");
  }

  lemma TwoSalesEnd(stock: nat, a: Order, b: Order)
    requires SoldTogether(stock, a, b)
    ensures var left := stock - a.quantity;
            var s := Run(false, Start(stock), Sale(a, "") + Sale(b, ""));
            && s.buy == I.State(Some(left - b.quantity), 2,
                                map[a.id := I.Request(a, I.Accepted(left)),
                                    b.id := I.Request(b, I.Accepted(left - b.quantity))],
                                map[a.id := a, b.id := b])
            && s.work == W.Step(W.Step(W.Start(), W.Send(a)), W.Send(b))
  {
    FirstSaleEnds(stock, a);
    SaleEnds(false, Run(false, Start(stock), Sale(a, "")), b, "");
    RunAppend(false, Start(stock), Sale(a, ""), Sale(b, ""));
  }

  /** Both orders are out, and no worker has moved yet. */
  ghost predicate JustSold(s: State, stock: nat, a: Order, b: Order) {
    && Inv(false, s) && Settled(s) && FaultFree(s)
    && s.buy.Value() == stock - a.quantity - b.quantity
    && s.buy.sent == map[a.id := a, b.id := b]
    && s.work.stores.tried == [] && s.work.workers == map[]
  }

  lemma TwoSalesInv(stock: nat, a: Order, b: Order)
    ensures NoRestock(Sale(a, "") + Sale(b, "")) && Inv(false, Run(false, Start(stock), Sale(a, "") + Sale(b, "")))
  {
    RunKeepsInv(false, stock, Sale(a, "") + Sale(b, ""));
  }

  lemma TwoSales(stock: nat, a: Order, b: Order)
    requires SoldTogether(stock, a, b)
    ensures JustSold(Run(false, Start(stock), Sale(a, "") + Sale(b, "")), stock, a, b)
  {
    TwoSalesInv(stock, a, b);
    TwoSalesEnd(stock, a, b);
  }

  ghost predicate Overreports(s: State, stock: nat, excess: int) {
    Drained(s) && Settled(s) && FaultFree(s)
    && s.buy.Value() + s.work.stores.RowOf(SaleItem).confirmed == stock + excess
  }

  lemma OverreportsFrom(s: State, stock: nat, a: Order, b: Order)
    requires SoldTogether(stock, a, b) && JustSold(s, stock, a, b)
    ensures Overreports(s.(work := W.Run(s.work, D.CountTwice(a.id, b.id))), stock, a.quantity)
  {
    SentIsWellFormed(false, s, a.id);
    SentIsWellFormed(false, s, b.id);
    D.RetryDoubleCounts(s.work, a, b);
  }

  lemma ThenWork(stock: nat, es: seq<Event>, ws: seq<W.Event>)
    requires NoRestock(es) && D.OnlyWork(ws)
    ensures var s := Run(false, Start(stock), es);
            Run(false, Start(stock), es + Works(ws)) == s.(work := W.Run(s.work, ws))
    ensures NoRestock(es + Works(ws))
  {
    WorksRun(false, Run(false, Start(stock), es), ws);
    RunAppend(false, Start(stock), es, Works(ws));
  }

  lemma ThenOverreports(stock: nat, es: seq<Event>, a: Order, b: Order)
    requires SoldTogether(stock, a, b) && NoRestock(es) && JustSold(Run(false, Start(stock), es), stock, a, b)
    ensures var ws := Works(D.CountTwice(a.id, b.id));
            NoRestock(es + ws) && Overreports(Run(false, Start(stock), es + ws), stock, a.quantity)
  {
    OverreportsFrom(Run(false, Start(stock), es), stock, a, b);
    ThenWork(stock, es, D.CountTwice(a.id, b.id));
  }

  /** The failing side of the consistency check: for any two orders that fit the stock there is a drained,
      settled, fault-free sale in which it comes out too high by the first order's quantity. */
  lemma ConsistencyCheckOverreports(stock: nat, a: Order, b: Order)
    requires SoldTogether(stock, a, b)
    ensures var es := OverreportingSale(a, b); var s := Run(false, Start(stock), es);
            NoRestock(es) && Overreports(s, stock, a.quantity)
  {
    TwoSales(stock, a, b);
    TwoSalesInv(stock, a, b);
    ThenOverreports(stock, Sale(a, "") + Sale(b, ""), a, b);
  }

  // ---------------------------------------------------------------- admission, end to end

  function QueueEvents(es: seq<Event>): seq<R.Event> {
    if es == [] then [] else
    QueueEvents(es[..|es| - 1]) + if es[|es| - 1].Queue? then [es[|es| - 1].event] else []
  }

  lemma StepRoom(gate: bool, s: State, e: Event)
    ensures Step(gate, s, e).room == if e.Queue? then R.Step(s.room, e.event) else s.room
  {}

  lemma {:induction false} RoomRuns(gate: bool, s: State, es: seq<Event>)
    ensures Run(gate, s, es).room == R.Run(s.room, QueueEvents(es))
    decreases |es|
  {
    if es != [] {
      var before := es[..|es| - 1];
      RoomRuns(gate, s, before);
      StepRoom(gate, Run(gate, s, before), es[|es| - 1]);
      if es[|es| - 1].Queue? { R.RunSnoc(s.room, QueueEvents(before), es[|es| - 1].event); }
      assert QueueEvents(before) + [] == QueueEvents(before);
    }
  }

  /** What the gate decides: a purchase that comes in becomes a request exactly when it is well formed and, with the
      gate on, presents the non-empty token that is stored for its customer at that instant. */
  lemma EntersIff(gate: bool, s: State, o: Order, presented: string)
    requires o.id !in s.buy.requests
    ensures o.id in Step(gate, s, Enter(o, presented)).buy.requests
            <==> o.user != "" && o.quantity >= 1 && o.item == SaleItem
                 && (gate ==> presented != "" && o.user in s.room.stores.tokens
                              && s.room.stores.tokens[o.user] == presented)
  {}

  /** At step k of the run the order came in with the token then stored for its customer. */
  predicate EnteredAt(stock: nat, es: seq<Event>, k: nat, o: Order) {
    && k < |es| && es[k].Enter? && es[k].order == o
    && var tokens := Run(true, Start(stock), es[..k]).room.stores.tokens;
       es[k].presented != "" && o.user in tokens && tokens[o.user] == es[k].presented
  }

  lemma StepEnters(s: State, e: Event, c: OrderId)
    requires c in Step(true, s, e).buy.requests && forall k :: k in s.buy.requests ==> s.buy.requests[k].order.id == k
    ensures c in s.buy.requests ==> Step(true, s, e).buy.requests[c].order == s.buy.requests[c].order
    ensures c !in s.buy.requests ==>
              && e.Enter? && e.order.id == c && Step(true, s, e).buy.requests[c].order == e.order
              && e.presented != "" && e.order.user in s.room.stores.tokens
              && s.room.stores.tokens[e.order.user] == e.presented
  {}

  /** With the gate on, every request of every run came in with the token then stored for its customer. */
  lemma {:induction false} EveryRequestHadAToken(stock: nat, es: seq<Event>, c: OrderId)
    requires NoRestock(es) && c in Run(true, Start(stock), es).buy.requests
    ensures exists k: nat :: EnteredAt(stock, es, k, Run(true, Start(stock), es).buy.requests[c].order)
    decreases |es|
  {
    var n := |es| - 1;
    var before, e := es[..n], es[n];
    var s := Run(true, Start(stock), before);
    RunKeepsInv(true, stock, before);
    assert forall k :: k in s.buy.requests ==> I.RequestOk(s.buy, k);
    StepEnters(s, e, c);
    if c in s.buy.requests {
      EveryRequestHadAToken(stock, before, c);
      var k: nat :| EnteredAt(stock, before, k, s.buy.requests[c].order);
      assert before[..k] == es[..k];
      assert EnteredAt(stock, es, k, s.buy.requests[c].order);
    } else {
      assert EnteredAt(stock, es, n, e.order);
    }
  }

  /** The customers whose purchases were accepted. */
  function Buyers(s: I.State): set<string> {
    set c | c in s.requests && s.requests[c].pc.Accepted? :: s.requests[c].order.user
  }

  /** With the gate on and the queue scored by sequence number, every customer with an accepted purchase
      is among the first `admitted` to have joined the waiting room. */
  lemma BuyersWereAdmitted(stock: nat, es: seq<Event>)
    requires NoRestock(es) && RL.AllSequenced(QueueEvents(es))
    ensures var s := Run(true, Start(stock), es); var room := s.room.stores;
            && Buyers(s.buy) <= RL.SetOf(RL.UpTo(RL.FirstOf(room.arrivals), room.admitted))
            && |Buyers(s.buy)| <= room.admitted
  {
    RunKeepsInv(true, stock, es);
    RoomRuns(true, Start(stock), es);
    RL.AdmissionCap(QueueEvents(es));
    var s := Run(true, Start(stock), es);
    assert Buyers(s.buy) <= s.room.stores.issued;
    SubsetSizes(Buyers(s.buy), s.room.stores.issued);
  }

  /** A reset of the queue ends this: whoever still holds a token then can buy while nobody is admitted. */
  lemma OldTokenBuys(s: State, o: Order)
    requires o.user in s.room.stores.tokens && s.room.stores.tokens[o.user] != ""
    requires !Api.Malformed(o) && o.item == SaleItem && o.quantity <= s.buy.Value()
    requires o.id !in s.buy.requests && o.id !in s.buy.sent
    ensures var t := Run(true, s, [Queue(R.Reset)] + Sale(o, s.room.stores.tokens[o.user]));
            && t.room.stores.admitted == 0
            && o.id in t.buy.requests && t.buy.requests[o.id].order == o && t.buy.requests[o.id].pc.Accepted?
  {
    var reset := Step(true, s, Queue(R.Reset));
    assert [] + [Queue(R.Reset)] == [Queue(R.Reset)];
    RunSnoc(true, s, [], Queue(R.Reset));
    RunAppend(true, s, [Queue(R.Reset)], Sale(o, s.room.stores.tokens[o.user]));
    SaleEnds(true, reset, o, s.room.stores.tokens[o.user]);
  }

  /** Such a run for any customer, from the start: with the gate on there is a buyer and nobody is admitted. */
  lemma BuyerWithNobodyAdmitted(stock: nat, o: Order)
    requires !Api.Malformed(o) && o.item == SaleItem && o.quantity <= stock
    ensures exists es :: NoRestock(es) && var s := Run(true, Start(stock), es);
              o.user in Buyers(s.buy) && s.room.stores.admitted == 0
  {
    var rs := RW.TwoCallsCleared(o.user);
    rs := RW.Granted(rs, R.Run(R.Start(), rs), 0, o.user, "a");
    QueuesRun(true, Start(stock), rs);
    var s := Run(true, Start(stock), Queues(rs));
    OldTokenBuys(s, o);
    var fs := [Queue(R.Reset)] + Sale(o, s.room.stores.tokens[o.user]);
    RunAppend(true, Start(stock), Queues(rs), fs);
    assert NoRestock(Queues(rs) + fs);
  }
}
