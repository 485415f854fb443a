/**
 The order worker: at-least-once delivery into two separate conditional writes.

 Any number of workers receive messages from SQS, insert the order if it is absent, bump the audit
 row, count the outcome and delete the message. A message can be delivered again at any time, also
 after it was deleted; a worker can stop between any two steps; a write that reports an error may
 have been applied. As in `Inventory`, an event that does not fit changes nothing.
 */
module OrderWorker {
  import opened Domain
  import opened AuditCounter

  type WorkerId = nat

  datatype Pc =
    | Free
    | Saving(order: Order)                    // about to PutItem
    | Stored(order: Order, inserted: bool)    // about to UpdateItem
    | Failing(order: Order)                   // SaveOrder returned an error
    | Saved(order: Order, inserted: bool)     // SaveOrder succeeded, metric not yet bumped
    | Counted(order: Order)                   // about to DeleteMessage

  /** Everything the workers share. */
  datatype Stores = Stores(
    sent: map<OrderId, Order>,      // every message SQS ever held
    deleted: set<OrderId>,          // those acknowledged
    table: map<OrderId, Order>,     // the orders table
    audit: map<string, Row>,        // the inventory audit table
    tried: seq<Order>,              // the counter updates that reached it, in order
    confirmed: seq<OrderId>,        // the orders behind the confirmed metric
    duplicates: nat                 // the duplicate metric
  ) {
    function RowOf(item: string): Row { if item in audit then audit[item] else NoRow }
  }

  datatype State = State(stores: Stores, workers: map<WorkerId, Pc>) {
    function PcOf(w: WorkerId): Pc { if w in workers then workers[w] else Free }
  }

  datatype Act =
    | Receive(id: OrderId)
    | Put(fate: Fate)
    | Update(fate: Fate)
    | Again
    | Count
    | Delete(fate: Fate)
    | Drop

  datatype Event = Send(order: Order) | Do(who: WorkerId, act: Act)

  /** The characters strings.TrimSpace removes. */
  predicate IsSpace(c: char) {
    c in {'\t', '\n', '\U{000B}', '\U{000C}', '\r', ' ', '\U{0085}', '\U{00A0}', '\U{1680}', '\U{2028}', '\U{2029}',
          '\U{202F}', '\U{205F}', '\U{3000}'} || '\U{2000}' <= c <= '\U{200A}'
  }

  /** By code point: the control characters from tab to carriage return, the blank, and the other blanks of Unicode. */
  lemma SpaceByCodePoint(c: char)
    ensures IsSpace(c) <==>
              || 9 <= c as int <= 13 || c as int == 32 || c as int == 0x85 || c as int == 0xA0 || c as int == 0x1680
              || 0x2000 <= c as int <= 0x200A || c as int == 0x2028 || c as int == 0x2029 || c as int == 0x202F
              || c as int == 0x205F || c as int == 0x3000
  {}

  predicate Blank(s: string) { forall i :: 0 <= i < |s| ==> IsSpace(s[i]) }

  /** Validate, except for the order id and the timestamp, which the publisher always supplies. */
  predicate WellFormed(o: Order) { !Blank(o.user) && !Blank(o.item) && o.quantity >= 1 }

  function PutItem(s: Stores, o: Order, f: Fate): (Stores, Pc) {
    if f.NotApplied? then (s, Failing(o)) else
    var absent := o.id !in s.table;
    var t := if absent then s.(table := s.table[o.id := o]) else s;
    (t, if f.Done? then Stored(o, absent) else Failing(o))
  }

  function UpdateItem(s: Stores, o: Order, inserted: bool, f: Fate): (Stores, Pc) {
    if f.NotApplied? then (s, Failing(o)) else
    var t := s.(audit := s.audit[o.item := Bump(s.RowOf(o.item), o)], tried := s.tried + [o]);
    (t, if f.Done? then Saved(o, inserted) else Failing(o))
  }

  function CountOutcome(s: Stores, o: Order, inserted: bool): (Stores, Pc) {
    (if inserted then s.(confirmed := s.confirmed + [o.id]) else s.(duplicates := s.duplicates + 1), Counted(o))
  }

  function DeleteMessage(s: Stores, o: Order, f: Fate): (Stores, Pc) {
    (if f.NotApplied? then s else s.(deleted := s.deleted + {o.id}), if f.Done? then Free else Counted(o))
  }

  /** What one act of a worker at `pc` does to the stores, and where the worker is then. */
  function Outcome(s: Stores, pc: Pc, act: Act): (Stores, Pc) {
    match act
    case Receive(id) => if pc.Free? && id in s.sent && WellFormed(s.sent[id]) then (s, Saving(s.sent[id])) else (s, pc)
    case Put(f) => if pc.Saving? then PutItem(s, pc.order, f) else (s, pc)
    case Update(f) => if pc.Stored? then UpdateItem(s, pc.order, pc.inserted, f) else (s, pc)
    case Again => (s, if pc.Failing? then Saving(pc.order) else pc)
    case Count => if pc.Saved? then CountOutcome(s, pc.order, pc.inserted) else (s, pc)
    case Delete(f) => if pc.Counted? then DeleteMessage(s, pc.order, f) else (s, pc)
    case Drop => (s, Free)
  }

  function Deliver(s: Stores, o: Order): Stores { if o.id in s.sent then s else s.(sent := s.sent[o.id := o]) }

  function Step(s: State, e: Event): State {
    match e
    case Send(o) => s.(stores := Deliver(s.stores, o))
    case Do(w, act) => var (t, pc) := Outcome(s.stores, s.PcOf(w), act); State(t, s.workers[w := pc])
  }

  function Run(s: State, es: seq<Event>): State {
    if es == [] then s else Step(Run(s, es[..|es| - 1]), es[|es| - 1])
  }

  function Start(): State { State(Stores(map[], {}, map[], map[], [], [], 0), map[]) }

  lemma RunSnoc(s: State, es: seq<Event>, e: Event)
    ensures Run(s, es + [e]) == Step(Run(s, es), e)
  {
    assert (es + [e])[..|es|] == es;
  }

  lemma {:induction false} RunAppend(s: State, es: seq<Event>, fs: seq<Event>)
    ensures Run(s, es + fs) == Run(Run(s, es), fs)
    decreases |fs|
  {
    if fs == [] {
      assert es + fs == es;
    } else {
      assert es + fs == (es + fs[..|fs| - 1]) + [fs[|fs| - 1]];
      RunSnoc(s, es + fs[..|fs| - 1], fs[|fs| - 1]);
      RunAppend(s, es, fs[..|fs| - 1]);
    }
  }

  lemma RunCons(s: State, e: Event, es: seq<Event>)
    ensures Run(s, [e] + es) == Run(Step(s, e), es)
  {
    assert [] + [e] == [e];
    RunSnoc(s, [], e);
    RunAppend(s, [e], es);
  }

  /** The attempts on one item. */
  function OnItem(tries: seq<Order>, item: string): seq<Order> {
    if tries == [] then [] else
    OnItem(tries[..|tries| - 1], item) + if tries[|tries| - 1].item == item then [tries[|tries| - 1]] else []
  }

  lemma OnItemSnoc(tries: seq<Order>, o: Order, item: string)
    ensures OnItem(tries + [o], item) == OnItem(tries, item) + if o.item == item then [o] else []
  {
    assert (tries + [o])[..|tries|] == tries;
  }

  lemma {:induction false} OnItemIs(tries: seq<Order>, item: string)
    ensures forall o :: o in OnItem(tries, item) <==> o in tries && o.item == item
    decreases |tries|
  {
    if tries != [] {
      OnItemIs(tries[..|tries| - 1], item);
      assert tries == tries[..|tries| - 1] + [tries[|tries| - 1]];
    }
  }

  // ---------------------------------------------------------------- what every step keeps

  /** A message as it was sent, and fit to be saved. */
  predicate Genuine(s: Stores, o: Order) { o.id in s.sent && s.sent[o.id] == o && WellFormed(o) }

  ghost predicate TablesOk(s: Stores) {
    && (forall id :: id in s.sent ==> s.sent[id].id == id)
    && (forall id :: id in s.table ==> Genuine(s, s.table[id]) && s.table[id].id == id)
    && (forall o :: o in s.tried ==> o.id in s.table && s.table[o.id] == o)
    && (forall id :: id in s.deleted ==> id in s.table && s.table[id] in s.tried)
  }

  /** Every audit row is what its attempts make it. */
  ghost predicate RowsOk(s: Stores) { forall item :: RowOk(s, item) }

  predicate RowOk(s: Stores, item: string) { s.RowOf(item) == Replay(OnItem(s.tried, item)) }

  predicate PcOk(s: Stores, pc: Pc) {
    && (!pc.Free? ==> Genuine(s, pc.order))
    && (pc.Stored? || pc.Saved? || pc.Counted? ==> pc.order.id in s.table && s.table[pc.order.id] == pc.order)
    && (pc.Saved? || pc.Counted? ==> pc.order in s.tried)
  }

  ghost predicate WorkersOk(s: State) { forall w :: PcOk(s.stores, s.PcOf(w)) }

  /** The worker will count this order as confirmed if it gets that far. */
  predicate Claims(pc: Pc, id: OrderId) { (pc.Stored? || pc.Saved?) && pc.inserted && pc.order.id == id }

  predicate NoRepeats(ids: seq<OrderId>) { forall i, j :: 0 <= i < j < |ids| ==> ids[i] != ids[j] }

  ghost predicate MetricOk(s: State) {
    && NoRepeats(s.stores.confirmed)
    && (forall id :: id in s.stores.confirmed ==> id in s.stores.table)
    && (forall w, id :: Claims(s.PcOf(w), id) ==> id in s.stores.table && id !in s.stores.confirmed)
    && (forall w, v, id :: Claims(s.PcOf(w), id) && Claims(s.PcOf(v), id) ==> w == v)
  }

  ghost predicate Inv(s: State) { TablesOk(s.stores) && RowsOk(s.stores) && WorkersOk(s) && MetricOk(s) }

  /** Nothing sent, stored, attempted or acknowledged is ever taken back. */
  ghost predicate Grew(s: Stores, t: Stores) {
    && (forall id :: id in s.sent ==> id in t.sent && t.sent[id] == s.sent[id])
    && (forall id :: id in s.table ==> id in t.table && t.table[id] == s.table[id])
    && s.tried <= t.tried
    && s.deleted <= t.deleted
  }

  lemma OutcomeGrows(s: Stores, pc: Pc, act: Act)
    ensures Grew(s, Outcome(s, pc, act).0)
  {}

  lemma GrewKeepsPc(s: Stores, t: Stores, pc: Pc)
    requires Grew(s, t) && PcOk(s, pc)
    ensures PcOk(t, pc)
  {}

  lemma UpdateKeepsRow(s: Stores, o: Order, inserted: bool, f: Fate, item: string)
    requires RowOk(s, item)
    ensures RowOk(UpdateItem(s, o, inserted, f).0, item)
  {
    OnItemSnoc(s.tried, o, item);
    ReplaySnoc(OnItem(s.tried, item), o);
    assert OnItem(s.tried, item) + [] == OnItem(s.tried, item);
  }

  lemma OutcomeKeepsRows(s: Stores, pc: Pc, act: Act)
    requires RowsOk(s)
    ensures RowsOk(Outcome(s, pc, act).0)
  {
    var t := Outcome(s, pc, act).0;
    forall item ensures RowOk(t, item) {
      assert RowOk(s, item);
      if act.Update? && pc.Stored? {
        UpdateKeepsRow(s, pc.order, pc.inserted, act.fate, item);
      } else {
        assert t.audit == s.audit && t.tried == s.tried;
      }
    }
  }

  lemma OutcomeKeepsTables(s: Stores, pc: Pc, act: Act)
    requires TablesOk(s) && PcOk(s, pc)
    ensures TablesOk(Outcome(s, pc, act).0)
  {}

  lemma OutcomeKeepsPc(s: Stores, pc: Pc, act: Act)
    requires TablesOk(s) && PcOk(s, pc)
    ensures PcOk(Outcome(s, pc, act).0, Outcome(s, pc, act).1)
  {}

  lemma DeliverKeeps(s: Stores, o: Order)
    requires TablesOk(s) && RowsOk(s)
    ensures TablesOk(Deliver(s, o)) && RowsOk(Deliver(s, o)) && Grew(s, Deliver(s, o))
  {
    forall item ensures RowOk(Deliver(s, o), item) { assert RowOk(s, item); }
  }

  lemma StepKeepsTables(s: State, e: Event)
    requires TablesOk(s.stores) && RowsOk(s.stores) && WorkersOk(s)
    ensures TablesOk(Step(s, e).stores) && RowsOk(Step(s, e).stores) && WorkersOk(Step(s, e))
    ensures Grew(s.stores, Step(s, e).stores)
  {
    var t := Step(s, e);
    match e {
      case Send(o) => DeliverKeeps(s.stores, o);
      case Do(w, act) =>
        OutcomeKeepsTables(s.stores, s.PcOf(w), act);
        OutcomeKeepsRows(s.stores, s.PcOf(w), act);
        OutcomeKeepsPc(s.stores, s.PcOf(w), act);
        OutcomeGrows(s.stores, s.PcOf(w), act);
    }
    forall w ensures PcOk(t.stores, t.PcOf(w)) {
      if !(e.Do? && e.who == w) { GrewKeepsPc(s.stores, t.stores, s.PcOf(w)); }
    }
  }

  /** A claim on an order is new only when its insert has just found the order absent, and confirming
      spends the claim. */
  lemma OutcomeClaims(s: Stores, pc: Pc, act: Act)
    ensures var (t, pc') := Outcome(s, pc, act);
            && (forall id :: Claims(pc', id) ==> Claims(pc, id) || (id !in s.table && id in t.table))
            && (t.confirmed == s.confirmed
                || (pc.Saved? && t.confirmed == s.confirmed + [pc.order.id]
                    && Claims(pc, pc.order.id) && !Claims(pc', pc.order.id)))
  {}

  /** Confirming and claiming, seen from the whole system. */
  lemma StepClaims(s: State, e: Event, w: WorkerId, id: OrderId)
    requires Claims(Step(s, e).PcOf(w), id)
    ensures Claims(s.PcOf(w), id) || (e.Do? && e.who == w && id !in s.stores.table && id in Step(s, e).stores.table)
  {
    if e.Do? && e.who == w { OutcomeClaims(s.stores, s.PcOf(w), e.act); }
  }

  lemma StepConfirms(s: State, e: Event)
    requires MetricOk(s)
    ensures var t := Step(s, e);
            && NoRepeats(t.stores.confirmed)
            && forall id :: id in t.stores.confirmed && id !in s.stores.confirmed ==>
                 e.Do? && Claims(s.PcOf(e.who), id) && t.stores.table == s.stores.table && !Claims(t.PcOf(e.who), id)
  {
    if e.Do? {
      var pc := s.PcOf(e.who);
      OutcomeClaims(s.stores, pc, e.act);
      assert pc.Saved? && Claims(pc, pc.order.id) ==> pc.order.id !in s.stores.confirmed;
    }
  }

  lemma StepKeepsMetric(s: State, e: Event)
    requires Inv(s)
    ensures MetricOk(Step(s, e))
  {
    var t := Step(s, e);
    StepKeepsTables(s, e);
    StepConfirms(s, e);
    forall id | id in t.stores.confirmed ensures id in t.stores.table {
      assert id in s.stores.table;
    }
    forall w, id | Claims(t.PcOf(w), id) ensures id in t.stores.table && id !in t.stores.confirmed {
      StepClaims(s, e, w, id);
      assert id in s.stores.confirmed ==> id in s.stores.table;
    }
    forall w, v, id | Claims(t.PcOf(w), id) && Claims(t.PcOf(v), id) ensures w == v {
      StepClaims(s, e, w, id);
      StepClaims(s, e, v, id);
    }
  }

  lemma StepKeepsInv(s: State, e: Event)
    requires Inv(s)
    ensures Inv(Step(s, e)) && Grew(s.stores, Step(s, e).stores)
  {
    StepKeepsTables(s, e);
    StepKeepsMetric(s, e);
  }

  lemma {:induction false} RunKeepsInv(s: State, es: seq<Event>)
    requires Inv(s)
    ensures Inv(Run(s, es)) && Grew(s.stores, Run(s, es).stores)
    decreases |es|
  {
    if es != [] {
      RunKeepsInv(s, es[..|es| - 1]);
      StepKeepsInv(Run(s, es[..|es| - 1]), es[|es| - 1]);
    }
  }
}
