/**
 What at-least-once delivery can still do from any state: which messages can be acknowledged, when the
 queue can drain, and how an order comes to be counted twice.
 */
module Delivery {
  import opened Domain
  import opened AuditCounter
  import opened OrderWorker
  import opened OrderWorkerLaws

  // ---------------------------------------------------------------- handling one message

  /** What a save, its count and its delete leave behind when nothing fails. */
  function Handled(s: Stores, o: Order): Stores {
    var absent := o.id !in s.table;
    var saved := UpdateItem(PutItem(s, o, Done).0, o, absent, Done).0;
    DeleteMessage(CountOutcome(saved, o, absent).0, o, Done).0
  }

  function Finish(w: WorkerId): seq<Event> {
    [Do(w, Put(Done))] + ([Do(w, Update(Done))] + ([Do(w, Count)] + ([Do(w, Delete(Done))] + [])))
  }

  function Serve(w: WorkerId, id: OrderId): seq<Event> { [Do(w, Receive(id))] + Finish(w) }

  lemma StepIs(s: State, w: WorkerId, act: Act, db: Stores, pc: Pc)
    requires Outcome(s.stores, s.PcOf(w), act) == (db, pc)
    ensures Step(s, Do(w, act)) == State(db, s.workers[w := pc])
  {}

  lemma SaveEnds(s: State, w: WorkerId, o: Order, rest: seq<Event>)
    requires s.PcOf(w) == Saving(o)
    ensures var absent := o.id !in s.stores.table;
            var saved := UpdateItem(PutItem(s.stores, o, Done).0, o, absent, Done).0;
            Run(s, [Do(w, Put(Done))] + ([Do(w, Update(Done))] + rest))
            == Run(State(saved, s.workers[w := Saved(o, absent)]), rest)
  {
    var absent := o.id !in s.stores.table;
    var db := PutItem(s.stores, o, Done).0;
    var m := s.workers[w := Stored(o, absent)];
    StepIs(s, w, Put(Done), db, Stored(o, absent));
    StepIs(State(db, m), w, Update(Done), UpdateItem(db, o, absent, Done).0, Saved(o, absent));
    RunCons(State(db, m), Do(w, Update(Done)), rest);
    RunCons(s, Do(w, Put(Done)), [Do(w, Update(Done))] + rest);
    assert m[w := Saved(o, absent)] == s.workers[w := Saved(o, absent)];
  }

  lemma CountAndDeleteEnd(s: State, w: WorkerId, o: Order, inserted: bool)
    requires s.PcOf(w) == Saved(o, inserted)
    ensures Run(s, [Do(w, Count)] + ([Do(w, Delete(Done))] + []))
            == State(DeleteMessage(CountOutcome(s.stores, o, inserted).0, o, Done).0, s.workers[w := Free])
  {
    var db := CountOutcome(s.stores, o, inserted).0;
    var m := s.workers[w := Counted(o)];
    StepIs(s, w, Count, db, Counted(o));
    StepIs(State(db, m), w, Delete(Done), DeleteMessage(db, o, Done).0, Free);
    RunCons(State(db, m), Do(w, Delete(Done)), []);
    RunCons(s, Do(w, Count), [Do(w, Delete(Done))] + []);
    assert m[w := Free] == s.workers[w := Free];
  }

  lemma FinishEnds(s: State, w: WorkerId, o: Order)
    requires s.PcOf(w) == Saving(o)
    ensures Run(s, Finish(w)) == State(Handled(s.stores, o), s.workers[w := Free])
  {
    var absent := o.id !in s.stores.table;
    var saved := UpdateItem(PutItem(s.stores, o, Done).0, o, absent, Done).0;
    var m := s.workers[w := Saved(o, absent)];
    SaveEnds(s, w, o, [Do(w, Count)] + ([Do(w, Delete(Done))] + []));
    CountAndDeleteEnd(State(saved, m), w, o, absent);
    assert m[w := Free] == s.workers[w := Free];
  }

  lemma ReceiveThen(s: State, w: WorkerId, o: Order, rest: seq<Event>)
    requires s.PcOf(w) == Free && Genuine(s.stores, o)
    ensures Run(s, [Do(w, Receive(o.id))] + rest) == Run(State(s.stores, s.workers[w := Saving(o)]), rest)
  {
    StepIs(s, w, Receive(o.id), s.stores, Saving(o));
    RunCons(s, Do(w, Receive(o.id)), rest);
  }

  lemma ServeEnds(s: State, w: WorkerId, o: Order)
    requires s.PcOf(w) == Free && Genuine(s.stores, o)
    ensures Run(s, Serve(w, o.id)) == State(Handled(s.stores, o), s.workers[w := Free])
  {
    ReceiveThen(s, w, o, Finish(w));
    FinishEnds(State(s.stores, s.workers[w := Saving(o)]), w, o);
    assert s.workers[w := Saving(o)][w := Free] == s.workers[w := Free];
  }

  /** The workers move, and nothing is sent. */
  predicate OnlyWork(es: seq<Event>) { forall i :: 0 <= i < |es| ==> es[i].Do? }

  // ---------------------------------------------------------------- what can be acknowledged

  /** From any state a message that validates can be acknowledged. */
  lemma CanAcknowledge(s: State, id: OrderId) returns (es: seq<Event>)
    requires TablesOk(s.stores) && id in s.stores.sent && WellFormed(s.stores.sent[id])
    ensures OnlyWork(es) && id in Run(s, es).stores.deleted
    ensures Run(s, es).stores.sent == s.stores.sent && s.stores.deleted <= Run(s, es).stores.deleted
  {
    var w := Unused(s.workers.Keys);
    assert w !in s.workers;
    es := Serve(w, id);
    ServeEnds(s, w, s.stores.sent[id]);
  }

  /** In every run, at every point, a message can still be acknowledged exactly when it validates. */
  lemma AcknowledgeableIff(es: seq<Event>, id: OrderId)
    requires id in Run(Start(), es).stores.sent
    ensures var s := Run(Start(), es);
            (exists fs :: id in Run(s, fs).stores.deleted) <==> WellFormed(s.stores.sent[id])
  {
    var s := Run(Start(), es);
    StartInv();
    RunKeepsInv(Start(), es);
    if WellFormed(s.stores.sent[id]) {
      var fs := CanAcknowledge(s, id);
    }
    forall fs | id in Run(s, fs).stores.deleted ensures WellFormed(s.stores.sent[id]) {
      RunKeepsInv(s, fs);
      var t := Run(s, fs).stores;
      assert Genuine(t, t.table[id]) && t.table[id].id == id;
    }
  }

  /** The queue can drain when every message validates. */
  lemma {:induction false} CanDrain(s: State) returns (es: seq<Event>)
    requires Inv(s) && forall id :: id in s.stores.sent ==> WellFormed(s.stores.sent[id])
    ensures OnlyWork(es) && Run(s, es).stores.sent == s.stores.sent && s.stores.sent.Keys <= Run(s, es).stores.deleted
    decreases s.stores.sent.Keys - s.stores.deleted
  {
    es := [];
    if id :| id in s.stores.sent && id !in s.stores.deleted {
      var first := CanAcknowledge(s, id);
      var t := Run(s, first);
      RunKeepsInv(s, first);
      assert t.stores.sent.Keys - t.stores.deleted < s.stores.sent.Keys - s.stores.deleted;
      var rest := CanDrain(t);
      es := first + rest;
      RunAppend(s, first, rest);
    }
  }

  // ---------------------------------------------------------------- counted twice

  /** The counter update is applied, and its reply is lost. */
  function HalfServe(w: WorkerId, id: OrderId): seq<Event> {
    [Do(w, Receive(id))] + ([Do(w, Put(Done))] + ([Do(w, Update(ReplyLost))] + []))
  }

  function HalfHandled(s: Stores, o: Order): Stores {
    UpdateItem(PutItem(s, o, Done).0, o, o.id !in s.table, ReplyLost).0
  }

  lemma HalfSaveEnds(s: State, w: WorkerId, o: Order)
    requires s.PcOf(w) == Saving(o)
    ensures Run(s, [Do(w, Put(Done))] + ([Do(w, Update(ReplyLost))] + []))
            == State(HalfHandled(s.stores, o), s.workers[w := Failing(o)])
  {
    var absent := o.id !in s.stores.table;
    var db := PutItem(s.stores, o, Done).0;
    var m := s.workers[w := Stored(o, absent)];
    StepIs(s, w, Put(Done), db, Stored(o, absent));
    StepIs(State(db, m), w, Update(ReplyLost), HalfHandled(s.stores, o), Failing(o));
    RunCons(State(db, m), Do(w, Update(ReplyLost)), []);
    RunCons(s, Do(w, Put(Done)), [Do(w, Update(ReplyLost))] + []);
    assert m[w := Failing(o)] == s.workers[w := Failing(o)];
  }

  lemma HalfServeEnds(s: State, w: WorkerId, o: Order)
    requires s.PcOf(w) == Free && Genuine(s.stores, o)
    ensures Run(s, HalfServe(w, o.id)) == State(HalfHandled(s.stores, o), s.workers[w := Failing(o)])
  {
    ReceiveThen(s, w, o, [Do(w, Put(Done))] + ([Do(w, Update(ReplyLost))] + []));
    HalfSaveEnds(State(s.stores, s.workers[w := Saving(o)]), w, o);
    assert s.workers[w := Saving(o)][w := Failing(o)] == s.workers[w := Failing(o)];
  }

  lemma RetryEnds(s: State, w: WorkerId, o: Order)
    requires s.PcOf(w) == Failing(o)
    ensures Run(s, [Do(w, Again)] + Finish(w)) == State(Handled(s.stores, o), s.workers[w := Free])
  {
    StepIs(s, w, Again, s.stores, Saving(o));
    RunCons(s, Do(w, Again), Finish(w));
    FinishEnds(State(s.stores, s.workers[w := Saving(o)]), w, o);
    assert s.workers[w := Saving(o)][w := Free] == s.workers[w := Free];
  }

  /** Worker 0 counts a and loses the reply, worker 1 handles b, worker 0 retries a. */
  function CountTwice(a: OrderId, b: OrderId): seq<Event> {
    HalfServe(0, a) + Serve(1, b) + ([Do(0, Again)] + Finish(0))
  }

  lemma ThreeParts(s: State, a: seq<Event>, t: State, b: seq<Event>, u: State, c: seq<Event>)
    requires Run(s, a) == t && Run(t, b) == u
    ensures Run(s, a + b + c) == Run(u, c)
  {
    RunAppend(s, a, b);
    RunAppend(s, a + b, c);
  }

  lemma CountTwiceEnds(s: State, a: Order, b: Order)
    requires s.PcOf(0) == Free == s.PcOf(1) && Genuine(s.stores, a) && Genuine(s.stores, b)
    ensures Run(s, CountTwice(a.id, b.id)).stores == Handled(Handled(HalfHandled(s.stores, a), b), a)
  {
    var s1 := State(HalfHandled(s.stores, a), s.workers[0 := Failing(a)]);
    var s2 := State(Handled(s1.stores, b), s1.workers[1 := Free]);
    HalfServeEnds(s, 0, a);
    assert s1.PcOf(1) == Free && s2.PcOf(0) == Failing(a) && s1.stores.sent == s.stores.sent;
    ServeEnds(s1, 1, b);
    RetryEnds(s2, 0, a);
    ThreeParts(s, HalfServe(0, a.id), s1, Serve(1, b.id), s2, [Do(0, Again)] + Finish(0));
  }

  lemma CountTwiceLeaves(s: Stores, a: Order, b: Order)
    ensures var t := Handled(Handled(HalfHandled(s, a), b), a);
            t.sent == s.sent && t.tried == s.tried + [a, b, a] && t.deleted == s.deleted + {a.id, b.id}
  {}

  lemma OnItemOfThree(a: Order, b: Order)
    requires a.item == b.item
    ensures OnItem([a, b, a], a.item) == [a, b, a]
  {
    OnItemSnoc([], a, a.item);
    OnItemSnoc([a], b, a.item);
    OnItemSnoc([a, b], a, a.item);
    assert [a, b, a] == [a, b] + [a] && [a, b] == [a] + [b] && [a] == [] + [a];
  }

  /** From any reachable state with nothing counted yet, two messages for one item and two idle workers: an
      order whose counter update loses its reply, and which is retried after another was counted, is counted
      twice, although both are acknowledged. */
  lemma RetryDoubleCounts(s: State, a: Order, b: Order)
    requires Inv(s) && s.stores.tried == [] && s.PcOf(0) == Free == s.PcOf(1)
    requires Genuine(s.stores, a) && Genuine(s.stores, b) && a.id != b.id && a.item == b.item
    ensures var t := Run(s, CountTwice(a.id, b.id)).stores;
            && OnItem(t.tried, a.item) == [a, b, a] && t.sent == s.stores.sent
            && t.deleted == s.stores.deleted + {a.id, b.id}
            && t.RowOf(a.item).confirmed == 2 * a.quantity + b.quantity
  {
    CountTwiceEnds(s, a, b);
    CountTwiceLeaves(s.stores, a, b);
    var t := Run(s, CountTwice(a.id, b.id));
    RunKeepsInv(s, CountTwice(a.id, b.id));
    assert RowOk(t.stores, a.item);
    assert t.stores.tried == [a, b, a];
    OnItemOfThree(a, b);
    SeparatedRepeatCountsTwice(a, b);
  }

  /** The claim that nothing is counted twice fails for any two well-formed orders of one item. */
  lemma RedeliveryDoubleCounts(a: Order, b: Order)
    requires WellFormed(a) && WellFormed(b) && a.id != b.id && a.item == b.item
    ensures exists es :: var s := Run(Start(), es).stores;
              && OnItem(s.tried, a.item) == [a, b, a] && s.deleted == {a.id, b.id}
              && s.RowOf(a.item).confirmed == 2 * a.quantity + b.quantity
  {
    var sends := [Send(a)] + ([Send(b)] + []);
    RunCons(Start(), Send(a), [Send(b)] + []);
    RunCons(Step(Start(), Send(a)), Send(b), []);
    var s := Run(Start(), sends);
    StartInv();
    RunKeepsInv(Start(), sends);
    RetryDoubleCounts(s, a, b);
    RunAppend(Start(), sends, CountTwice(a.id, b.id));
    assert s.stores.deleted + {a.id, b.id} == {a.id, b.id};
  }

  // ---------------------------------------------------------------- never confirmed

  /** Worker 0 inserts the order, but its counter update fails. */
  lemma InsertedThenFailing(o: Order) returns (es: seq<Event>)
    requires WellFormed(o)
    ensures Run(Start(), es)
            == State(Stores(map[o.id := o], {}, map[o.id := o], map[], [], [], 0), map[0 := Failing(o)])
  {
    var sent := Stores(map[o.id := o], {}, map[], map[], [], [], 0);
    var stored := sent.(table := map[o.id := o]);
    es := [];
    RunSnoc(Start(), es, Send(o));
    es := es + [Send(o)];
    assert Run(Start(), es) == State(sent, map[]);
    RunSnoc(Start(), es, Do(0, Receive(o.id)));
    StepIs(State(sent, map[]), 0, Receive(o.id), sent, Saving(o));
    es := es + [Do(0, Receive(o.id))];
    RunSnoc(Start(), es, Do(0, Put(Done)));
    StepIs(State(sent, map[0 := Saving(o)]), 0, Put(Done), stored, Stored(o, true));
    es := es + [Do(0, Put(Done))];
    RunSnoc(Start(), es, Do(0, Update(NotApplied)));
    StepIs(State(stored, map[0 := Stored(o, true)]), 0, Update(NotApplied), stored, Failing(o));
    es := es + [Do(0, Update(NotApplied))];
  }

  /** The metric can fall short: when the counter update fails after the insert, the retry finds the
      order present and reports a duplicate, and no one ever confirms it. */
  lemma RetryHidesConfirmation(o: Order)
    requires WellFormed(o)
    ensures exists es :: var s := Run(Start(), es).stores;
              s.table == map[o.id := o] && s.deleted == {o.id} && s.confirmed == [] && s.duplicates == 1
  {
    var es := InsertedThenFailing(o);
    var s := Run(Start(), es);
    RetryEnds(s, 0, o);
    RunAppend(Start(), es, [Do(0, Again)] + Finish(0));
    var t := Handled(s.stores, o);
    assert t.table == map[o.id := o] && t.deleted == {o.id} && t.confirmed == [] && t.duplicates == 1;
  }
}
