/**
 SaveOrder and handleMessage in the form of the source: one worker's commands on the shared queue and
 tables, with every other worker free to move between any two of them.
 */
module WorkerService {
  import opened Domain
  import opened AuditCounter
  import opened OrderWorker
  import opened OrderWorkerLaws

  /** An error of the AWS client: an API error that is the server's fault or not, or a transport error. */
  datatype Error = ApiError(serverFault: bool) | TransportError

  predicate IsRetryable(e: Error) { e.ApiError? ==> e.serverFault }

  /** What the others do before our next command, how the command fares and which error it then
      reports, and whether the context ends meanwhile. */
  datatype Turn = Turn(others: seq<Event>, fate: Fate, error: Error, cancelled: bool)

  /** The turn of the next command, and those after it; with none left, nobody moves and nothing fails. */
  function Head(script: seq<Turn>): Turn { if script == [] then Turn([], Done, TransportError, false) else script[0] }
  function Tail(script: seq<Turn>): seq<Turn> { if script == [] then [] else script[1..] }

  /** How many commands of the script fail. */
  function Failures(script: seq<Turn>): nat {
    if script == [] then 0 else (if script[0].fate.Done? then 0 else 1) + Failures(script[1..])
  }

  /** No command fails with an API error that is not the server's fault, and the context does not end. */
  predicate Curable(script: seq<Turn>) {
    script == [] || (!script[0].cancelled && (script[0].fate.Done? || script[0].error != ApiError(false))
                     && Curable(script[1..]))
  }

  lemma HeadAndTail(script: seq<Turn>)
    ensures Failures(script) == Failures(Tail(script)) + if Head(script).fate.Done? then 0 else 1
    ensures Curable(script) ==> Curable(Tail(script)) && !Head(script).cancelled
                                && (Head(script).fate.Done? || Head(script).error != ApiError(false))
  {}

  lemma ThreeAhead(script: seq<Turn>)
    ensures Failures(script) == Failures(Tail(script)) + if Head(script).fate.Done? then 0 else 1
    ensures Failures(Tail(script)) == Failures(Tail(Tail(script))) + if Head(Tail(script)).fate.Done? then 0 else 1
    ensures Curable(script) ==>
              && Curable(Tail(script)) && Curable(Tail(Tail(script)))
              && (Head(script).fate.Done? || Head(script).error != ApiError(false))
              && (Head(Tail(script)).fate.Done? || Head(Tail(script)).error != ApiError(false))
  {
    HeadAndTail(script);
    HeadAndTail(Tail(script));
  }

  /** The events of `es` that are not steps of `me`. */
  function Without(es: seq<Event>, me: WorkerId): seq<Event> {
    if es == [] then [] else
    var e := es[|es| - 1];
    Without(es[..|es| - 1], me) + if e.Do? && e.who == me then [] else [e]
  }

  lemma WithoutNext(es: seq<Event>, i: nat, me: WorkerId, log: seq<Event>)
    requires i < |es|
    ensures log + Without(es[..i + 1], me)
            == (log + Without(es[..i], me)) + if es[i].Do? && es[i].who == me then [] else [es[i]]
  {
    assert es[..i + 1][..i] == es[..i];
  }

  /** How often a worker has tried to insert an order, bumped a metric, and tried to delete a message. */
  datatype Tally = Tally(puts: nat, bumps: nat, deletes: nat)

  function OneMore(t: Tally, act: Act): Tally {
    match act
    case Put(_) => t.(puts := t.puts + 1)
    case Count => t.(bumps := t.bumps + 1)
    case Delete(_) => t.(deletes := t.deletes + 1)
    case _ => t
  }

  function TallyOf(es: seq<Event>, me: WorkerId): Tally {
    if es == [] then Tally(0, 0, 0) else
    var t, e := TallyOf(es[..|es| - 1], me), es[|es| - 1];
    if e.Do? && e.who == me then OneMore(t, e.act) else t
  }

  lemma TallySnoc(es: seq<Event>, e: Event, me: WorkerId)
    ensures TallyOf(es + [e], me)
            == if e.Do? && e.who == me then OneMore(TallyOf(es, me), e.act) else TallyOf(es, me)
  {
    assert (es + [e])[..|es|] == es;
  }

  function Deleted(t: Tally, n: nat): Tally { t.(deletes := t.deletes + n) }

  function Tried(t: Tally, n: nat): Tally { t.(puts := t.puts + n) }

  lemma OthersMove(log: seq<Event>, e: Event, me: WorkerId)
    requires !(e.Do? && e.who == me)
    ensures var s := Run(Start(), log); var t := Run(Start(), log + [e]);
            t == Step(s, e) && t.PcOf(me) == s.PcOf(me) && Grew(s.stores, t.stores)
  {
    StartInv();
    RunKeepsInv(Start(), log);
    StepKeepsInv(Run(Start(), log), e);
    RunSnoc(Start(), log, e);
  }

  class Tables {
    var queue: map<OrderId, Order>      // SQS, everything ever sent
    var deleted: set<OrderId>
    var orders: map<OrderId, Order>     // the orders table
    var audit: map<string, Row>         // the inventory table
    var confirmed: seq<OrderId>         // metrics
    var duplicates: nat
    var tried: seq<Order>               // history of the counter updates
    var workers: map<WorkerId, Pc>      // where every worker is
    var script: seq<Turn>               // the interference and the faults still to come
    ghost var log: seq<Event>           // all that has happened

    function Db(): Stores reads this { Stores(queue, deleted, orders, audit, tried, confirmed, duplicates) }
    function View(): State reads this { State(Db(), workers) }
    function PcOf(w: WorkerId): Pc reads this { if w in workers then workers[w] else Free }

    ghost predicate Valid() reads this { View() == Run(Start(), log) }

    lemma Reached()
      requires Valid()
      ensures Inv(View())
    {
      StartInv();
      RunKeepsInv(Start(), log);
    }

    constructor (script: seq<Turn>)
      ensures Valid() && log == [] && queue == map[]
    {
      queue, deleted, orders, audit, confirmed, duplicates, workers := map[], {}, map[], map[], [], 0, map[];
      this.script, tried, log := script, [], [];
    }

    ghost method Record(me: WorkerId, act: Act)
      requires var s := Run(Start(), log); (Db(), PcOf(me)) == Outcome(s.stores, s.PcOf(me), act)
      requires workers == Run(Start(), log).workers[me := PcOf(me)]
      modifies this`log
      ensures Valid() && log == old(log) + [Do(me, act)]
      ensures TallyOf(log, me) == OneMore(old(TallyOf(log, me)), act)
    {
      RunSnoc(Start(), log, Do(me, act));
      TallySnoc(log, Do(me, act), me);
      log := log + [Do(me, act)];
    }

    method Become(t: State)
      modifies this
      ensures View() == t && log == old(log) && script == old(script)
    {
      queue, deleted, orders, audit := t.stores.sent, t.stores.deleted, t.stores.table, t.stores.audit;
      tried, confirmed, duplicates, workers := t.stores.tried, t.stores.confirmed, t.stores.duplicates, t.workers;
    }

    /** One step of another worker, or of the publisher. */
    method Other(e: Event, me: WorkerId)
      requires Valid() && !(e.Do? && e.who == me)
      modifies this
      ensures Valid() && log == old(log) + [e] && script == old(script)
      ensures PcOf(me) == old(PcOf(me)) && Grew(old(Db()), Db())
      ensures TallyOf(log, me) == old(TallyOf(log, me))
    {
      OthersMove(log, e, me);
      TallySnoc(log, e, me);
      ghost var es := log + [e];
      var t := Step(View(), e);
      assert t.PcOf(me) == View().PcOf(me);
      Become(t);
      log := es;
    }

    function NextOthers(me: WorkerId): seq<Event> reads this { Without(Head(script).others, me) }

    /** The steps of the others in one turn; a step that would be ours does not happen. */
    method LetOthers(others: seq<Event>, me: WorkerId)
      requires Valid()
      modifies this
      ensures Valid() && script == old(script) && log == old(log) + Without(others, me)
      ensures PcOf(me) == old(PcOf(me)) && Grew(old(Db()), Db())
      ensures TallyOf(log, me) == old(TallyOf(log, me))
    {
      for i := 0 to |others|
        invariant Valid() && script == old(script) && log == old(log) + Without(others[..i], me)
        invariant PcOf(me) == old(PcOf(me)) && Grew(old(Db()), Db())
        invariant TallyOf(log, me) == old(TallyOf(log, me))
      {
        WithoutNext(others, i, me, old(log));
        if !(others[i].Do? && others[i].who == me) {
          Other(others[i], me);
        }
      }
      assert others[..|others|] == others;
    }

    /** Lets the others run for a turn. */
    method Interleave(me: WorkerId) returns (turn: Turn)
      requires Valid()
      modifies this
      ensures Valid() && turn == Head(old(script)) && script == Tail(old(script))
      ensures log == old(log) + old(NextOthers(me))
      ensures PcOf(me) == old(PcOf(me)) && Grew(old(Db()), Db())
      ensures TallyOf(log, me) == old(TallyOf(log, me))
    {
      turn := Head(script);
      script := Tail(script);
      LetOthers(turn.others, me);
    }

    // ---------------------------------------------------------------- store/dynamodb.go

    /** The stores as our last command found them. */
    ghost function Found(): Stores
      requires log != []
      reads this
    {
      Run(Start(), log[..|log| - 1]).stores
    }

    /** PutItem with attribute_not_exists(order_id). */
    method PutOrder(me: WorkerId, order: Order) returns (turn: Turn, inserted: bool)
      requires Valid() && PcOf(me) == Saving(order)
      modifies this
      ensures turn == Head(old(script)) && script == Tail(old(script))
      ensures log == old(log) + old(NextOthers(me)) + [Do(me, Put(turn.fate))]
      ensures Valid() && Grew(old(Db()), Db()) && TallyOf(log, me) == OneMore(old(TallyOf(log, me)), Put(turn.fate))
      ensures PcOf(me) == if turn.fate.Done? then Stored(order, inserted) else Failing(order)
      // an absent order is stored, and reported as inserted; one that is there stays as it is
      ensures log != [] && orders == if turn.fate.NotApplied? || order.id in Found().table then Found().table
                                     else Found().table[order.id := order]
      ensures turn.fate.Done? ==> (inserted <==> order.id !in Found().table)
      ensures inserted ==> order.id !in old(orders)
    {
      turn := Interleave(me);
      inserted := false;
      if turn.fate.NotApplied? {
        workers := workers[me := Failing(order)];
      } else {
        inserted := order.id !in orders;
        if inserted { orders := orders[order.id := order]; }
        workers := workers[me := if turn.fate.Done? then Stored(order, inserted) else Failing(order)];
      }
      ghost var before := log;
      Record(me, Put(turn.fate));
      assert log[..|log| - 1] == before;
    }

    /** The conditional write: nothing happens when the order was the last one counted. */
    method CountUnlessLast(order: Order)
      modifies this`audit, this`tried
      ensures audit == old(audit)[order.item := Bump(old(Db()).RowOf(order.item), order)]
      ensures tried == old(tried) + [order]
    {
      var row := Db().RowOf(order.item);
      if row.last != Some(order.id) {
        audit := audit[order.item := Row(row.confirmed + order.quantity, Some(order.id))];
      }
      assert audit == audit[order.item := Db().RowOf(order.item)];
      tried := tried + [order];
    }

    /** The UpdateItem is carried out or fails. */
    method CommitUpdate(me: WorkerId, order: Order, inserted: bool, fate: Fate)
      requires Valid() && PcOf(me) == Stored(order, inserted)
      modifies this
      ensures Valid() && Grew(old(Db()), Db()) && TallyOf(log, me) == old(TallyOf(log, me))
      ensures PcOf(me) == if fate.Done? then Saved(order, inserted) else Failing(order)
      ensures log == old(log) + [Do(me, Update(fate))] && script == old(script)
      ensures log != [] && Found() == old(Db())
      ensures fate.NotApplied? ==> audit == old(audit)
      ensures !fate.NotApplied? ==>
                order in tried && audit == old(audit)[order.item := Bump(old(Db()).RowOf(order.item), order)]
    {
      ghost var before := log;
      if !fate.NotApplied? { CountUnlessLast(order); }
      workers := workers[me := if fate.Done? then Saved(order, inserted) else Failing(order)];
      Record(me, Update(fate));
      assert log[..|log| - 1] == before;
    }

    /** UpdateItem under the last_order_id guard; a failed guard is a success here. */
    method UpdateAudit(me: WorkerId, order: Order, inserted: bool) returns (turn: Turn)
      requires Valid() && PcOf(me) == Stored(order, inserted)
      modifies this
      ensures turn == Head(old(script)) && script == Tail(old(script))
      ensures log == old(log) + old(NextOthers(me)) + [Do(me, Update(turn.fate))]
      ensures Valid() && Grew(old(Db()), Db()) && TallyOf(log, me) == old(TallyOf(log, me))
      ensures PcOf(me) == if turn.fate.Done? then Saved(order, inserted) else Failing(order)
      // the row grows by the quantity unless the order was the last one counted; no other row changes
      ensures log != [] && var row, row' := Found().RowOf(order.item), Db().RowOf(order.item);
              && row'.confirmed - row.confirmed
                 == (if turn.fate.NotApplied? || row.last == Some(order.id) then 0 else order.quantity)
              && row'.last == (if turn.fate.NotApplied? then row.last else Some(order.id))
              && (forall item :: item != order.item ==> Db().RowOf(item) == Found().RowOf(item))
      ensures !turn.fate.NotApplied? ==> order in tried
    {
      turn := Interleave(me);
      CommitUpdate(me, order, inserted, turn.fate);
    }

    method SaveOrder(me: WorkerId, order: Order) returns (inserted: bool, err: Option<Error>)
      requires Valid() && PcOf(me) == Saving(order)
      modifies this
      ensures Valid() && Grew(old(Db()), Db()) && TallyOf(log, me) == OneMore(old(TallyOf(log, me)), Put(Done))
      // the error is that of the first command that failed, and nothing is sent after it
      ensures var put, update := Head(old(script)), Head(Tail(old(script)));
              && err == (if !put.fate.Done? then Some(put.error)
                         else if !update.fate.Done? then Some(update.error) else None)
              && script == if put.fate.Done? then Tail(Tail(old(script))) else Tail(old(script))
      // success: the order is stored as sent and was the last one counted on its item
      ensures err.None? ==> SavedAs(me, order, inserted) && Db().RowOf(order.item).last == Some(order.id)
      ensures err.None? && inserted ==> order.id !in old(orders)
      ensures err.Some? ==> PcOf(me) == Failing(order)
    {
      var put;
      put, inserted := PutOrder(me, order);
      if !put.fate.Done? { return false, Some(put.error); }
      var update := UpdateAudit(me, order, inserted);
      if !update.fate.Done? { return inserted, Some(update.error); }
      Reached();
      assert PcOk(Db(), PcOf(me));
      return inserted, None;
    }

    // ---------------------------------------------------------------- service/service.go

    method DeleteMessage(me: WorkerId, order: Order) returns (ok: bool)
      requires Valid() && PcOf(me) == Counted(order)
      modifies this
      ensures Valid() && Grew(old(Db()), Db()) && TallyOf(log, me) == OneMore(old(TallyOf(log, me)), Delete(Done))
      ensures ok == Head(old(script)).fate.Done? && script == Tail(old(script))
      ensures log == old(log) + old(NextOthers(me)) + [Do(me, Delete(Head(old(script)).fate))]
      ensures PcOf(me) == if ok then Free else Counted(order)
      ensures !Head(old(script)).fate.NotApplied? ==> order.id in deleted
    {
      var turn := Interleave(me);
      ok := turn.fate.Done?;
      if !turn.fate.NotApplied? { deleted := deleted + {order.id}; }
      workers := workers[me := if ok then Free else Counted(order)];
      Record(me, Delete(turn.fate));
    }

    /** Moves our own program counter without touching a store. */
    method Move(me: WorkerId, pc: Pc, ghost act: Act)
      requires Valid() && Outcome(Db(), PcOf(me), act) == (Db(), pc)
      requires OneMore(TallyOf(log, me), act) == TallyOf(log, me)
      modifies this`workers, this`log
      ensures Valid() && PcOf(me) == pc && TallyOf(log, me) == old(TallyOf(log, me))
      ensures log == old(log) + [Do(me, act)]
    {
      workers := workers[me := pc];
      Record(me, act);
    }

    /** The wait of retry.Do before another attempt; false when the context ended. */
    method BackOff(me: WorkerId) returns (again: bool)
      requires Valid()
      modifies this
      ensures Valid() && PcOf(me) == old(PcOf(me)) && Grew(old(Db()), Db())
      ensures again == !Head(old(script)).cancelled && script == Tail(old(script))
      ensures TallyOf(log, me) == old(TallyOf(log, me))
    {
      var wait := Interleave(me);
      again := !wait.cancelled;
    }

    /** What follows a failed attempt: it is over if `stop`, and else there is a wait, which the context may end.
        `back` is where another attempt starts. */
    method AfterError(me: WorkerId, back: Pc, stop: bool) returns (next: Next)
      requires Valid()
      requires (PcOf(me).Counted? && back == PcOf(me)) || (PcOf(me).Failing? && back == Saving(PcOf(me).order))
      modifies this
      ensures Valid() && Grew(old(Db()), Db()) && TallyOf(log, me) == old(TallyOf(log, me))
      ensures PcOf(me) == if next.TryAgain? then back else Free
      ensures next.Stop? <==> stop
      ensures Failures(script) <= Failures(old(script))
      ensures Curable(old(script)) ==> Curable(script) && !next.Cut?
    {
      next := Stop;
      if !stop {
        HeadAndTail(script);
        var again := BackOff(me);
        next := if again then TryAgain else Cut;
      }
      if !next.TryAgain? {
        Move(me, Free, Drop);
      } else if PcOf(me).Failing? {
        Move(me, back, Again);
      }
    }

    /** One attempt of SaveOrder and what retry.Do makes of it: an error that is permanent or the last ends it,
        and so does the context while waiting; otherwise we are back at the start of SaveOrder. */
    method SaveAttempt(me: WorkerId, order: Order, last: bool)
      returns (inserted: bool, err: Option<Error>, next: Next)
      requires Valid() && PcOf(me) == Saving(order)
      modifies this
      ensures Valid() && Grew(old(Db()), Db()) && TallyOf(log, me) == OneMore(old(TallyOf(log, me)), Put(Done))
      ensures err.None? ==> SavedAs(me, order, inserted)
      ensures err.None? && inserted ==> order.id !in old(orders)
      ensures err.Some? ==> PcOf(me) == if next.TryAgain? then Saving(order) else Free
      // only an API error that is not the server's fault is permanent
      ensures next.Stop? <==> err.None? || last || err.value == ApiError(false)
      ensures Failures(script) + (if err.Some? then 1 else 0) <= Failures(old(script))
      ensures Curable(old(script)) ==> Curable(script) && !next.Cut? && err != Some(ApiError(false))
    {
      next := Stop;
      ThreeAhead(script);
      inserted, err := SaveOrder(me, order);
      if err.None? { return; }
      next := AfterError(me, Saving(order), !IsRetryable(err.value) || last);
    }

    /** Our save has succeeded: the order is stored as sent, and its counter update has been attempted. */
    predicate SavedAs(me: WorkerId, order: Order, inserted: bool)
      reads this
    {
      PcOf(me) == Saved(order, inserted) && order.id in orders && orders[order.id] == order && order in tried
    }

    /** retry.Do around SaveOrder. `errors` are those of its failed attempts, in order. */
    method SaveWithRetries(me: WorkerId, order: Order, attempts: nat)
      returns (inserted: bool, ok: bool, ghost errors: seq<Error>, ghost next: Next)
      requires Valid() && PcOf(me) == Saving(order) && attempts >= 1
      modifies this
      ensures Valid() && Grew(old(Db()), Db())
      ensures ok ==> SavedAs(me, order, inserted)
      ensures ok && inserted ==> order.id !in old(orders)
      ensures !ok ==> PcOf(me) == Free
      // SaveOrder is tried at most `attempts` times, once more for each error that is not the caller's fault
      ensures TallyOf(log, me) == Tried(old(TallyOf(log, me)), |errors| + if ok then 1 else 0)
      ensures |errors| + (if ok then 1 else 0) <= attempts
      ensures forall i :: 0 <= i < |errors| - 1 ==> errors[i] != ApiError(false)
      ensures !ok ==> errors != [] && !next.TryAgain?
                      && (next.Stop? <==> |errors| == attempts || errors[|errors| - 1] == ApiError(false))
      ensures ok ==> forall i :: 0 <= i < |errors| ==> errors[i] != ApiError(false)
      ensures Failures(script) + |errors| <= Failures(old(script))
      // so fewer failures than attempts, none of them permanent, end in success
      ensures Curable(old(script)) ==> Curable(script) && (Failures(old(script)) < attempts ==> ok)
    {
      errors, next := [], Stop;
      for attempt := 1 to attempts + 1
        invariant attempt <= attempts
        invariant Valid() && PcOf(me) == Saving(order) && Grew(old(Db()), Db())
        invariant TallyOf(log, me) == Tried(old(TallyOf(log, me)), attempt - 1) && |errors| == attempt - 1
        invariant forall i :: 0 <= i < |errors| ==> errors[i] != ApiError(false)
        invariant Failures(script) + |errors| <= Failures(old(script))
        invariant Curable(old(script)) ==> Curable(script)
      {
        var err, next';
        inserted, err, next' := SaveAttempt(me, order, attempt == attempts);
        ok, next := err.None?, next';
        if ok { return; }
        errors := errors + [err.value];
        if !next'.TryAgain? { return; }
      }
      assert false;
    }

    /** One attempt of DeleteMessage and what retry.Do makes of it: any error is retried unless it is the last or
        the context ends. */
    method DeleteAttempt(me: WorkerId, order: Order, last: bool) returns (ok: bool, next: Next)
      requires Valid() && PcOf(me) == Counted(order)
      modifies this
      ensures Valid() && Grew(old(Db()), Db()) && TallyOf(log, me) == OneMore(old(TallyOf(log, me)), Delete(Done))
      ensures ok ==> order.id in deleted
      ensures PcOf(me) == if next.TryAgain? then Counted(order) else Free
      ensures next.Stop? <==> ok || last
      ensures Failures(script) + (if ok then 0 else 1) <= Failures(old(script))
      ensures Curable(old(script)) ==> Curable(script) && !next.Cut?
    {
      next := Stop;
      HeadAndTail(script);
      ok := DeleteMessage(me, order);
      if ok { return; }
      next := AfterError(me, Counted(order), last);
    }

    /** retry.Do around DeleteMessage. */
    method DeleteWithRetries(me: WorkerId, order: Order, attempts: nat) returns (ok: bool, ghost next: Next)
      requires Valid() && PcOf(me) == Counted(order) && attempts >= 1
      modifies this
      ensures Valid() && Grew(old(Db()), Db()) && PcOf(me) == Free
      ensures ok ==> order.id in deleted
      // between one and `attempts` deletes, and nothing else that is counted; it gives up on the last error only
      ensures var n := TallyOf(log, me).deletes - old(TallyOf(log, me)).deletes;
              && 1 <= n <= attempts && TallyOf(log, me) == Deleted(old(TallyOf(log, me)), n)
              && (!ok && !next.Cut? ==> n == attempts)
      ensures Curable(old(script)) ==> !next.Cut? && (Failures(old(script)) < attempts ==> ok)
    {
      next := Stop;
      for attempt := 1 to attempts + 1
        invariant attempt <= attempts && !next.Cut?
        invariant Valid() && PcOf(me) == Counted(order) && Grew(old(Db()), Db())
        invariant TallyOf(log, me) == Deleted(old(TallyOf(log, me)), attempt - 1)
        invariant Failures(script) + attempt - 1 <= Failures(old(script))
        invariant Curable(old(script)) ==> Curable(script)
      {
        var next';
        ok, next' := DeleteAttempt(me, order, attempt == attempts);
        next := next';
        if !next'.TryAgain? { return; }
      }
      assert false;
    }

    /** IncConfirmed or IncDuplicate. */
    method BumpMetric(me: WorkerId, order: Order, inserted: bool)
      requires Valid() && PcOf(me) == Saved(order, inserted)
      modifies this`confirmed, this`duplicates, this`workers, this`log
      ensures Valid() && PcOf(me) == Counted(order) && Grew(old(Db()), Db())
      ensures confirmed == if inserted then old(confirmed) + [order.id] else old(confirmed)
      ensures duplicates == if inserted then old(duplicates) else old(duplicates) + 1
      ensures TallyOf(log, me) == OneMore(old(TallyOf(log, me)), Count)
    {
      if inserted {
        confirmed := confirmed + [order.id];
      } else {
        duplicates := duplicates + 1;
      }
      workers := workers[me := Counted(order)];
      Record(me, Count);
    }

    /** What follows a save that succeeded: count it, and delete the message. */
    method CountAndDelete(me: WorkerId, order: Order, inserted: bool, attempts: nat) returns (ok: bool)
      requires Valid() && PcOf(me) == Saved(order, inserted) && attempts >= 1
      modifies this
      ensures Valid() && Grew(old(Db()), Db()) && PcOf(me) == Free
      ensures TallyOf(log, me).bumps == old(TallyOf(log, me)).bumps + 1
      ensures TallyOf(log, me).puts == old(TallyOf(log, me)).puts
      ensures TallyOf(log, me).deletes <= old(TallyOf(log, me)).deletes + attempts
      ensures ok ==> order.id in deleted
      ensures Curable(old(script)) && Failures(old(script)) < attempts ==> ok
    {
      BumpMetric(me, order, inserted);
      var deleted', _ := DeleteWithRetries(me, order, attempts);
      ok := deleted';
    }

    /** Everything after validation: save, count, delete. */
    method SaveCountDelete(me: WorkerId, order: Order, attempts: nat) returns (handled: Handled)
      requires Valid() && PcOf(me) == Saving(order) && attempts >= 1
      modifies this
      ensures Valid() && Grew(old(Db()), Db()) && PcOf(me) == Free && !handled.Invalid?
      ensures TallyOf(log, me).bumps == old(TallyOf(log, me)).bumps + if handled.SaveFailed? then 0 else 1
      ensures TallyOf(log, me).puts <= old(TallyOf(log, me)).puts + attempts
      ensures TallyOf(log, me).deletes <= old(TallyOf(log, me)).deletes + if handled.SaveFailed? then 0 else attempts
      ensures !handled.SaveFailed? ==> order.id in orders && orders[order.id] == order && order in tried
      ensures handled.Processed? ==> order.id in deleted
      ensures Curable(old(script)) && Failures(old(script)) < attempts ==> handled == Processed
    {
      var inserted, saved, _, _ := SaveWithRetries(me, order, attempts);
      if !saved { return SaveFailed; }
      var ok := CountAndDelete(me, order, inserted, attempts);
      return if ok then Processed else DeleteFailed;
    }

    /** One delivery of message `id`. */
    method HandleMessage(me: WorkerId, id: OrderId, attempts: nat) returns (handled: Handled)
      requires Valid() && PcOf(me) == Free && id in queue && attempts >= 1
      modifies this
      ensures Valid() && Grew(old(Db()), Db()) && PcOf(me) == Free
      ensures var o := old(queue)[id]; handled.Invalid? <==> Blank(o.user) || Blank(o.item) || o.quantity < 1
      ensures handled.Invalid? ==> log == old(log)
      // a save that succeeded bumped exactly one metric once; one that failed, none
      ensures TallyOf(log, me).bumps
              == old(TallyOf(log, me)).bumps + if handled.Processed? || handled.DeleteFailed? then 1 else 0
      ensures TallyOf(log, me).puts <= old(TallyOf(log, me)).puts + attempts
      ensures TallyOf(log, me).deletes
              <= old(TallyOf(log, me)).deletes + if handled.Processed? || handled.DeleteFailed? then attempts else 0
      ensures handled.Processed? || handled.DeleteFailed? ==>
                id in orders && orders[id] == old(queue)[id] && old(queue)[id] in tried
      ensures handled.Processed? ==> id in deleted
      // fewer failures than attempts, none of them permanent, and the message is processed
      ensures !handled.Invalid? && Curable(old(script)) && Failures(old(script)) < attempts ==> handled == Processed
    {
      var order := queue[id];
      Reached();
      assert order.id == id;
      if !WellFormed(order) { return Invalid; }
      Move(me, Saving(order), Receive(id));
      handled := SaveCountDelete(me, order, attempts);
    }
  }

  /** What retry.Do does after an attempt: it is over, the context ended its wait, or it goes on. */
  datatype Next = Stop | Cut | TryAgain

  datatype Handled = Processed | Invalid | SaveFailed | DeleteFailed
}
