/**
 The purchase handler and the inventory client of the flash-sale API, in the form of the source:
 methods that send commands to one shared Redis key and one SQS queue, with every other request free
 to move between any two of them.
 */
module FlashSaleApi {
  import opened Domain
  import opened Inventory
  import opened InventoryLaws

  /** What everyone else does before our next command arrives, the waiting room's token store by then, and how
      the command fares. */
  datatype Turn = Turn(others: seq<Event>, tokens: map<string, string>, fate: Fate)

  function TokenIn(tokens: map<string, string>, user: string): Option<string> {
    if user in tokens then Some(tokens[user]) else None
  }

  datatype Reply = Reply(fate: Fate, value: int)

  predicate Concerns(e: Event, me: OrderId) {
    (e.Do? && e.who == me) || (e.Arrive? && e.order.id == me)
  }

  predicate NoneConcerns(es: seq<Event>, me: OrderId) {
    forall i :: 0 <= i < |es| ==> !Concerns(es[i], me)
  }

  /** The events of `es` that leave `me` alone. */
  function Without(es: seq<Event>, me: OrderId): (r: seq<Event>)
    ensures NoneConcerns(r, me)
    ensures es == [] ==> r == []
  {
    if es == [] then [] else
    Without(es[..|es| - 1], me) + if Concerns(es[|es| - 1], me) then [] else [es[|es| - 1]]
  }

  /** The commands that somebody has sent, the last one outermost. */
  datatype Sent = Nothing | Then(before: Sent, act: Act)

  function Mine(es: seq<Event>, me: OrderId): Sent {
    if es == [] then Nothing else
    var sent, e := Mine(es[..|es| - 1], me), es[|es| - 1];
    if e.Do? && e.who == me then Then(sent, e.act) else sent
  }

  lemma MineSnoc(es: seq<Event>, e: Event, me: OrderId)
    ensures Mine(es + [e], me) == if e.Do? && e.who == me then Then(Mine(es, me), e.act) else Mine(es, me)
  {
    assert (es + [e])[..|es|] == es;
  }

  /** Every command is carried out, and its reply arrives. */
  predicate NoFaults(script: seq<Turn>) { script == [] || (script[0].fate.Done? && NoFaults(script[1..])) }

  /** And nobody else moves. */
  predicate Quiet(script: seq<Turn>) {
    script == [] || (script[0].fate.Done? && script[0].others == [] && Quiet(script[1..]))
  }

  /** How many of the steps of `es` by anyone but `me` wrote the key. */
  function OtherWrites(s: State, es: seq<Event>, me: OrderId): nat {
    if es == [] then 0 else
    var before, e := es[..|es| - 1], es[|es| - 1];
    OtherWrites(s, before, me)
    + if !Concerns(e, me) && Step(Run(s, before), e).version != Run(s, before).version then 1 else 0
  }

  lemma OtherWritesSnoc(s: State, es: seq<Event>, e: Event, me: OrderId)
    ensures OtherWrites(s, es + [e], me) == OtherWrites(s, es, me)
            + if !Concerns(e, me) && Step(Run(s, es), e).version != Run(s, es).version then 1 else 0
  {
    assert (es + [e])[..|es|] == es;
  }

  function GivingBack(pc: Pc, fate: Fate): Act {
    if pc.Losing? then Compensate(fate) else Rollback(fate)
  }

  /** Where a request is after the INCRBY that it owed. */
  function AfterGivingBack(pc: Pc, fate: Fate): Pc
    requires pc.Losing? || pc.Rolling?
  {
    if pc.Rolling? && pc.enqueued then (if fate.NotApplied? then Orphaned else Credited)
    else if fate.NotApplied? then Leaked
    else if pc.Losing? && fate.Done? then SoldOut
    else Errored
  }

  /** Where a request is after its EXEC. */
  function AfterExec(committed: bool, fate: Fate, remaining: int): Pc {
    if committed then (if fate.Done? then Held(remaining) else Leaked)
    else if fate.Done? then Conflicted else Errored
  }

  /** Nothing of `me` was touched between the two states. */
  ghost predicate Spared(s: State, t: State, me: OrderId) {
    && (me in s.requests <==> me in t.requests)
    && (me in s.requests ==> t.requests[me] == s.requests[me])
    && (me in s.sent <==> me in t.sent)
    && s.version <= t.version
  }

  lemma OthersStep(s: State, e: Event, me: OrderId)
    requires !Concerns(e, me)
    ensures Spared(s, Step(s, e), me)
    ensures Step(s, e).version <= s.version + 1
  {}

  lemma ExecEffect(s: State, me: OrderId, fate: Fate)
    requires me in s.requests && s.requests[me].pc.Deciding?
    ensures var pc, q := s.requests[me].pc, s.requests[me].order.quantity;
            var committed := !fate.NotApplied? && s.version == pc.seen;
            EffectOf(s, me, Inventory.Act.Exec(fate))
            == Effect(AfterExec(committed, fate, pc.current - q), if committed then -q else 0, false)
  {}

  lemma GivingBackEffect(s: State, me: OrderId, fate: Fate)
    requires me in s.requests && (s.requests[me].pc.Losing? || s.requests[me].pc.Rolling?)
    ensures var pc, q := s.requests[me].pc, s.requests[me].order.quantity;
            EffectOf(s, me, GivingBack(pc, fate))
            == Effect(AfterGivingBack(pc, fate), if fate.NotApplied? then 0 else q, false)
  {}

  class Backend {
    const stock: nat                        // INVENTORY_COUNT
    var cell: Option<int>                   // the key inventory:<item>
    var version: nat                        // how often it was written, what WATCH looks at
    var sent: map<OrderId, Order>           // the SQS queue's whole history
    var requests: map<OrderId, Request>     // where every request in flight is
    var tokens: map<string, string>         // the keys token:<customer>, which the waiting room writes
    var script: seq<Turn>                   // the interference and the faults still to come
    ghost var log: seq<Event>               // all that has happened

    function View(): State reads this { State(cell, version, requests, sent) }

    ghost predicate Valid() reads this {
      && View() == Run(Start(stock), log)
      && SaneResets(log)
      && (forall i :: 0 <= i < |script| ==> SaneResets(script[i].others))
    }

    predicate At(me: OrderId, pc: Pc) reads this { me in requests && requests[me].pc == pc }

    ghost function Heard(me: OrderId): nat reads this { OtherWrites(Start(stock), log, me) }

    lemma RequestIsOk(me: OrderId)
      requires Valid() && me in requests
      ensures RequestOk(View(), me)
    {
      StartInv(stock);
      RunKeepsInv(Start(stock), log);
    }

    constructor (stock: nat, script: seq<Turn>)
      requires forall i :: 0 <= i < |script| ==> SaneResets(script[i].others)
      ensures Valid() && log == [] && this.stock == stock && cell == Some(stock) && sent == map[]
    {
      this.stock, cell, version, sent, requests, this.script, log := stock, Some(stock), 0, map[], map[], script, [];
      tokens := map[];
    }

    /** One step of anyone, as the model has it. */
    method Advance(e: Event)
      requires Valid() && (e.Reset? ==> e.count >= 0)
      modifies this`cell, this`version, this`requests, this`sent, this`log
      ensures Valid() && View() == Step(old(View()), e) && log == old(log) + [e]
    {
      var t := Step(View(), e);
      RunSnoc(Start(stock), log, e);
      cell, version, requests, sent, log := t.cell, t.version, t.requests, t.sent, log + [e];
    }

    /** One step of someone else. */
    method AdvanceOther(e: Event, me: OrderId)
      requires Valid() && (e.Reset? ==> e.count >= 0) && !Concerns(e, me)
      modifies this`cell, this`version, this`requests, this`sent, this`log
      ensures Valid() && log == old(log) + [e] && Mine(log, me) == old(Mine(log, me))
      ensures Spared(old(View()), View(), me)
      ensures Heard(me) - old(Heard(me)) == version - old(version)
    {
      OthersStep(View(), e, me);
      OtherWritesSnoc(Start(stock), log, e, me);
      MineSnoc(log, e, me);
      Advance(e);
    }

    // What the script has in store for our next command.
    function NextFate(): Fate reads this { if script == [] then Done else script[0].fate }
    function NextTokens(): map<string, string> reads this { if script == [] then tokens else script[0].tokens }
    function Later(): seq<Turn> reads this { if script == [] then [] else script[1..] }

    function NextOthers(me: OrderId): seq<Event> reads this {
      if script == [] then [] else Without(script[0].others, me)
    }

    /** What a faultless or quiet script has in store for the next command, and after it. */
    lemma Ahead(me: OrderId)
      ensures NoFaults(script) ==> NextFate().Done? && NoFaults(Later())
      ensures Quiet(script) ==> NextFate().Done? && NextOthers(me) == [] && Quiet(Later())
    {}

    /** Lets the others run for a turn. */
    method Interleave(me: OrderId) returns (fate: Fate)
      requires Valid()
      modifies this
      ensures Valid() && log == old(log) + old(NextOthers(me)) && Mine(log, me) == old(Mine(log, me))
      ensures fate == old(NextFate()) && tokens == old(NextTokens()) && script == old(Later())
      ensures Spared(old(View()), View(), me)
      ensures Heard(me) - old(Heard(me)) == version - old(version)
      ensures old(NextOthers(me)) == [] ==> View() == old(View())
    {
      fate := Done;
      if script == [] { return; }
      var turn := script[0];
      script := script[1..];
      fate, tokens := turn.fate, turn.tokens;
      for i := 0 to |turn.others|
        invariant Valid()
        invariant log == old(log) + Without(turn.others[..i], me) && Mine(log, me) == old(Mine(log, me))
        invariant Spared(old(View()), View(), me)
        invariant Heard(me) - old(Heard(me)) == version - old(version)
        invariant script == old(script)[1..] && tokens == turn.tokens
      {
        assert turn.others[..i + 1][..i] == turn.others[..i];
        if !Concerns(turn.others[i], me) {
          AdvanceOther(turn.others[i], me);
        }
      }
      assert turn.others[..|turn.others|] == turn.others;
    }

    /** Notes that our command has just been carried out. */
    ghost method Record(me: OrderId, act: Act)
      requires SaneResets(log)
      requires forall i :: 0 <= i < |script| ==> SaneResets(script[i].others)
      requires me in Run(Start(stock), log).requests
      requires View() == Apply(Run(Start(stock), log), me, EffectOf(Run(Start(stock), log), me, act))
      modifies this`log
      ensures Valid() && log == old(log) + [Do(me, act)] && Heard(me) == old(Heard(me))
      ensures Mine(log, me) == Then(old(Mine(log, me)), act)
    {
      RunSnoc(Start(stock), log, Do(me, act));
      OtherWritesSnoc(Start(stock), log, Do(me, act), me);
      MineSnoc(log, Do(me, act), me);
      log := log + [Do(me, act)];
    }

    /** Carries out our command: INCRBY `delta`, no write when it is zero, and on to `pc`. */
    method Commit(me: OrderId, delta: int, pc: Pc, ghost act: Act)
      requires Valid() && me in requests && EffectOf(View(), me, act) == Effect(pc, delta, false)
      modifies this`cell, this`version, this`requests, this`log
      ensures Valid() && log == old(log) + [Do(me, act)] && Heard(me) == old(Heard(me))
      ensures Mine(log, me) == Then(old(Mine(log, me)), act)
      ensures requests == old(requests)[me := old(requests)[me].(pc := pc)]
      ensures cell == if delta == 0 then old(cell) else Some(old(View()).Value() + delta)
      ensures version == if delta == 0 then old(version) else old(version) + 1
    {
      if delta != 0 {
        cell := Some((if cell.Some? then cell.value else 0) + delta);
        version := version + 1;
      }
      requests := requests[me := requests[me].(pc := pc)];
      Record(me, act);
    }

    /** Ends the request without a command. */
    method Finish(me: OrderId, pc: Pc, ghost act: Act)
      requires Valid() && me in requests && EffectOf(View(), me, act) == Effect(pc, 0, false)
      modifies this`requests, this`log
      ensures Valid() && log == old(log) + [Do(me, act)] && Heard(me) == old(Heard(me))
      ensures Mine(log, me) == Then(old(Mine(log, me)), act)
      ensures requests == old(requests)[me := old(requests)[me].(pc := pc)]
    {
      requests := requests[me := requests[me].(pc := pc)];
      Record(me, act);
    }

    // ---------------------------------------------------------------- one command each

    /** GET token:<user>. */
    method GetToken(me: OrderId, user: string) returns (stored: Option<string>)
      requires Valid() && me !in requests && me !in sent
      modifies this
      ensures Valid() && log == old(log) + old(NextOthers(me)) && script == old(Later())
      ensures me !in requests && me !in sent && Mine(log, me) == old(Mine(log, me))
      ensures stored.Some? <==> old(NextFate()).Done? && user in old(NextTokens())
      ensures stored.Some? ==> stored.value == old(NextTokens())[user]
      ensures old(NextOthers(me)) == [] ==> View() == old(View())
    {
      var fate := Interleave(me);
      stored := if fate.Done? then TokenIn(tokens, user) else None;
    }

    // Each command is sent once: what the script has the others do comes first, then our command with the fate
    // that the script gives it.

    method DecrInventoryBy(me: OrderId, quantity: int) returns (r: Reply)
      requires Valid() && At(me, Idle) && requests[me].order.quantity == quantity
      modifies this
      ensures Valid() && script == old(Later())
      ensures log == old(log) + old(NextOthers(me)) + [Do(me, Decr(r.fate))]
      ensures Mine(log, me) == Then(old(Mine(log, me)), Decr(r.fate)) && r.fate == old(NextFate())
      ensures me in requests && requests[me].order == old(requests)[me].order
      ensures requests[me].pc == if r.fate.NotApplied? then Errored else if r.fate.ReplyLost? then Leaked
                                 else if r.value < 0 then Losing else Held(r.value)
      ensures r.fate.Done? ==> cell == Some(r.value)
      ensures me in sent <==> me in old(sent)
      ensures old(NextOthers(me)) == [] ==>
                View().Value() == old(View()).Value() - if r.fate.NotApplied? then 0 else quantity
    {
      RequestIsOk(me);
      var fate := Interleave(me);
      if fate.NotApplied? {
        r := Reply(fate, 0);
        Commit(me, 0, Errored, Decr(fate));
      } else {
        r := Reply(fate, View().Value() - quantity);
        var pc := if fate.ReplyLost? then Leaked else if r.value < 0 then Losing else Held(r.value);
        Commit(me, -quantity, pc, Decr(fate));
      }
    }

    /** Gives `quantity` back: a loser's compensation, or the rollback of a failed publish. */
    method IncrInventoryBy(me: OrderId, quantity: int) returns (r: Reply)
      requires Valid() && me in requests && requests[me].order.quantity == quantity
      requires requests[me].pc.Losing? || requests[me].pc.Rolling?
      modifies this
      ensures Valid() && script == old(Later())
      ensures log == old(log) + old(NextOthers(me)) + [Do(me, GivingBack(old(requests)[me].pc, r.fate))]
      ensures Mine(log, me) == Then(old(Mine(log, me)), GivingBack(old(requests)[me].pc, r.fate))
      ensures r.fate == old(NextFate())
      ensures me in requests && requests[me].order == old(requests)[me].order
      ensures requests[me].pc == AfterGivingBack(old(requests)[me].pc, r.fate)
      ensures me in sent <==> me in old(sent)
      ensures old(NextOthers(me)) == [] ==>
                View().Value() == old(View()).Value() + if r.fate.NotApplied? then 0 else quantity
    {
      RequestIsOk(me);
      var pc := requests[me].pc;
      var fate := Interleave(me);
      var delta := if fate.NotApplied? then 0 else quantity;
      r := Reply(fate, View().Value() + delta);
      GivingBackEffect(View(), me, fate);
      Commit(me, delta, AfterGivingBack(pc, fate), GivingBack(pc, fate));
    }

    /** The check-and-decrement script: -1 when the stock is short, else the value after the decrement. */
    method RunLuaScript(me: OrderId, quantity: int) returns (r: Reply)
      requires Valid() && At(me, Idle) && requests[me].order.quantity == quantity
      modifies this
      ensures Valid() && script == old(Later())
      ensures log == old(log) + old(NextOthers(me)) + [Do(me, Lua(r.fate))]
      ensures Mine(log, me) == Then(old(Mine(log, me)), Lua(r.fate)) && r.fate == old(NextFate())
      ensures me in requests && requests[me].order == old(requests)[me].order
      ensures r.fate.NotApplied? ==> requests[me].pc == Errored
      ensures r.fate.ReplyLost? ==> requests[me].pc in {Errored, Leaked}
      ensures r.fate.Done? ==> requests[me].pc == if r.value < 0 then SoldOut else Held(r.value)
      ensures r.fate.Done? && r.value >= 0 ==> cell == Some(r.value)
      ensures me in sent <==> me in old(sent)
      ensures old(NextOthers(me)) == [] ==>
                var v := old(View()).Value();
                && View().Value() == (if r.fate.NotApplied? || v < quantity then v else v - quantity)
                && (r.fate.Done? ==> (r.value < 0 <==> v < quantity))
    {
      RequestIsOk(me);
      var fate := Interleave(me);
      var current := if cell.Some? then cell.value else 0;
      if fate.NotApplied? {
        r := Reply(fate, 0);
        Commit(me, 0, Errored, Lua(fate));
      } else if current < quantity {
        r := Reply(fate, -1);
        Commit(me, 0, if fate.Done? then SoldOut else Errored, Lua(fate));
      } else {
        r := Reply(fate, current - quantity);
        Commit(me, -quantity, if fate.Done? then Held(r.value) else Leaked, Lua(fate));
      }
    }

    /** WATCH: remembers the version the key has now. */
    method Watch(me: OrderId) returns (ok: bool)
      requires Valid() && me in requests && (requests[me].pc.Idle? || requests[me].pc.Conflicted?)
      modifies this
      ensures Valid() && script == old(Later())
      ensures log == old(log) + old(NextOthers(me)) + [Do(me, Inventory.Act.Watch(ok))]
      ensures Mine(log, me) == Then(old(Mine(log, me)), Inventory.Act.Watch(ok)) && ok == old(NextFate()).Done?
      ensures me in requests && requests[me].order == old(requests)[me].order
      ensures requests[me].pc == if ok then Watching(version) else Errored
      ensures version >= old(version) && Heard(me) - old(Heard(me)) == version - old(version)
      ensures me in sent <==> me in old(sent)
      ensures old(NextOthers(me)) == [] ==> cell == old(cell) && version == old(version)
    {
      var fate := Interleave(me);
      ok := fate.Done?;
      Commit(me, 0, if ok then Watching(version) else Errored, Inventory.Act.Watch(ok));
    }

    /** GET on the watched key; None when the key is absent. */
    method Get(me: OrderId, quantity: int) returns (ok: bool, value: Option<int>)
      requires Valid() && me in requests && requests[me].pc.Watching? && requests[me].order.quantity == quantity
      modifies this
      ensures Valid() && script == old(Later())
      ensures log == old(log) + old(NextOthers(me)) + [Do(me, Inventory.Act.Get(ok))]
      ensures Mine(log, me) == Then(old(Mine(log, me)), Inventory.Act.Get(ok)) && ok == old(NextFate()).Done?
      ensures me in requests && requests[me].order == old(requests)[me].order
      ensures ok ==> value == cell
      ensures requests[me].pc == if !ok then Errored else
                var current := if value.Some? then value.value else 0;
                if current < quantity then SoldOut else Deciding(old(requests)[me].pc.seen, current)
      ensures version >= old(version) && Heard(me) - old(Heard(me)) == version - old(version)
      ensures me in sent <==> me in old(sent)
      ensures old(NextOthers(me)) == [] ==> cell == old(cell) && version == old(version)
    {
      var fate := Interleave(me);
      ok, value := fate.Done?, cell;
      var pc := requests[me].pc;
      var current := if value.Some? then value.value else 0;
      Commit(me, 0, if !ok then Errored else if current < quantity then SoldOut else Deciding(pc.seen, current),
             Inventory.Act.Get(ok));
    }

    /** The EXEC is carried out, or fails. */
    method ExecNow(me: OrderId, quantity: int, fate: Fate) returns (committed: bool)
      requires Valid() && me in requests && requests[me].pc.Deciding? && requests[me].order.quantity == quantity
      modifies this`cell, this`version, this`requests, this`log
      ensures Valid() && log == old(log) + [Do(me, Inventory.Act.Exec(fate))] && Heard(me) == old(Heard(me))
      ensures Mine(log, me) == Then(old(Mine(log, me)), Inventory.Act.Exec(fate))
      ensures committed <==> !fate.NotApplied? && old(version) == old(requests)[me].pc.seen
      ensures var r := old(requests)[me];
              requests == old(requests)[me := r.(pc := AfterExec(committed, fate, r.pc.current - quantity))]
      ensures committed ==> cell == Some(old(requests)[me].pc.current - quantity) && version == old(version) + 1
      ensures !committed ==> cell == old(cell) && version == old(version)
    {
      RequestIsOk(me);
      var pc := requests[me].pc;
      committed := !fate.NotApplied? && version == pc.seen;
      ExecEffect(View(), me, fate);
      Commit(me, if committed then -quantity else 0, AfterExec(committed, fate, pc.current - quantity),
             Inventory.Act.Exec(fate));
    }

    /** MULTI/DECRBY/EXEC: refused when the key was written since the WATCH. */
    method Exec(me: OrderId, quantity: int) returns (fate: Fate, committed: bool)
      requires Valid() && me in requests && requests[me].pc.Deciding? && requests[me].order.quantity == quantity
      modifies this
      ensures Valid() && script == old(Later()) && fate == old(NextFate())
      ensures log == old(log) + old(NextOthers(me)) + [Do(me, Inventory.Act.Exec(fate))]
      ensures Mine(log, me) == Then(old(Mine(log, me)), Inventory.Act.Exec(fate))
      ensures me in requests && requests[me].order == old(requests)[me].order
      ensures requests[me].pc == AfterExec(committed, fate, old(requests)[me].pc.current - quantity)
      ensures committed ==> cell == Some(old(requests)[me].pc.current - quantity)
      ensures !committed && !fate.NotApplied? ==> version != old(requests)[me].pc.seen
      ensures !committed ==> Heard(me) - old(Heard(me)) == version - old(version)
      ensures version >= old(version)
      ensures me in sent <==> me in old(sent)
      ensures old(NextOthers(me)) == [] ==>
                (committed <==> !fate.NotApplied? && old(version) == old(requests)[me].pc.seen)
    {
      fate := Interleave(me);
      committed := ExecNow(me, quantity, fate);
    }

    /** SET, for the reset endpoint. */
    method SetInventory(count: nat, fate: Fate) returns (ok: bool)
      requires Valid()
      modifies this`cell, this`version, this`log
      ensures Valid() && ok == fate.Done?
      ensures cell == if fate.NotApplied? then old(cell) else Some(count)
      ensures log == old(log) + if fate.NotApplied? then [] else [Reset(count)]
    {
      ok := fate.Done?;
      if !fate.NotApplied? {
        RunSnoc(Start(stock), log, Reset(count));
        cell, version, log := Some(count), version + 1, log + [Reset(count)];
      }
    }

    /** SendMessage reaches SQS unless it failed unapplied. */
    method Enqueue(me: OrderId, fate: Fate, pc: Pc)
      requires Valid() && me in requests && requests[me].pc.Held? && me !in sent
      requires pc == if fate.Done? then Accepted(requests[me].pc.remaining) else Rolling(fate.ReplyLost?)
      modifies this`sent, this`requests, this`log
      ensures Valid() && log == old(log) + [Do(me, Publish(fate))]
      ensures Mine(log, me) == Then(old(Mine(log, me)), Publish(fate))
      ensures requests == old(requests)[me := old(requests)[me].(pc := pc)]
      ensures sent == if fate.NotApplied? then old(sent) else old(sent)[me := old(requests)[me].order]
    {
      if !fate.NotApplied? {
        sent := sent[me := requests[me].order];
      }
      requests := requests[me := requests[me].(pc := pc)];
      Record(me, Publish(fate));
    }

    method SendMessage(me: OrderId) returns (ok: bool)
      requires Valid() && me in requests && requests[me].pc.Held? && me !in sent
      modifies this
      ensures Valid() && log == old(log) + old(NextOthers(me)) + [Do(me, Publish(old(NextFate())))]
      ensures Mine(log, me) == Then(old(Mine(log, me)), Publish(old(NextFate())))
      ensures script == old(Later()) && ok == old(NextFate()).Done?
      ensures me in requests && requests[me].order == old(requests)[me].order
      ensures ok ==> requests[me].pc == Accepted(old(requests)[me].pc.remaining)
      ensures !ok ==> requests[me].pc == Rolling(me in sent)
      ensures me in sent <==> !old(NextFate()).NotApplied?
      ensures me in sent <==> Out(requests[me].pc)
      ensures me in sent ==> sent[me] == requests[me].order
      ensures old(NextOthers(me)) == [] ==> cell == old(cell)
    {
      var fate := Interleave(me);
      ok := fate.Done?;
      Enqueue(me, fate, if ok then Accepted(requests[me].pc.remaining) else Rolling(fate.ReplyLost?));
    }
  }

  // ---------------------------------------------------------------- redis/client.go

  datatype Reservation =
    | Reserved(remaining: int)
    | ErrSoldOut
    | ErrContention
    | ErrUnknownStrategy
    | ErrRedis

  /** What the caller is told is what happened to its request. */
  predicate Tells(r: Reservation, pc: Pc) {
    match r
    case Reserved(remaining) => pc == Held(remaining)
    case ErrSoldOut => pc == SoldOut
    case ErrContention => pc == Contention
    case ErrUnknownStrategy => pc == Errored
    case ErrRedis => pc == Errored || pc == Leaked
  }

  /** OPTIMISTIC_RETRY_LIMIT: unset, unreadable or below one counts as one. */
  function OptimisticRetryLimit(configured: Option<int>): (limit: nat)
    ensures limit >= 1 && (limit == 1 || configured == Some(limit))
    ensures configured.Some? ==> limit >= configured.value
  {
    if configured.Some? && configured.value >= 1 then configured.value else 1
  }

  datatype Attempt = Committed(remaining: int) | Short | TxFailed | Broken

  /** What an attempt leaves behind: a commit the counter as it reports it, a refusal the request free to try
      again. */
  ghost predicate AttemptEnds(b: Backend, me: OrderId, r: Attempt)
    reads b
  {
    && me in b.requests && me !in b.sent
    && match r
       case Committed(remaining) => b.requests[me].pc == Held(remaining) && b.cell == Some(remaining)
       case Short => b.requests[me].pc == SoldOut
       case TxFailed => b.requests[me].pc == Conflicted
       case Broken => b.requests[me].pc == Errored || b.requests[me].pc == Leaked
  }

  function WatchedAndGot(before: Sent): Sent { Then(Then(before, Watch(true)), Get(true)) }

  /** The commands of one attempt, by what came of it: WATCH, GET, EXEC, cut short by the first fault or by
      short stock. */
  predicate AttemptSends(r: Attempt, before: Sent, after: Sent) {
    match r
    case Short => after == WatchedAndGot(before)
    case Broken =>
      || after == Then(before, Watch(false))
      || after == Then(Then(before, Watch(true)), Get(false))
      || after == Then(WatchedAndGot(before), Exec(NotApplied))
      || after == Then(WatchedAndGot(before), Exec(ReplyLost))
    case _ => after == Then(WatchedAndGot(before), Exec(Done))
  }

  /** The WATCH at the start of an attempt. */
  method StartAttempt(b: Backend, me: OrderId) returns (ok: bool)
    requires b.Valid() && me in b.requests && me !in b.sent
    requires b.requests[me].pc.Idle? || b.requests[me].pc.Conflicted?
    modifies b
    ensures b.Valid() && old(b.log) <= b.log && me in b.requests && me !in b.sent && b.script == old(b.Later())
    ensures b.requests[me].order == old(b.requests)[me].order
    ensures b.requests[me].pc == if ok then Watching(b.version) else Errored
    ensures Mine(b.log, me) == Then(old(Mine(b.log, me)), Watch(ok)) && ok == old(b.NextFate()).Done?
    ensures b.Heard(me) - old(b.Heard(me)) >= 0
    ensures old(b.NextOthers(me)) == [] ==> b.cell == old(b.cell)
  {
    ok := b.Watch(me);
  }

  /** The GET of an attempt, and what the function makes of it. */
  method LookAtStock(b: Backend, me: OrderId, quantity: int) returns (ok: bool, enough: bool)
    requires b.Valid() && me in b.requests && b.requests[me].order.quantity == quantity && me !in b.sent
    requires b.requests[me].pc.Watching? && b.requests[me].pc.seen <= b.version
    modifies b
    ensures b.Valid() && old(b.log) <= b.log && me in b.requests && me !in b.sent && b.script == old(b.Later())
    ensures b.requests[me].order == old(b.requests)[me].order
    ensures !ok ==> b.requests[me].pc == Errored
    ensures ok && !enough ==> b.requests[me].pc == SoldOut
    ensures ok && enough ==>
              && b.requests[me].pc.Deciding? && b.requests[me].pc.current == b.View().Value() >= quantity
              && b.requests[me].pc.seen == old(b.requests)[me].pc.seen
    ensures Mine(b.log, me) == Then(old(Mine(b.log, me)), Get(ok)) && ok == old(b.NextFate()).Done?
    ensures b.version >= old(b.version) && b.Heard(me) - old(b.Heard(me)) == b.version - old(b.version)
    ensures old(b.NextOthers(me)) == [] ==>
              && b.cell == old(b.cell) && b.version == old(b.version)
              && (ok ==> (enough <==> b.View().Value() >= quantity))
  {
    var value;
    ok, value := b.Get(me, quantity);
    var current := if value.Some? then value.value else 0;
    enough := current >= quantity;
  }

  /** The EXEC at the end of an attempt. */
  method FinishAttempt(b: Backend, me: OrderId, quantity: int) returns (r: Attempt)
    requires b.Valid() && me in b.requests && b.requests[me].order.quantity == quantity && me !in b.sent
    requires b.requests[me].pc.Deciding?
    modifies b
    ensures b.Valid() && old(b.log) <= b.log && AttemptEnds(b, me, r) && !r.Short?
    ensures b.requests[me].order == old(b.requests)[me].order
    ensures var sent := old(Mine(b.log, me));
            if r.Broken? then
              Mine(b.log, me) == Then(sent, Exec(NotApplied)) || Mine(b.log, me) == Then(sent, Exec(ReplyLost))
            else Mine(b.log, me) == Then(sent, Exec(Done))
    ensures r.Committed? ==> r.remaining == old(b.requests)[me].pc.current - quantity
    ensures r.TxFailed? ==> b.version != old(b.requests)[me].pc.seen && b.version >= old(b.version)
                            && b.Heard(me) - old(b.Heard(me)) == b.version - old(b.version)
    ensures old(NoFaults(b.script)) ==> NoFaults(b.script) && !r.Broken?
    ensures old(Quiet(b.script)) ==>
              Quiet(b.script) && (old(b.version) == old(b.requests)[me].pc.seen ==> r.Committed?)
  {
    var remaining := b.requests[me].pc.current - quantity;
    b.Ahead(me);
    var fate, committed := b.Exec(me, quantity);
    if fate != Done { return Broken; }
    return if committed then Committed(remaining) else TxFailed;
  }

  /** The WATCH and the GET of an attempt. */
  method WatchAndLook(b: Backend, me: OrderId, quantity: int) returns (ok: bool, enough: bool)
    requires b.Valid() && me in b.requests && b.requests[me].order.quantity == quantity && me !in b.sent
    requires b.requests[me].pc.Idle? || b.requests[me].pc.Conflicted?
    modifies b
    ensures b.Valid() && old(b.log) <= b.log && me in b.requests && me !in b.sent
    ensures b.requests[me].order == old(b.requests)[me].order
    ensures !ok ==> b.requests[me].pc == Errored && AttemptSends(Broken, old(Mine(b.log, me)), Mine(b.log, me))
    ensures ok ==> Mine(b.log, me) == WatchedAndGot(old(Mine(b.log, me)))
    ensures ok && !enough ==> b.requests[me].pc == SoldOut
    ensures ok && enough ==>
              && b.requests[me].pc.Deciding? && b.requests[me].pc.current == b.View().Value() >= quantity
              && b.Heard(me) - old(b.Heard(me)) >= b.version - b.requests[me].pc.seen >= 0
    ensures old(NoFaults(b.script)) ==> NoFaults(b.script) && ok
    ensures old(Quiet(b.script)) ==>
              && Quiet(b.script) && ok && b.View().Value() == old(b.View()).Value()
              && (enough <==> b.View().Value() >= quantity)
              && (enough ==> b.requests[me].pc.seen == b.version)
  {
    enough := false;
    b.Ahead(me);
    ok := StartAttempt(b, me);
    if !ok { return; }
    b.Ahead(me);
    ok, enough := LookAtStock(b, me, quantity);
  }

  /** With nobody else about, an attempt commits exactly when the stock suffices. */
  ghost predicate StockDecidesAttempt(b: Backend, quantity: int, r: Attempt, v: int)
    reads b
  {
    && r == (if v >= quantity then Committed(v - quantity) else Short)
    && b.View().Value() == if v >= quantity then v - quantity else v
  }

  /** One WATCH, GET, EXEC: the function the source passes to rdb.Watch. */
  method TryOnce(b: Backend, me: OrderId, quantity: int) returns (r: Attempt)
    requires b.Valid() && me in b.requests && b.requests[me].order.quantity == quantity && me !in b.sent
    requires b.requests[me].pc.Idle? || b.requests[me].pc.Conflicted?
    modifies b
    ensures b.Valid() && old(b.log) <= b.log && AttemptEnds(b, me, r)
    ensures b.requests[me].order == old(b.requests)[me].order
    ensures AttemptSends(r, old(Mine(b.log, me)), Mine(b.log, me))
    // an attempt is refused because someone else wrote the key meanwhile
    ensures r.TxFailed? ==> b.Heard(me) > old(b.Heard(me))
    ensures old(NoFaults(b.script)) ==> NoFaults(b.script) && !r.Broken?
    ensures old(Quiet(b.script)) ==> Quiet(b.script) && StockDecidesAttempt(b, quantity, r, old(b.View()).Value())
  {
    var ok, enough := WatchAndLook(b, me, quantity);
    if !ok { return Broken; }
    if !enough { return Short; }
    r := FinishAttempt(b, me, quantity);
  }

  /** After n attempts that were refused. */
  function Refused(before: Sent, n: nat): Sent {
    if n == 0 then before else Then(WatchedAndGot(Refused(before, n - 1)), Exec(Done))
  }

  /** The commands of an optimistic reservation: refused attempts, fewer than the limit, and one that decided; or
      as many as the limit and no more. */
  predicate LockSends(r: Reservation, before: Sent, after: Sent, refused: nat, limit: nat) {
    match r
    case Reserved(_) => refused < limit && AttemptSends(Committed(0), Refused(before, refused), after)
    case ErrSoldOut => refused < limit && AttemptSends(Short, Refused(before, refused), after)
    case ErrRedis => refused < limit && AttemptSends(Broken, Refused(before, refused), after)
    case ErrContention => refused == limit && after == Then(Refused(before, limit), GiveUp)
    case ErrUnknownStrategy => false
  }

  /** The commands of an atomic_decr reservation: a loser gives back before it answers. */
  predicate DecrSends(r: Reservation, before: Sent, after: Sent) {
    match r
    case Reserved(_) => after == Then(before, Decr(Done))
    case ErrSoldOut => after == Then(Then(before, Decr(Done)), Compensate(Done))
    case ErrRedis =>
      || after == Then(before, Decr(NotApplied))
      || after == Then(before, Decr(ReplyLost))
      || after == Then(Then(before, Decr(Done)), Compensate(NotApplied))
      || after == Then(Then(before, Decr(Done)), Compensate(ReplyLost))
    case _ => false
  }

  /** The one command of a lua_script reservation. */
  predicate LuaSends(r: Reservation, before: Sent, after: Sent) {
    match r
    case ErrRedis => after == Then(before, Lua(NotApplied)) || after == Then(before, Lua(ReplyLost))
    case ErrContention => false
    case ErrUnknownStrategy => false
    case _ => after == Then(before, Lua(Done))
  }

  /** The commands of a reservation, by the strategy configured. */
  ghost predicate StrategySends(strategy: string, r: Reservation, before: Sent, after: Sent, limit: nat) {
    if strategy == "" || strategy == "atomic_decr" then DecrSends(r, before, after)
    else if strategy == "optimistic" then exists refused: nat :: LockSends(r, before, after, refused, limit)
    else if strategy == "lua_script" then LuaSends(r, before, after)
    else r.ErrUnknownStrategy? && after == Then(before, Refuse)
  }

  /** What is promised of a reservation of `order` by any strategy. `v` is the counter before, and `faultless` and
      `quiet` say what was known of the script then. */
  ghost predicate Reserves(b: Backend, order: Order, r: Reservation, v: int, faultless: bool, quiet: bool)
    reads b
  {
    && order.id in b.requests && b.requests[order.id].order == order && order.id !in b.sent
    && Tells(r, b.requests[order.id].pc)
    // a success reports the counter as it is at that instant, and never below zero
    && (r.Reserved? ==> b.cell == Some(r.remaining) && r.remaining >= 0)
    // without a fault there is no Redis error, whatever the others do
    && (faultless ==> NoFaults(b.script) && r != ErrRedis)
    // and if they do nothing either, the stock alone decides
    && (quiet ==> Quiet(b.script) && StockDecidesReservation(b, order.quantity, r, v))
  }

  ghost predicate StockDecidesReservation(b: Backend, quantity: int, r: Reservation, v: int)
    reads b
  {
    && r == (if v >= quantity then Reserved(v - quantity) else ErrSoldOut)
    && b.View().Value() == if v >= quantity then v - quantity else v
  }

  /** What the caller of an attempt is told; one that was refused is tried again. */
  function Answer(attempt: Attempt): Reservation {
    match attempt
    case Committed(remaining) => Reserved(remaining)
    case Short => ErrSoldOut
    case TxFailed => ErrContention
    case Broken => ErrRedis
  }

  lemma AttemptReserves(b: Backend, order: Order, attempt: Attempt, v: int, faultless: bool, quiet: bool)
    requires b.Valid() && AttemptEnds(b, order.id, attempt) && !attempt.TxFailed?
    requires b.requests[order.id].order == order && RequestOk(b.View(), order.id)
    requires faultless ==> NoFaults(b.script) && !attempt.Broken?
    requires quiet ==> Quiet(b.script) && StockDecidesAttempt(b, order.quantity, attempt, v)
    ensures Reserves(b, order, Answer(attempt), v, faultless, quiet)
  {}

  /** The loop: attempts until one is not refused, or as many as the limit. */
  method AttemptUpTo(b: Backend, me: OrderId, quantity: int, limit: nat) returns (r: Attempt, ghost refused: nat)
    requires b.Valid() && b.At(me, Idle) && b.requests[me].order.quantity == quantity && me !in b.sent && limit >= 1
    modifies b
    ensures b.Valid() && old(b.log) <= b.log && AttemptEnds(b, me, r)
    ensures b.requests[me].order == old(b.requests)[me].order
    ensures if r.TxFailed? then refused == limit && Mine(b.log, me) == Refused(old(Mine(b.log, me)), limit)
            else refused < limit && AttemptSends(r, Refused(old(Mine(b.log, me)), refused), Mine(b.log, me))
    // every refused attempt is the work of a different write by someone else
    ensures r.TxFailed? ==> b.Heard(me) - old(b.Heard(me)) >= limit
    ensures old(NoFaults(b.script)) ==> NoFaults(b.script) && !r.Broken?
    ensures old(Quiet(b.script)) ==> Quiet(b.script) && StockDecidesAttempt(b, quantity, r, old(b.View()).Value())
  {
    var attempts := 0;
    r := TxFailed;
    ghost var sent, heard, v := Mine(b.log, me), b.Heard(me), b.View().Value();
    ghost var faultless, quiet := NoFaults(b.script), Quiet(b.script);
    while attempts < limit
      invariant 0 <= attempts <= limit && r.TxFailed?
      invariant b.Valid() && old(b.log) <= b.log
      invariant me in b.requests && b.requests[me].order == old(b.requests)[me].order && me !in b.sent
      invariant b.requests[me].pc == if attempts == 0 then Idle else Conflicted
      invariant b.Heard(me) - heard >= attempts && Mine(b.log, me) == Refused(sent, attempts)
      invariant faultless ==> NoFaults(b.script)
      invariant quiet ==> attempts == 0 && Quiet(b.script) && b.View().Value() == v
    {
      r := TryOnce(b, me, quantity);
      if !r.TxFailed? { return r, attempts; }
      attempts := attempts + 1;
    }
    return TxFailed, attempts;
  }

  method ReserveWithOptimisticLock(b: Backend, me: OrderId, quantity: int, configured: Option<int>)
    returns (r: Reservation, ghost refused: nat)
    requires b.Valid() && b.At(me, Idle) && b.requests[me].order.quantity == quantity && me !in b.sent
    requires b.requests[me].order.id == me
    modifies b
    ensures b.Valid() && old(b.log) <= b.log
    ensures Reserves(b, old(b.requests)[me].order, r, old(b.View()).Value(),
                     old(NoFaults(b.script)), old(Quiet(b.script)))
    ensures LockSends(r, old(Mine(b.log, me)), Mine(b.log, me), refused, OptimisticRetryLimit(configured))
    ensures r.ErrContention? ==> b.Heard(me) - old(b.Heard(me)) >= OptimisticRetryLimit(configured)
  {
    var attempt;
    attempt, refused := AttemptUpTo(b, me, quantity, OptimisticRetryLimit(configured));
    b.RequestIsOk(me);
    if attempt.TxFailed? {
      b.Finish(me, Contention, GiveUp);
    } else {
      AttemptReserves(b, b.requests[me].order, attempt, old(b.View()).Value(),
                      old(NoFaults(b.script)), old(Quiet(b.script)));
    }
    r := Answer(attempt);
  }

  method ReserveWithLua(b: Backend, me: OrderId, quantity: int) returns (r: Reservation)
    requires b.Valid() && b.At(me, Idle) && b.requests[me].order.quantity == quantity && me !in b.sent
    requires b.requests[me].order.id == me
    modifies b
    ensures b.Valid() && old(b.log) <= b.log
    ensures Reserves(b, old(b.requests)[me].order, r, old(b.View()).Value(),
                     old(NoFaults(b.script)), old(Quiet(b.script)))
    ensures LuaSends(r, old(Mine(b.log, me)), Mine(b.log, me))
  {
    var reply := b.RunLuaScript(me, quantity);
    b.RequestIsOk(me);
    if reply.fate != Done { return ErrRedis; }
    if reply.value < 0 { return ErrSoldOut; }
    return Reserved(reply.value);
  }

  /** The DECRBY of a reservation. */
  method Decrementing(b: Backend, me: OrderId, quantity: int) returns (r: Reply)
    requires b.Valid() && b.At(me, Idle) && b.requests[me].order.quantity == quantity && me !in b.sent
    modifies b
    ensures b.Valid() && old(b.log) <= b.log && me in b.requests && me !in b.sent
    ensures b.requests[me].order == old(b.requests)[me].order
    ensures b.requests[me].pc == if r.fate.NotApplied? then Errored else if r.fate.ReplyLost? then Leaked
                                 else if r.value < 0 then Losing else Held(r.value)
    ensures r.fate.Done? ==> b.cell == Some(r.value)
    ensures Mine(b.log, me) == Then(old(Mine(b.log, me)), Decr(r.fate))
    ensures old(NoFaults(b.script)) ==> NoFaults(b.script) && r.fate.Done?
    ensures old(Quiet(b.script)) ==> Quiet(b.script) && r == Reply(Done, old(b.View()).Value() - quantity)
  {
    b.Ahead(me);
    r := b.DecrInventoryBy(me, quantity);
  }

  /** A loser gives its units back. */
  method Compensating(b: Backend, me: OrderId, quantity: int) returns (ok: bool)
    requires b.Valid() && b.At(me, Losing) && b.requests[me].order.quantity == quantity && me !in b.sent
    modifies b
    ensures b.Valid() && old(b.log) <= b.log && me in b.requests && me !in b.sent
    ensures b.requests[me].order == old(b.requests)[me].order
    ensures ok ==> b.requests[me].pc == SoldOut
    ensures !ok ==> b.requests[me].pc in {Leaked, Errored}
    ensures var sent := old(Mine(b.log, me));
            if ok then Mine(b.log, me) == Then(sent, Compensate(Done))
            else Mine(b.log, me) == Then(sent, Compensate(NotApplied))
                 || Mine(b.log, me) == Then(sent, Compensate(ReplyLost))
    ensures old(NoFaults(b.script)) ==> NoFaults(b.script) && ok
    ensures old(Quiet(b.script)) ==> Quiet(b.script) && ok && b.View().Value() == old(b.View()).Value() + quantity
  {
    b.Ahead(me);
    var correction := b.IncrInventoryBy(me, quantity);
    ok := correction.fate == Done;
  }

  /** DECRBY, and INCRBY back if that went below zero. */
  method ReserveWithDecr(b: Backend, me: OrderId, quantity: int) returns (r: Reservation)
    requires b.Valid() && b.At(me, Idle) && b.requests[me].order.quantity == quantity && me !in b.sent
    requires b.requests[me].order.id == me
    modifies b
    ensures b.Valid() && old(b.log) <= b.log
    ensures Reserves(b, old(b.requests)[me].order, r, old(b.View()).Value(),
                     old(NoFaults(b.script)), old(Quiet(b.script)))
    ensures DecrSends(r, old(Mine(b.log, me)), Mine(b.log, me))
  {
    var reply := Decrementing(b, me, quantity);
    if reply.fate != Done { return ErrRedis; }
    if reply.value >= 0 { return Reserved(reply.value); }
    var corrected := Compensating(b, me, quantity);
    return if corrected then ErrSoldOut else ErrRedis;
  }

  method ReserveInventory(b: Backend, me: OrderId, quantity: int, strategy: string, configured: Option<int>)
    returns (r: Reservation)
    requires b.Valid() && b.At(me, Idle) && b.requests[me].order.quantity == quantity && me !in b.sent
    requires b.requests[me].order.id == me
    modifies b
    ensures b.Valid() && old(b.log) <= b.log
    ensures var known := strategy in {"", "atomic_decr", "optimistic", "lua_script"};
            && Reserves(b, old(b.requests)[me].order, r, old(b.View()).Value(),
                        known && old(NoFaults(b.script)), known && old(Quiet(b.script)))
            && (r.ErrUnknownStrategy? <==> !known)
    ensures StrategySends(strategy, r, old(Mine(b.log, me)), Mine(b.log, me), OptimisticRetryLimit(configured))
    ensures r.ErrContention? ==> strategy == "optimistic"
                                 && b.Heard(me) - old(b.Heard(me)) >= OptimisticRetryLimit(configured)
  {
    if strategy == "" || strategy == "atomic_decr" {
      r := ReserveWithDecr(b, me, quantity);
    } else if strategy == "optimistic" {
      ghost var refused;
      r, refused := ReserveWithOptimisticLock(b, me, quantity, configured);
    } else if strategy == "lua_script" {
      r := ReserveWithLua(b, me, quantity);
    } else {
      b.Finish(me, Errored, Refuse);
      return ErrUnknownStrategy;
    }
  }

  // ---------------------------------------------------------------- handlers/purchase.go

  datatype Response =
    | BadRequest                  // 400
    | Unauthorized                // 401
    | Created(remaining: int)     // 201
    | SoldOutResponse             // 409
    | ContentionResponse          // 409
    | ServerError                 // 500

  /** The admission gate: `stored` is what GET token:<customer> returned, None for none or an error. */
  predicate GatePasses(requireAdmission: bool, presented: string, stored: Option<string>) {
    requireAdmission ==> presented != "" && stored == Some(presented)
  }

  predicate Malformed(o: Order) { o.user == "" || o.quantity < 1 }

  /** The status matches what became of the request; and its order is out exactly when it was accepted or its
      publish reported a false error. */
  ghost predicate AnswersTruly(b: Backend, order: Order, response: Response)
    reads b
  {
    && !response.BadRequest? && !response.Unauthorized?
    && order.id in b.requests && b.requests[order.id].order == order
    && var pc := b.requests[order.id].pc;
       && (response.Created? <==> pc.Accepted?)
       && (response.Created? ==> pc == Accepted(response.remaining) && response.remaining >= 0)
       && (response.SoldOutResponse? <==> pc == SoldOut)
       && (response.ContentionResponse? <==> pc == Contention)
       && (response.ServerError? <==> pc in {Errored, Leaked, Credited, Orphaned})
       && (order.id in b.sent <==> pc.Accepted? || pc == Credited || pc == Orphaned)
       && (order.id in b.sent ==> b.sent[order.id] == order)
  }

  /** What a purchase comes to that meets no fault and nobody else: `v` is the counter before. */
  ghost predicate StockDecides(b: Backend, order: Order, response: Response, v: int)
    reads b
  {
    if v >= order.quantity then
      response == Created(v - order.quantity) && order.id in b.sent && b.View().Value() == v - order.quantity
    else
      response == SoldOutResponse && order.id !in b.sent && b.View().Value() == v
  }

  /** The commands behind the gate: the reservation's, then the publish if it succeeded, then the rollback if the
      publish failed. */
  ghost predicate PurchaseSends(strategy: string, response: Response, before: Sent, after: Sent, limit: nat) {
    exists r, reserved ::
      StrategySends(strategy, r, before, reserved, limit) && ThenPublishes(response, r, reserved, after)
  }

  predicate ThenPublishes(response: Response, r: Reservation, reserved: Sent, after: Sent) {
    match r
    case ErrSoldOut => response.SoldOutResponse? && after == reserved
    case ErrContention => response.ContentionResponse? && after == reserved
    case ErrUnknownStrategy => response.ServerError? && after == reserved
    case ErrRedis => response.ServerError? && after == reserved
    case Reserved(remaining) =>
      if response.ServerError? then
        after.Then? && after.act.Rollback?
        && (after.before == Then(reserved, Publish(NotApplied)) || after.before == Then(reserved, Publish(ReplyLost)))
      else
        response == Created(remaining) && after == Then(reserved, Publish(Done))
  }

  /** The publish, and the rollback of the reservation if it fails. */
  method PublishOrRollBack(b: Backend, order: Order) returns (ok: bool)
    requires b.Valid() && order.id in b.requests && b.requests[order.id].order == order && order.id !in b.sent
    requires b.requests[order.id].pc.Held?
    modifies b
    ensures b.Valid() && old(b.log) <= b.log
    ensures AnswersTruly(b, order, if ok then Created(old(b.requests)[order.id].pc.remaining) else ServerError)
    ensures var r := Reserved(old(b.requests)[order.id].pc.remaining);
            ThenPublishes(if ok then Created(r.remaining) else ServerError, r,
                          old(Mine(b.log, order.id)), Mine(b.log, order.id))
    ensures ok <==> old(b.NextFate()).Done?
    ensures old(b.NextOthers(order.id)) == [] && ok ==> b.cell == old(b.cell)
  {
    var me := order.id;
    b.RequestIsOk(me);
    ok := b.SendMessage(me);
    b.RequestIsOk(me);
    if !ok {
      var rollback := b.IncrInventoryBy(me, order.quantity);
      b.RequestIsOk(me);
    }
  }

  /** The request comes in. */
  method Begin(b: Backend, order: Order)
    requires b.Valid() && order.id !in b.requests && order.id !in b.sent && !Malformed(order)
    modifies b`cell, b`version, b`requests, b`sent, b`log
    ensures b.Valid() && old(b.log) <= b.log && Mine(b.log, order.id) == old(Mine(b.log, order.id))
    ensures b.At(order.id, Idle) && b.requests[order.id].order == order && order.id !in b.sent
    ensures b.cell == old(b.cell)
  {
    MineSnoc(b.log, Arrive(order), order.id);
    b.Advance(Arrive(order));
  }

  /** Everything behind the gate: reserve, publish, and roll back if the publish fails. */
  method ReserveAndPublish(b: Backend, order: Order, strategy: string, configured: Option<int>)
    returns (response: Response)
    requires b.Valid() && order.id !in b.requests && order.id !in b.sent && !Malformed(order)
    modifies b
    ensures b.Valid() && old(b.log) <= b.log && AnswersTruly(b, order, response)
    ensures PurchaseSends(strategy, response, old(Mine(b.log, order.id)), Mine(b.log, order.id),
                          OptimisticRetryLimit(configured))
    ensures response.ContentionResponse? ==> strategy == "optimistic"
    ensures strategy in {"", "atomic_decr", "optimistic", "lua_script"} ==>
              && (old(NoFaults(b.script)) ==> !response.ServerError?)
              && (old(Quiet(b.script)) ==> StockDecides(b, order, response, old(b.View()).Value()))
  {
    Begin(b, order);
    var reserved := ReserveInventory(b, order.id, order.quantity, strategy, configured);
    ghost var sent := Mine(b.log, order.id);
    match reserved {
      case ErrSoldOut => response := SoldOutResponse;
      case ErrContention => response := ContentionResponse;
      case ErrUnknownStrategy => response := ServerError;
      case ErrRedis => response := ServerError;
      case Reserved(remaining) =>
        var published := PublishOrRollBack(b, order);
        response := if published then Created(remaining) else ServerError;
    }
    assert ThenPublishes(response, reserved, sent, Mine(b.log, order.id));
  }

  method Purchase(b: Backend, order: Order, requireAdmission: bool, presented: string, strategy: string,
                  configured: Option<int>)
    returns (response: Response)
    requires b.Valid() && order.id !in b.requests && order.id !in b.sent
    modifies b
    ensures b.Valid() && old(b.log) <= b.log
    ensures response.BadRequest? <==> order.user == "" || order.quantity < 1
    ensures response.BadRequest? ==> b.log == old(b.log)
    // the gate: what counts is the token store at the instant of its read, and an error counts as no token
    ensures var tokens := old(b.NextTokens());
            response.Unauthorized?
            <==> order.user != "" && order.quantity >= 1 && requireAdmission
                 && (presented == "" || !old(b.NextFate()).Done?
                     || order.user !in tokens || tokens[order.user] != presented)
    ensures response.BadRequest? || response.Unauthorized? ==>
              order.id !in b.requests && order.id !in b.sent && Mine(b.log, order.id) == old(Mine(b.log, order.id))
    ensures !(response.BadRequest? || response.Unauthorized?) ==>
              && AnswersTruly(b, order, response)
              && PurchaseSends(strategy, response, old(Mine(b.log, order.id)), Mine(b.log, order.id),
                               OptimisticRetryLimit(configured))
    ensures response.ContentionResponse? ==> strategy == "optimistic"
    // a server error needs a fault or an unknown strategy; with neither, and nobody else, the stock decides
    ensures strategy in {"", "atomic_decr", "optimistic", "lua_script"} ==>
              && (old(NoFaults(b.script)) ==> !response.ServerError?)
              && (old(Quiet(b.script)) && !response.BadRequest? && !response.Unauthorized? ==>
                    StockDecides(b, order, response, old(b.View()).Value()))
  {
    if order.user == "" || order.quantity < 1 { return BadRequest; }
    if requireAdmission {
      if presented == "" { return Unauthorized; }
      var stored := b.GetToken(order.id, order.user);
      if stored != Some(presented) { return Unauthorized; }
    }
    response := ReserveAndPublish(b, order, strategy, configured);
  }
}
