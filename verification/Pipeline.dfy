/**
 The worker process: one poller, a buffered channel and a pool of workers, with shutdown on cancel.
 A step is one select, receive, send or handler call of one goroutine.
 */
module Pipeline {
  import opened Domain

  type Message = OrderId

  datatype Poller =
    | Checking                        // top of the loop
    | Receiving                       // inside ReceiveMessage
    | Idling                          // sleeping after a receive error
    | Sending(batch: seq<Message>)    // handing a batch to the channel
    | Returned                        // poll returned, the channel is still open
    | Closed                          // close(jobs) done

  datatype Worker = Waiting | Busy(message: Message) | Exited

  /** NumWorkers is |workers|, MaxMessagesPerReceive is batchSize, and the channel's capacity their product. */
  datatype State = State(
    batchSize: nat, capacity: nat, cancelled: bool, poller: Poller, jobs: seq<Message>, workers: seq<Worker>,
    logging: bool,                   // the metrics logger's goroutine is alive
    received: seq<Message>,          // all that ReceiveMessage ever returned, in order
    taken: seq<Message>,             // all that workers took from the channel, in order
    finished: multiset<Message>,     // those whose handleMessage returned
    dropped: seq<Message>            // left behind in a batch by cancellation
  )

  datatype Event =
    | Cancel
    | Check                            // the select at the top of poll
    | Receive(messages: seq<Message>)
    | ReceiveError
    | Wake
    | Send
    | AbandonBatch                     // ctx.Done wins the select around the send
    | Close
    | Take(worker: nat)
    | Finish(worker: nat)
    | Exit(worker: nat)                // ctx.Done, or the channel closed and empty
    | StopLogging                      // ctx.Done in the metrics logger

  predicate Enabled(s: State, e: Event) {
    match e
    case Cancel => !s.cancelled
    case Check => s.poller.Checking?
    case Receive(messages) => s.poller.Receiving? && |messages| <= s.batchSize
    case ReceiveError => s.poller.Receiving?
    case Wake => s.poller.Idling?
    case Send => s.poller.Sending? && s.poller.batch != [] && |s.jobs| < s.capacity
    case AbandonBatch => s.poller.Sending? && s.poller.batch != [] && s.cancelled
    case Close => s.poller.Returned?
    case Take(w) => w < |s.workers| && s.workers[w].Waiting? && s.jobs != []
    case Finish(w) => w < |s.workers| && s.workers[w].Busy?
    case Exit(w) => w < |s.workers| && s.workers[w].Waiting? && (s.cancelled || (s.poller.Closed? && s.jobs == []))
    case StopLogging => s.logging && s.cancelled
  }

  function AfterBatch(batch: seq<Message>): Poller { if batch == [] then Checking else Sending(batch) }

  function Step(s: State, e: Event): State
    requires Enabled(s, e)
  {
    match e
    case Cancel => s.(cancelled := true)
    case Check => s.(poller := if s.cancelled then Returned else Receiving)
    case Receive(messages) => s.(poller := AfterBatch(messages), received := s.received + messages)
    case ReceiveError => s.(poller := if s.cancelled then Returned else Idling)
    case Wake => s.(poller := if s.cancelled then Returned else Checking)
    case Send => s.(poller := AfterBatch(s.poller.batch[1..]), jobs := s.jobs + [s.poller.batch[0]])
    case AbandonBatch => s.(poller := Returned, dropped := s.poller.batch)
    case Close => s.(poller := Closed)
    case Take(w) => s.(jobs := s.jobs[1..], taken := s.taken + [s.jobs[0]], workers := s.workers[w := Busy(s.jobs[0])])
    case Finish(w) => s.(workers := s.workers[w := Waiting], finished := s.finished + multiset{s.workers[w].message})
    case Exit(w) => s.(workers := s.workers[w := Exited])
    case StopLogging => s.(logging := false)
  }

  function Start(workers: nat, batchSize: nat): State {
    State(batchSize, workers * batchSize, false, Checking, [], seq(workers, _ => Waiting), true, [], [], multiset{}, [])
  }

  /** Events that are not enabled are skipped, so a list of events is one schedule. */
  function Run(s: State, es: seq<Event>): State {
    if es == [] then s else
    var t := Run(s, es[..|es| - 1]);
    if Enabled(t, es[|es| - 1]) then Step(t, es[|es| - 1]) else t
  }

  // ---------------------------------------------------------------- what is in the pipeline

  /** How many workers hold message `m`. */
  function InHand(workers: seq<Worker>, m: Message): nat {
    if workers == [] then 0
    else InHand(workers[..|workers| - 1], m) + if workers[|workers| - 1] == Busy(m) then 1 else 0
  }

  function BusyWorkers(workers: seq<Worker>): nat {
    if workers == [] then 0
    else BusyWorkers(workers[..|workers| - 1]) + if workers[|workers| - 1].Busy? then 1 else 0
  }

  function Pending(p: Poller): seq<Message> { if p.Sending? then p.batch else [] }

  /** How many messages are received but neither finished nor dropped. */
  function Unfinished(s: State): nat { |Pending(s.poller)| + |s.jobs| + BusyWorkers(s.workers) }

  lemma {:induction false} InHandUpdate(workers: seq<Worker>, w: nat, v: Worker, m: Message)
    requires w < |workers|
    ensures InHand(workers[w := v], m) + (if workers[w] == Busy(m) then 1 else 0)
            == InHand(workers, m) + if v == Busy(m) then 1 else 0
    decreases |workers|
  {
    var n := |workers| - 1;
    if w < n {
      InHandUpdate(workers[..n], w, v, m);
      assert workers[w := v][..n] == workers[..n][w := v];
    } else {
      assert workers[w := v][..n] == workers[..n];
    }
  }

  lemma {:induction false} BusyAtMostAll(workers: seq<Worker>)
    ensures BusyWorkers(workers) <= |workers|
    decreases |workers|
  {
    if workers != [] { BusyAtMostAll(workers[..|workers| - 1]); }
  }

  /** Every copy of `m` that was taken is in a worker's hands or finished. */
  predicate Accounted(s: State, m: Message) { multiset(s.taken)[m] == InHand(s.workers, m) + s.finished[m] }

  /** The channel and the batch hold, in order, what was received and not yet taken. */
  predicate InOrder(s: State) { s.received == s.taken + s.jobs + Pending(s.poller) + s.dropped }

  ghost predicate Inv(s: State) {
    && |s.jobs| <= s.capacity
    && |Pending(s.poller)| <= s.batchSize
    && InOrder(s)
    && (forall m :: Accounted(s, m))
    && (s.dropped != [] ==> s.cancelled && (s.poller.Returned? || s.poller.Closed?))
    && (s.poller.Sending? ==> s.poller.batch != [])
  }

  lemma StepKeepsCount(s: State, e: Event, m: Message)
    requires Accounted(s, m) && Enabled(s, e)
    ensures Accounted(Step(s, e), m)
  {
    match e {
      case Take(w) => InHandUpdate(s.workers, w, Busy(s.jobs[0]), m);
      case Finish(w) => InHandUpdate(s.workers, w, Waiting, m);
      case Exit(w) => InHandUpdate(s.workers, w, Exited, m);
      case _ =>
    }
  }

  lemma MoveAcross<T>(a: seq<T>, b: seq<T>, c: seq<T>, d: seq<T>)
    requires c != []
    ensures a + b + c + d == a + (b + [c[0]]) + c[1..] + d
  {
    assert c == [c[0]] + c[1..];
  }

  lemma SendKeepsOrder(s: State)
    requires InOrder(s) && Enabled(s, Send)
    ensures InOrder(Step(s, Send))
  {
    MoveAcross(s.taken, s.jobs, s.poller.batch, s.dropped);
    assert Pending(Step(s, Send).poller) == s.poller.batch[1..];
  }

  lemma TakeKeepsOrder(s: State, w: nat)
    requires InOrder(s) && Enabled(s, Take(w))
    ensures InOrder(Step(s, Take(w)))
  {
    assert s.jobs == [s.jobs[0]] + s.jobs[1..];
  }

  lemma StepKeepsOrder(s: State, e: Event)
    requires Inv(s) && Enabled(s, e)
    ensures InOrder(Step(s, e))
  {
    match e {
      case Send => SendKeepsOrder(s);
      case Take(w) => TakeKeepsOrder(s, w);
      case Receive(messages) => assert Pending(Step(s, e).poller) == messages;
      case _ =>
    }
  }

  lemma StepKeepsInv(s: State, e: Event)
    requires Inv(s) && Enabled(s, e)
    ensures Inv(Step(s, e)) && |Step(s, e).workers| == |s.workers|
    ensures Step(s, e).batchSize == s.batchSize && Step(s, e).capacity == s.capacity
  {
    StepKeepsOrder(s, e);
    forall m ensures Accounted(Step(s, e), m) {
      assert Accounted(s, m);
      StepKeepsCount(s, e, m);
    }
  }

  lemma {:induction false} IdleInHand(workers: nat, m: Message)
    ensures InHand(seq(workers, _ => Waiting), m) == 0
  {
    if workers > 0 {
      IdleInHand(workers - 1, m);
      assert seq<Worker>(workers, _ => Waiting)[..workers - 1] == seq<Worker>(workers - 1, _ => Waiting);
    }
  }

  lemma StartInv(workers: nat, batchSize: nat)
    ensures Inv(Start(workers, batchSize))
  {
    forall m ensures Accounted(Start(workers, batchSize), m) { IdleInHand(workers, m); }
  }

  lemma {:induction false} RunKeepsInv(workers: nat, batchSize: nat, es: seq<Event>)
    ensures var s := Run(Start(workers, batchSize), es);
            Inv(s) && |s.workers| == workers && s.batchSize == batchSize && s.capacity == workers * batchSize
    decreases |es|
  {
    if es == [] {
      StartInv(workers, batchSize);
    } else {
      RunKeepsInv(workers, batchSize, es[..|es| - 1]);
      var t := Run(Start(workers, batchSize), es[..|es| - 1]);
      if Enabled(t, es[|es| - 1]) { StepKeepsInv(t, es[|es| - 1]); }
    }
  }

  /** What the receives of a schedule have returned, in order. */
  function Arrived(s: State, es: seq<Event>): seq<Message> {
    if es == [] then [] else
    var before, e := es[..|es| - 1], es[|es| - 1];
    Arrived(s, before) + if e.Receive? && Enabled(Run(s, before), e) then e.messages else []
  }

  lemma StepReceives(s: State, e: Event)
    requires Enabled(s, e)
    ensures Step(s, e).received == s.received + if e.Receive? then e.messages else []
  {}

  lemma {:induction false} ReceivedIsArrived(s: State, es: seq<Event>)
    ensures Run(s, es).received == s.received + Arrived(s, es)
    decreases |es|
  {
    if es != [] {
      var before, e := es[..|es| - 1], es[|es| - 1];
      ReceivedIsArrived(s, before);
      if Enabled(Run(s, before), e) { StepReceives(Run(s, before), e); }
    }
  }

  /** Back-pressure, order, and no message lost inside the process: at most one batch, a full channel and
      one message a worker are unfinished; workers take the messages in the order received; every copy
      taken is in hand or finished; and only cancellation leaves any behind, for SQS to deliver again. */
  lemma Bounded(workers: nat, batchSize: nat, es: seq<Event>)
    ensures var s := Run(Start(workers, batchSize), es);
            && Unfinished(s) <= workers * batchSize + workers + batchSize
            && s.capacity == workers * batchSize
            && Arrived(Start(workers, batchSize), es) == s.taken + s.jobs + Pending(s.poller) + s.dropped
            && (forall m :: multiset(s.taken)[m] == InHand(s.workers, m) + s.finished[m])
            && (s.dropped != [] ==> s.cancelled)
  {
    RunKeepsInv(workers, batchSize, es);
    ReceivedIsArrived(Start(workers, batchSize), es);
    var s := Run(Start(workers, batchSize), es);
    BusyAtMostAll(s.workers);
    forall m ensures multiset(s.taken)[m] == InHand(s.workers, m) + s.finished[m] { assert Accounted(s, m); }
  }

  // ---------------------------------------------------------------- shutdown

  /** Run has returned: poll is back, the channel closed, every worker gone and the metrics logger too. */
  predicate Down(s: State) {
    s.poller.Closed? && !s.logging && forall w :: 0 <= w < |s.workers| ==> s.workers[w].Exited?
  }

  function PollerWork(p: Poller, batchSize: nat): nat {
    match p
    case Receiving => 4 * batchSize + 4
    case Idling => 3
    case Checking => 2
    case Sending(batch) => 3 + 4 * |batch|
    case Returned => 1
    case Closed => 0
  }

  function WorkOf(w: Worker): nat { match w case Waiting => 1 case Busy(_) => 2 case Exited => 0 }

  function WorkerWork(workers: seq<Worker>): nat {
    if workers == [] then 0 else WorkerWork(workers[..|workers| - 1]) + WorkOf(workers[|workers| - 1])
  }

  lemma {:induction false} WorkerWorkUpdate(workers: seq<Worker>, w: nat, v: Worker)
    requires w < |workers|
    ensures WorkerWork(workers[w := v]) + WorkOf(workers[w]) == WorkerWork(workers) + WorkOf(v)
    decreases |workers|
  {
    var n := |workers| - 1;
    if w < n {
      WorkerWorkUpdate(workers[..n], w, v);
      assert workers[w := v][..n] == workers[..n][w := v];
    } else {
      assert workers[w := v][..n] == workers[..n];
    }
  }

  /** How much is left to do before the process is down. */
  function Work(s: State): nat {
    PollerWork(s.poller, s.batchSize) + 3 * |s.jobs| + WorkerWork(s.workers) + if s.logging then 1 else 0
  }

  lemma StepDoesWork(s: State, e: Event)
    requires s.cancelled && Enabled(s, e)
    ensures Work(Step(s, e)) < Work(s) && Step(s, e).cancelled
  {
    match e {
      case Take(w) => WorkerWorkUpdate(s.workers, w, Busy(s.jobs[0]));
      case Finish(w) => WorkerWorkUpdate(s.workers, w, Waiting);
      case Exit(w) => WorkerWorkUpdate(s.workers, w, Exited);
      case _ =>
    }
  }

  /** While the process is not down, somebody can move. */
  lemma NeverStuck(s: State) returns (e: Event)
    requires s.cancelled && !Down(s)
    requires s.poller.Sending? ==> s.poller.batch != []
    ensures Enabled(s, e)
  {
    match s.poller {
      case Checking => return Check;
      case Receiving => return ReceiveError;
      case Idling => return Wake;
      case Sending(_) => return AbandonBatch;
      case Returned => return Close;
      case Closed =>
        if s.logging { return StopLogging; }
        var w :| 0 <= w < |s.workers| && !s.workers[w].Exited?;
        return if s.workers[w].Busy? then Finish(w) else Exit(w);
    }
  }

  /** Each event of the list is enabled in turn. */
  predicate Proceeds(s: State, es: seq<Event>)
    decreases |es|
  {
    es != [] ==> Enabled(s, es[0]) && Proceeds(Step(s, es[0]), es[1..])
  }

  function After(s: State, es: seq<Event>): State
    requires Proceeds(s, es)
    decreases |es|
  {
    if es == [] then s else After(Step(s, es[0]), es[1..])
  }

  lemma {:induction false} ShutdownFrom(s: State, es: seq<Event>)
    requires s.cancelled && Proceeds(s, es)
    requires s.poller.Sending? ==> s.poller.batch != []
    ensures |es| + Work(After(s, es)) <= Work(s)
    ensures (forall e :: !Enabled(After(s, es), e)) ==> Down(After(s, es))
    decreases |es|
  {
    if es == [] {
      if !Down(s) { var e := NeverStuck(s); }
    } else {
      StepDoesWork(s, es[0]);
      ShutdownFrom(Step(s, es[0]), es[1..]);
    }
  }

  /** Shutdown terminates: once a run is cancelled, whenever that is, no schedule takes more steps than
      there is work left, and one that cannot be continued has brought the process down. */
  lemma ShutdownTerminates(workers: nat, batchSize: nat, before: seq<Event>, es: seq<Event>)
    requires var s := Run(Start(workers, batchSize), before); s.cancelled && Proceeds(s, es)
    ensures var s := Run(Start(workers, batchSize), before);
            && |es| + Work(After(s, es)) <= Work(s)
            && ((forall e :: !Enabled(After(s, es), e)) ==> Down(After(s, es)))
  {
    RunKeepsInv(workers, batchSize, before);
    ShutdownFrom(Run(Start(workers, batchSize), before), es);
  }
}
