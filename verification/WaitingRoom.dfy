/**
 The waiting room: joins, position polls, admission tickers and tokens on one Redis.

 Any number of handler calls on any number of replicas move one Redis command or script at a time,
 interleaved with tickers, token expiry and resets. As in `Inventory`, an event that does not fit
 changes nothing, so that a list of events is one interleaving.
 */
module WaitingRoom {
  import opened Domain
  import opened SortedSet

  type User = string
  type Token = string
  type CallId = nat

  datatype Stores = Stores(
    zset: seq<Entry>,
    seqno: nat,
    admitted: nat,
    tokens: map<User, Token>,
    minted: set<Token>,        // every token ever generated
    issued: set<User>,         // every user a token was ever stored for
    arrivals: seq<User>        // who ran the timestamp_incr script, in order, repeats included
  )

  /** Where one handler call is. */
  datatype Pc =
    | Joining(user: User)                     // Join: about to look for an existing rank
    | Scripting(user: User)                   // Join: about to run the script
    | Joined(user: User, position: int)       // join handler: about to call GetPosition
    | Polling(user: User)                     // position handler: about to call GetPosition
    | Ranked(user: User, position: int)       // rank known, about to read the admitted count
    | Cleared(user: User)                     // position <= admitted: about to look for a token
    | Minting(user: User, own: Token)         // none found: about to SETNX its own
    | Checking(user: User, own: Token)        // about to read the token back
    | Admitted(user: User, token: Token)      // answered with a token
    | Waiting(user: User, position: int, admitted: nat)  // answered without
    | NotInQueue(user: User)                  // 404
    | Failed(user: User)                      // 500

  datatype State = State(stores: Stores, calls: map<CallId, Pc>)

  /** The score a join uses: the sequence number, or the replica's clock in ms. */
  datatype Scoring = Incr | Timestamp(ms: int)

  datatype Act =
    | PreCheck(ok: bool)
    | Script(scoring: Scoring, fate: Fate)
    | Confirm(ok: bool)
    | ReadRank(ok: bool)
    | ReadAdmitted(ok: bool)
    | GetToken(ok: bool, minted: Token)
    | Issue(fate: Fate)
    | Recheck(ok: bool)

  datatype Event =
    | Call(id: CallId, user: User, join: bool)
    | Do(who: CallId, act: Act)
    | Tick
    | Expire(user: User)
    | Reset

  /** The entry with which a join adds the user. */
  function EntryOf(s: Stores, u: User, scoring: Scoring): Entry {
    Entry(if scoring.Incr? then s.seqno + 1 else scoring.ms, u)
  }

  /** Both join scripts: INCR if so configured, then ZADD NX. */
  function RunScript(s: Stores, u: User, scoring: Scoring): Stores {
    match scoring
    case Incr => s.(seqno := s.seqno + 1, zset := Add(s.zset, Entry(s.seqno + 1, u)), arrivals := s.arrivals + [u])
    case Timestamp(ms) => s.(zset := Add(s.zset, Entry(ms, u)))
  }

  function Position(s: Stores, u: User): Option<int> {
    match Rank(s.zset, u)
    case Some(r) => Some(r + 1)
    case None => None
  }

  function Outcome(s: Stores, pc: Pc, act: Act): (Stores, Pc) {
    match act
    case PreCheck(ok) =>
      if !pc.Joining? then (s, pc) else
      var p := Position(s, pc.user);
      (s, if ok && p.Some? then Joined(pc.user, p.value) else Scripting(pc.user))
    case Script(scoring, f) =>
      if !pc.Scripting? then (s, pc)
      else if f.NotApplied? then (s, Failed(pc.user))
      else
        var t := RunScript(s, pc.user, scoring);
        var p := Position(t, pc.user);
        (t, if f.Done? && p.Some? then Joined(pc.user, p.value) else Failed(pc.user))
    case Confirm(ok) =>
      if !pc.Joined? then (s, pc)
      else if !ok then (s, Failed(pc.user))
      else if Position(s, pc.user).None? then (s, Waiting(pc.user, pc.position, 0))
      else (s, Ranked(pc.user, pc.position))
    case ReadRank(ok) =>
      if !pc.Polling? then (s, pc)
      else if !ok then (s, Failed(pc.user))
      else
        var p := Position(s, pc.user);
        (s, if p.Some? then Ranked(pc.user, p.value) else NotInQueue(pc.user))
    case ReadAdmitted(ok) =>
      if !pc.Ranked? then (s, pc)
      else if !ok then (s, Failed(pc.user))
      else (s, if pc.position <= s.admitted then Cleared(pc.user) else Waiting(pc.user, pc.position, s.admitted))
    case GetToken(ok, new_) =>
      if !pc.Cleared? then (s, pc)
      else if ok && pc.user in s.tokens then (s, Admitted(pc.user, s.tokens[pc.user]))
      else if new_ == "" || new_ in s.minted then (s, pc)    // uuid.New is never empty and never repeats
      else (s.(minted := s.minted + {new_}), Minting(pc.user, new_))
    case Issue(f) =>
      if !pc.Minting? then (s, pc)
      else if f.NotApplied? then (s, Failed(pc.user))
      else
        (StoreToken(s, pc.user, pc.own), if f.Done? then Checking(pc.user, pc.own) else Failed(pc.user))
    case Recheck(ok) =>
      if !pc.Checking? then (s, pc)
      else (s, Admitted(pc.user, if ok && pc.user in s.tokens then s.tokens[pc.user] else pc.own))
  }

  /** SETNX token:<user>. */
  function StoreToken(s: Stores, u: User, t: Token): Stores {
    if u in s.tokens then s else s.(tokens := s.tokens[u := t], issued := s.issued + {u})
  }

  function Step(s: State, e: Event): State {
    match e
    case Call(c, u, join) =>
      if c in s.calls then s else s.(calls := s.calls[c := if join then Joining(u) else Polling(u)])
    case Do(c, act) =>
      if c !in s.calls then s else
      var (t, pc) := Outcome(s.stores, s.calls[c], act);
      State(t, s.calls[c := pc])
    case Tick => s.(stores := s.stores.(admitted := s.stores.admitted + 1))
    case Expire(u) => s.(stores := s.stores.(tokens := s.stores.tokens - {u}))
    // DEL of the queue, admitted and seq keys; the tokens stay
    case Reset => s.(stores := s.stores.(zset := [], admitted := 0, seqno := 0, arrivals := []))
  }

  function Run(s: State, es: seq<Event>): State {
    if es == [] then s else Step(Run(s, es[..|es| - 1]), es[|es| - 1])
  }

  function Start(): State { State(Stores([], 0, 0, map[], {}, {}, []), map[]) }

  lemma RunSnoc(s: State, es: seq<Event>, e: Event)
    ensures Run(s, es + [e]) == Step(Run(s, es), e)
  {
    assert (es + [e])[..|es|] == es;
  }

  lemma {:induction false} RunAppend(s: State, es: seq<Event>, fs: seq<Event>)
    ensures Run(s, es + fs) == Run(Run(s, es), fs)
    decreases |fs|
  {
    if fs == [] {
      assert es + fs == es;
    } else {
      assert es + fs == (es + fs[..|fs| - 1]) + [fs[|fs| - 1]];
      RunSnoc(s, es + fs[..|fs| - 1], fs[|fs| - 1]);
      RunAppend(s, es, fs[..|fs| - 1]);
    }
  }

  lemma RunCons(s: State, e: Event, es: seq<Event>)
    ensures Run(s, [e] + es) == Run(Step(s, e), es)
  {
    assert [] + [e] == [e];
    RunSnoc(s, [], e);
    RunAppend(s, [e], es);
  }

  // ---------------------------------------------------------------- under either strategy

  lemma ScriptKeepsOrder(s: Stores, u: User, scoring: Scoring)
    requires Valid(s.zset)
    ensures var t := RunScript(s, u, scoring);
            Valid(t.zset) && Has(t.zset, u) && forall x :: x in s.zset ==> x in t.zset
  {
    AddKeepsValid(s.zset, Entry(if scoring.Incr? then s.seqno + 1 else scoring.ms, u));
  }

  lemma OutcomeKeepsOrder(s: Stores, pc: Pc, act: Act)
    requires Valid(s.zset)
    ensures var t := Outcome(s, pc, act).0; Valid(t.zset) && forall x :: x in s.zset ==> x in t.zset
  {
    if act.Script? && pc.Scripting? && !act.fate.NotApplied? {
      ScriptKeepsOrder(s, pc.user, act.scoring);
      assert Outcome(s, pc, act).0 == RunScript(s, pc.user, act.scoring);
    } else {
      assert Outcome(s, pc, act).0.zset == s.zset;
    }
  }

  lemma StepKeepsOrder(s: State, e: Event)
    requires Valid(s.stores.zset)
    ensures Valid(Step(s, e).stores.zset)
    ensures !e.Reset? ==> forall x :: x in s.stores.zset ==> x in Step(s, e).stores.zset
  {
    if e.Do? && e.who in s.calls {
      OutcomeKeepsOrder(s.stores, s.calls[e.who], e.act);
    }
  }

  predicate ResetFree(es: seq<Event>) { forall i :: 0 <= i < |es| ==> !es[i].Reset? }

  lemma {:induction false} RunKeepsOrder(s: State, es: seq<Event>)
    requires Valid(s.stores.zset)
    ensures Valid(Run(s, es).stores.zset)
    ensures ResetFree(es) ==> forall x :: x in s.stores.zset ==> x in Run(s, es).stores.zset
    decreases |es|
  {
    if es != [] {
      RunKeepsOrder(s, es[..|es| - 1]);
      StepKeepsOrder(Run(s, es[..|es| - 1]), es[|es| - 1]);
    }
  }

  /** `u` stood in the queue at `s` and stands in it at `t`, moved back by exactly those who were inserted
      before it by (score, member) meanwhile. */
  predicate Drifted(s: Stores, t: Stores, u: User) {
    && Position(s, u).Some? && Position(t, u).Some?
    && 1 <= Position(s, u).value <= |s.zset|
    && var mine := s.zset[Position(s, u).value - 1];
       mine.member == u && Position(t, u).value == Position(s, u).value + |Overtakers(s.zset, t.zset, mine)|
  }

  lemma DriftFrom(s: State, es: seq<Event>, u: User)
    requires Valid(s.stores.zset) && ResetFree(es) && Position(s.stores, u).Some?
    ensures Drifted(s.stores, Run(s, es).stores, u)
  {
    RunKeepsOrder(s, es);
    RankInLarger(s.stores.zset, Run(s, es).stores.zset, Rank(s.stores.zset, u).value);
  }

  /** Rank drift: between resets a position only grows, and by exactly the number of later inserts that
      sort before the user by (score, member). */
  lemma RankDrift(before: seq<Event>, es: seq<Event>, u: User)
    requires ResetFree(es)
    requires Position(Run(Start(), before).stores, u).Some?
    ensures var s := Run(Start(), before).stores; var t := Run(Run(Start(), before), es).stores;
            && Position(t, u).Some?
            && var mine := s.zset[Position(s, u).value - 1];
               mine.member == u
               && Position(t, u).value == Position(s, u).value + |Overtakers(s.zset, t.zset, mine)|
  {
    RunKeepsOrder(Start(), before);
    DriftFrom(Run(Start(), before), es, u);
  }
}
