/**
 Admission tokens: who agrees on one, who wins the SETNX race, and how long a token lasts.

 These hold under either scoring strategy and across resets of the queue.
 */
module TokenLaws {
  import opened Domain
  import opened WaitingRoom

  // ---------------------------------------------------------------- what every step keeps

  /** The call has a token of its own that it may store or has tried to store. */
  predicate HasOwn(pc: Pc) { pc.Minting? || pc.Checking? }

  predicate OwnIsMinted(s: Stores, pc: Pc) { HasOwn(pc) ==> pc.own != "" && pc.own in s.minted }

  /** A call that has yet to store its token is the only one to know it. */
  ghost predicate Unseen(s: State, c: CallId)
    requires c in s.calls
  {
    s.calls[c].Minting? ==>
      && (forall u :: u in s.stores.tokens ==> s.stores.tokens[u] != s.calls[c].own)
      && (forall d :: d in s.calls && d != c && HasOwn(s.calls[d]) ==> s.calls[d].own != s.calls[c].own)
  }

  ghost predicate Inv(s: State) {
    && (forall u :: u in s.stores.tokens ==> s.stores.tokens[u] != "" && s.stores.tokens[u] in s.stores.minted)
    && (forall c :: c in s.calls ==> OwnIsMinted(s.stores, s.calls[c]) && Unseen(s, c))
  }

  /** All that one command of a call can do to the tokens. */
  lemma OutcomeTokens(s: Stores, pc: Pc, act: Act)
    ensures var (t, pc') := Outcome(s, pc, act);
            && pc'.user == pc.user && s.minted <= t.minted
            && (t.tokens == s.tokens
                || (pc.Minting? && pc.user !in s.tokens && t.tokens == s.tokens[pc.user := pc.own]))
            && (HasOwn(pc') ==> (HasOwn(pc) && pc'.own == pc.own) || (pc'.own != "" && pc'.own !in s.minted
                                                                     && pc'.own in t.minted && t.tokens == s.tokens))
            && (pc'.Minting? ==> pc' == pc || !HasOwn(pc))
            && (pc.Minting? && pc'.Minting? ==> t.tokens == s.tokens)
  {}

  lemma StepKeepsMinted(s: State, e: Event)
    requires Inv(s)
    ensures var t := Step(s, e);
            && (forall u :: u in t.stores.tokens ==> t.stores.tokens[u] != "" && t.stores.tokens[u] in t.stores.minted)
            && (forall c :: c in t.calls ==> OwnIsMinted(t.stores, t.calls[c]))
  {
    var t := Step(s, e);
    if e.Do? && e.who in s.calls {
      OutcomeTokens(s.stores, s.calls[e.who], e.act);
      assert OwnIsMinted(s.stores, s.calls[e.who]);
    }
    forall c | c in t.calls ensures OwnIsMinted(t.stores, t.calls[c]) {
      if c in s.calls { assert OwnIsMinted(s.stores, s.calls[c]); }
    }
  }

  lemma StepKeepsUnseen(s: State, e: Event, c: CallId)
    requires Inv(s) && c in Step(s, e).calls
    ensures Unseen(Step(s, e), c)
  {
    var t := Step(s, e);
    assert forall d :: d in s.calls ==> OwnIsMinted(s.stores, s.calls[d]) && Unseen(s, d);
    if e.Do? && e.who in s.calls { OutcomeTokens(s.stores, s.calls[e.who], e.act); }
    if t.calls[c].Minting? {
      forall d | d in t.calls && d != c && HasOwn(t.calls[d]) ensures t.calls[d].own != t.calls[c].own {
        if d in s.calls && c in s.calls { assert OwnIsMinted(s.stores, s.calls[d]) && Unseen(s, c); }
      }
    }
  }

  lemma StepKeepsInv(s: State, e: Event)
    requires Inv(s)
    ensures Inv(Step(s, e))
  {
    StepKeepsMinted(s, e);
    forall c | c in Step(s, e).calls ensures Unseen(Step(s, e), c) { StepKeepsUnseen(s, e, c); }
  }

  lemma {:induction false} RunKeepsInv(es: seq<Event>)
    ensures Inv(Run(Start(), es))
    decreases |es|
  {
    if es != [] {
      RunKeepsInv(es[..|es| - 1]);
      StepKeepsInv(Run(Start(), es[..|es| - 1]), es[|es| - 1]);
    }
  }

  // ---------------------------------------------------------------- agreement

  /** The user's token does not expire, and this call's own read-back does not fail. */
  predicate Calm(es: seq<Event>, c: CallId, u: User) {
    forall i :: 0 <= i < |es| ==> es[i] != Expire(u) && es[i] != Do(c, Recheck(false))
  }

  predicate CallAgrees(s: Stores, pc: Pc) {
    && (pc.Checking? ==> pc.user in s.tokens)
    && (pc.Admitted? ==> pc.user in s.tokens && s.tokens[pc.user] == pc.token)
  }

  /** If call `c` is for `u`, it has been given no token but the stored one. */
  predicate Agrees(s: State, c: CallId, u: User) {
    c in s.calls && s.calls[c].user == u ==> CallAgrees(s.stores, s.calls[c])
  }

  lemma OutcomeAgrees(s: Stores, pc: Pc, act: Act)
    requires CallAgrees(s, pc) && act != Recheck(false)
    ensures CallAgrees(Outcome(s, pc, act).0, Outcome(s, pc, act).1)
  {}

  lemma StepKeepsAgreement(s: State, e: Event, c: CallId, u: User)
    requires e != Expire(u) && e != Do(c, Recheck(false)) && Agrees(s, c, u)
    ensures Agrees(Step(s, e), c, u)
  {
    if e.Do? && e.who in s.calls {
      OutcomeTokens(s.stores, s.calls[e.who], e.act);
      if e.who == c && s.calls[c].user == u { OutcomeAgrees(s.stores, s.calls[c], e.act); }
    }
  }

  lemma {:induction false} RunKeepsAgreement(s: State, es: seq<Event>, c: CallId, u: User)
    requires Calm(es, c, u) && Agrees(s, c, u)
    ensures Agrees(Run(s, es), c, u)
    decreases |es|
  {
    if es != [] {
      RunKeepsAgreement(s, es[..|es| - 1], c, u);
      StepKeepsAgreement(Run(s, es[..|es| - 1]), es[|es| - 1], c, u);
    }
  }

  /** Token agreement: however many replicas race for one user, and whatever goes wrong for others, calls that
      answered with a token and whose own read-back did not fail answered with the same one, the one the
      purchase gate finds, as long as it has not expired since the first of them began. */
  lemma TokenAgreement(before: seq<Event>, es: seq<Event>, c: CallId, d: CallId, u: User)
    requires c !in Run(Start(), before).calls && d !in Run(Start(), before).calls
    requires Calm(es, c, u) && Calm(es, d, u)
    requires var t := Run(Run(Start(), before), es);
             && c in t.calls && t.calls[c].Admitted? && t.calls[c].user == u
             && d in t.calls && t.calls[d].Admitted? && t.calls[d].user == u
    ensures var t := Run(Run(Start(), before), es);
            t.calls[c].token == t.calls[d].token && u in t.stores.tokens && t.stores.tokens[u] == t.calls[c].token != ""
  {
    RunKeepsAgreement(Run(Start(), before), es, c, u);
    RunKeepsAgreement(Run(Start(), before), es, d, u);
    RunKeepsInv(before + es);
    RunAppend(Start(), before, es);
  }

  // ---------------------------------------------------------------- the race

  /** At step k the SETNX of call `c` found no token for its user and stored its own. */
  predicate WinsAt(es: seq<Event>, k: nat, c: CallId) {
    && k < |es| && es[k] == Do(c, Issue(Done))
    && var s := Run(Start(), es[..k]);
       c in s.calls && s.calls[c].Minting? && s.calls[c].user !in s.stores.tokens
  }

  predicate Unexpired(es: seq<Event>, from: nat, u: User) { forall i :: from <= i < |es| ==> es[i] != Expire(u) }

  /** Call `c` won the race for user `u`, and its token has not expired since. */
  ghost predicate Won(es: seq<Event>, c: CallId, u: User) {
    exists k: nat :: WinsAt(es, k, c) && Unexpired(es, k + 1, u)
  }

  predicate Stored(s: State, c: CallId)
    requires c in s.calls && HasOwn(s.calls[c])
  {
    s.calls[c].user in s.stores.tokens && s.stores.tokens[s.calls[c].user] == s.calls[c].own
  }

  lemma WinsBefore(es: seq<Event>, e: Event, k: nat, c: CallId)
    requires k < |es|
    ensures WinsAt(es + [e], k, c) <==> WinsAt(es, k, c)
  {
    assert (es + [e])[..k] == es[..k];
  }

  lemma WinsNow(es: seq<Event>, e: Event, c: CallId)
    ensures var s := Run(Start(), es);
            WinsAt(es + [e], |es|, c)
            <==> e == Do(c, Issue(Done)) && c in s.calls && s.calls[c].Minting? && s.calls[c].user !in s.stores.tokens
  {
    assert (es + [e])[..|es|] == es;
  }

  /** Whoever has won is past its SETNX. */
  lemma {:induction false} WinnersMovedOn(es: seq<Event>, k: nat, c: CallId)
    requires WinsAt(es, k, c)
    ensures var s := Run(Start(), es); c in s.calls && (s.calls[c].Checking? || s.calls[c].Admitted?)
    decreases |es|
  {
    var before, e := es[..|es| - 1], es[|es| - 1];
    assert es == before + [e];
    if k < |before| {
      WinsBefore(before, e, k, c);
      WinnersMovedOn(before, k, c);
    } else {
      WinsNow(before, e, c);
    }
  }

  lemma WonGrows(es: seq<Event>, e: Event, c: CallId, u: User)
    requires !WinsAt(es + [e], |es|, c)
    ensures Won(es + [e], c, u) <==> Won(es, c, u) && e != Expire(u)
  {
    var fs := es + [e];
    if k: nat :| WinsAt(es, k, c) && Unexpired(es, k + 1, u) && e != Expire(u) {
      WinsBefore(es, e, k, c);
      assert WinsAt(fs, k, c) && Unexpired(fs, k + 1, u);
    }
    if k: nat :| WinsAt(fs, k, c) && Unexpired(fs, k + 1, u) {
      WinsBefore(es, e, k, c);
      assert forall i :: 0 <= i < |es| ==> fs[i] == es[i];
      assert fs[|es|] == e;
      assert WinsAt(es, k, c) && Unexpired(es, k + 1, u);
    }
  }

  /** A call that waits for its read-back either has just run its SETNX, or was waiting before. */
  lemma StoredAfter(s: State, e: Event, c: CallId)
    requires Inv(s) && c in Step(s, e).calls && Step(s, e).calls[c].Checking?
    ensures var t := Step(s, e); var u := t.calls[c].user;
            && c in s.calls && s.calls[c].user == u
            && if s.calls[c].Minting? then e == Do(c, Issue(Done)) && (Stored(t, c) <==> u !in s.stores.tokens)
               else s.calls[c].Checking? && (Stored(t, c) <==> Stored(s, c) && e != Expire(u))
  {
    assert c in s.calls && Unseen(s, c);
    if e.Do? && e.who in s.calls {
      OutcomeTokens(s.stores, s.calls[e.who], e.act);
      assert Unseen(s, e.who);
    }
  }

  lemma StepDecidesRace(es: seq<Event>, e: Event, c: CallId)
    requires var s := Run(Start(), es);
             c in s.calls && s.calls[c].Checking? ==> (Stored(s, c) <==> Won(es, c, s.calls[c].user))
    requires var t := Step(Run(Start(), es), e); c in t.calls && t.calls[c].Checking?
    ensures var t := Step(Run(Start(), es), e); Stored(t, c) <==> Won(es + [e], c, t.calls[c].user)
  {
    var s := Run(Start(), es);
    var u := Step(s, e).calls[c].user;
    RunKeepsInv(es);
    StoredAfter(s, e, c);
    WinsNow(es, e, c);
    if WinsAt(es + [e], |es|, c) {
      assert Unexpired(es + [e], |es| + 1, u);
    } else {
      WonGrows(es, e, c, u);
      if s.calls[c].Minting? && Won(es, c, u) {
        var k: nat :| WinsAt(es, k, c) && Unexpired(es, k + 1, u);
        WinnersMovedOn(es, k, c);
      }
    }
  }

  lemma {:induction false} RaceLaw(es: seq<Event>, c: CallId)
    requires var s := Run(Start(), es); c in s.calls && s.calls[c].Checking?
    ensures var s := Run(Start(), es); Stored(s, c) <==> Won(es, c, s.calls[c].user)
    decreases |es|
  {
    var before, e := es[..|es| - 1], es[|es| - 1];
    assert es == before + [e];
    var s := Run(Start(), before);
    if c in s.calls && s.calls[c].Checking? { RaceLaw(before, c); }
    StepDecidesRace(before, e, c);
  }

  lemma FailedRecheck(s: State, c: CallId)
    requires c in s.calls && s.calls[c].Checking?
    ensures Step(s, Do(c, Recheck(false)))
            == State(s.stores, s.calls[c := Admitted(s.calls[c].user, s.calls[c].own)])
  {}

  /** When the read-back fails the caller is handed its own token. In every run, that is the token stored, and
      so passes the gate, exactly when its own SETNX had found no token, which is the reply the caller throws
      away, and the token has not expired since. */
  lemma FailedRecheckExact(es: seq<Event>, c: CallId)
    requires var s := Run(Start(), es); c in s.calls && s.calls[c].Checking?
    ensures var s := Run(Start(), es); var u := s.calls[c].user;
            var t := Run(Start(), es + [Do(c, Recheck(false))]);
            && t.calls[c] == Admitted(u, s.calls[c].own)
            && (u in t.stores.tokens && t.stores.tokens[u] == s.calls[c].own <==> Won(es, c, u))
  {
    RunSnoc(Start(), es, Do(c, Recheck(false)));
    FailedRecheck(Run(Start(), es), c);
    RaceLaw(es, c);
  }

  // ---------------------------------------------------------------- how long a token lasts

  /** No call can store this token any more. */
  ghost predicate Spent(s: State, token: Token) {
    token in s.stores.minted && forall c :: c in s.calls && s.calls[c].Minting? ==> s.calls[c].own != token
  }

  lemma StepKeepsToken(s: State, e: Event, u: User, token: Token)
    requires Spent(s, token)
    ensures var t := Step(s, e);
            && Spent(t, token)
            && (u in t.stores.tokens && t.stores.tokens[u] == token
                <==> u in s.stores.tokens && s.stores.tokens[u] == token && e != Expire(u))
  {
    if e.Do? && e.who in s.calls { OutcomeTokens(s.stores, s.calls[e.who], e.act); }
  }

  lemma {:induction false} RunKeepsToken(s: State, es: seq<Event>, u: User, token: Token)
    requires Spent(s, token) && u in s.stores.tokens && s.stores.tokens[u] == token
    ensures var t := Run(s, es);
            Spent(t, token) && (u in t.stores.tokens && t.stores.tokens[u] == token <==> Unexpired(es, 0, u))
    decreases |es|
  {
    if es != [] {
      RunKeepsToken(s, es[..|es| - 1], u, token);
      StepKeepsToken(Run(s, es[..|es| - 1]), es[|es| - 1], u, token);
    }
  }

  /** A token once stored is the one the gate finds until it expires, and never again after. */
  lemma TokenLastsUntilExpiry(before: seq<Event>, es: seq<Event>, u: User)
    requires u in Run(Start(), before).stores.tokens
    ensures var s := Run(Start(), before); var t := Run(s, es);
            u in t.stores.tokens && t.stores.tokens[u] == s.stores.tokens[u] <==> Unexpired(es, 0, u)
  {
    RunKeepsInv(before);
    var s := Run(Start(), before);
    assert forall c :: c in s.calls ==> Unseen(s, c);
    RunKeepsToken(s, es, u, s.stores.tokens[u]);
  }

  predicate TickFree(es: seq<Event>) { forall i :: 0 <= i < |es| ==> !es[i].Tick? }

  lemma {:induction false} AdmittedZeroIff(s: State, es: seq<Event>)
    requires ResetFree(es) && s.stores.admitted == 0
    ensures Run(s, es).stores.admitted == 0 <==> TickFree(es)
    decreases |es|
  {
    if es != [] { AdmittedZeroIff(s, es[..|es| - 1]); }
  }

  lemma UnexpiredCons(e: Event, es: seq<Event>, u: User)
    ensures Unexpired([e] + es, 0, u) <==> e != Expire(u) && Unexpired(es, 0, u)
  {
    var fs := [e] + es;
    assert fs[0] == e;
    assert forall i :: 0 <= i < |es| ==> fs[i + 1] == es[i];
    assert forall i :: 0 < i < |fs| ==> fs[i] == es[i - 1];
  }

  /** A reset of the queue leaves the tokens: who held one at the reset passes the gate, while nobody has been
      admitted, exactly until the token expires or the first tick comes. */
  lemma ResetOutlivedByTokens(before: seq<Event>, es: seq<Event>, u: User)
    requires ResetFree(es) && u in Run(Start(), before).stores.tokens
    ensures var s := Run(Start(), before); var t := Run(s, [Reset] + es).stores;
            u in t.tokens && t.tokens[u] == s.stores.tokens[u] && t.admitted == 0
            <==> Unexpired(es, 0, u) && TickFree(es)
  {
    var s := Run(Start(), before);
    TokenLastsUntilExpiry(before, [Reset] + es, u);
    UnexpiredCons(Reset, es, u);
    RunCons(s, Reset, es);
    AdmittedZeroIff(Step(s, Reset), es);
  }
}
