/** Bounded retries with doubling delay and full jitter, on 64-bit durations. */
module Retry {

  /** What one call of the function returned. */
  datatype Outcome = Ok | Transient | Permanent

  datatype Result = Nil | Failed(permanent: bool) | Cancelled | Panicked

  const TwoTo63 := 0x8000_0000_0000_0000
  const TwoTo64 := 0x1_0000_0000_0000_0000

  /** The value a 64-bit signed integer takes for x. */
  function Wrap(x: int): (r: int)
    ensures -TwoTo63 <= r < TwoTo63
    ensures -TwoTo63 <= x < TwoTo63 ==> r == x
    ensures TwoTo63 <= x < TwoTo64 ==> r == x - TwoTo64
  {
    (x + TwoTo63) % TwoTo64 - TwoTo63
  }

  /** base * 2^k, the delay before wait k+1 were durations unbounded. */
  function Nominal(base: int, k: nat): (r: int)
    ensures r > 0 <==> base > 0
  {
    if k == 0 then base else 2 * Nominal(base, k - 1)
  }

  lemma {:induction false} NominalGrows(base: int, m: nat, n: nat)
    requires base > 0 && m <= n
    ensures Nominal(base, m) <= Nominal(base, n)
    decreases n
  {
    if m < n { NominalGrows(base, m, n - 1); }
  }

  /** The delay that wait k draws from is positive and fits 63 bits. */
  predicate Sound(base: int, k: nat)
    requires k >= 1
  {
    0 < Nominal(base, k - 1) < TwoTo63
  }

  /** A sound delay doubles into the next one, which either fits or turns negative. */
  lemma DoublingWraps(base: int, k: nat)
    requires k >= 1 && Sound(base, k)
    ensures Wrap(Nominal(base, k - 1)) == Nominal(base, k - 1)
    ensures Nominal(base, k) < TwoTo64
    ensures Wrap(Nominal(base, k - 1) * 2) == Wrap(Nominal(base, k))
    ensures Wrap(Nominal(base, k)) > 0 <==> Sound(base, k + 1)
  {}

  /** The first n waits together: wait k+1 is the k+1st random draw below base * 2^k. */
  function Waits(base: int, draws: seq<nat>, n: nat): (t: int)
    requires n <= |draws| && forall k :: 1 <= k <= n ==> Sound(base, k)
    ensures t >= 0
  {
    if n == 0 then 0 else
    assert Sound(base, n);
    Waits(base, draws, n - 1) + draws[n - 1] % Nominal(base, n - 1)
  }

  /**
   `fn[k]` is what call k+1 returns, `draws[k]` the random number behind the wait after it and
   `cancelled[k]` whether the context ends during that wait.
   */
  method Do(attempts: int, base: int, fn: seq<Outcome>, draws: seq<nat>, cancelled: seq<bool>)
    returns (r: Result, calls: nat, slept: int)
    requires -TwoTo63 <= base < TwoTo63
    requires attempts <= |fn| && attempts <= |draws| && attempts <= |cancelled|
    // how often the function is called
    ensures attempts < 1 ==> r == Nil && calls == 0
    ensures attempts >= 1 ==> 1 <= calls <= attempts
    // it is called again exactly after a transient error whose wait was not cut short
    ensures forall k :: 0 <= k < calls - 1 ==> fn[k].Transient? && !cancelled[k]
    ensures forall k :: 1 <= k < calls ==> Sound(base, k)
    // what is returned is what the last call returned
    ensures attempts >= 1 ==> (r == Nil <==> fn[calls - 1].Ok?)
    ensures attempts >= 1 ==> (r == Failed(true) <==> fn[calls - 1].Permanent?)
    ensures attempts >= 1 ==> (r == Failed(false) <==> fn[calls - 1].Transient? && calls == attempts)
    ensures r == Panicked <==> calls >= 1 && fn[calls - 1].Transient? && calls < attempts && !Sound(base, calls)
    ensures r == Cancelled ==> calls >= 1 && cancelled[calls - 1] && Sound(base, calls)
    // the time spent waiting is what was drawn, and short of base * (2^waits - 1)
    ensures slept == Waits(base, draws, if r == Cancelled then calls else if calls == 0 then 0 else calls - 1)
    ensures base > 0 && calls >= 1 ==> slept <= Nominal(base, if r == Cancelled then calls else calls - 1) - base
  {
    var delay := base;
    var attempt := 1;
    calls, slept := 0, 0;
    while attempt <= attempts
      invariant 1 <= attempt && calls == attempt - 1
      invariant attempts >= 1 ==> attempt <= attempts
      invariant attempts < 1 ==> attempt == 1
      invariant forall k :: 0 <= k < calls ==> fn[k].Transient? && !cancelled[k]
      invariant forall k :: 1 <= k <= calls ==> Sound(base, k)
      invariant delay == Wrap(Nominal(base, calls))
      invariant delay > 0 <==> Sound(base, attempt)
      invariant slept == Waits(base, draws, calls) && (base > 0 ==> slept <= Nominal(base, calls) - base)
    {
      var err := fn[attempt - 1];
      calls := calls + 1;
      if err.Ok? { return Nil, calls, slept; }
      if err.Permanent? { return Failed(true), calls, slept; }
      if attempt == attempts { return Failed(false), calls, slept; }
      if delay <= 0 { return Panicked, calls, slept; }   // rand.Int63n panics
      DoublingWraps(base, attempt);
      var jitter := draws[attempt - 1] % delay;
      slept := slept + jitter;
      if cancelled[attempt - 1] { return Cancelled, calls, slept; }
      delay := Wrap(delay * 2);
      assert delay == Wrap(Nominal(base, calls));
      attempt := attempt + 1;
    }
    return Nil, calls, slept;
  }

  /** No wait can overflow exactly when the last one cannot: base * 2^(attempts-2) below 2^63. */
  lemma NoOverflowIff(base: int, attempts: nat)
    requires attempts >= 2
    ensures (forall k :: 1 <= k < attempts ==> Sound(base, k)) <==> 0 < Nominal(base, attempts - 2) < TwoTo63
  {
    if Sound(base, attempts - 1) {
      forall k | 1 <= k < attempts ensures Sound(base, k) {
        NominalGrows(base, k - 1, attempts - 2);
      }
    }
  }

  function Pow2(n: nat): nat { if n == 0 then 1 else 2 * Pow2(n - 1) }

  lemma {:induction false} NominalIsPower(base: int, k: nat)
    ensures Nominal(base, k) == base * Pow2(k)
  {
    if k > 0 {
      NominalIsPower(base, k - 1);
      assert base * (2 * Pow2(k - 1)) == 2 * (base * Pow2(k - 1));
    }
  }
}
