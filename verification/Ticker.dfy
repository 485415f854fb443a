/** The admission ticker: what its interval arithmetic delivers, and what its loop does to the count. */
module Ticker {
  import opened Domain
  import opened WaitingRoom
  import opened RoomService

  const Second := 1_000_000_000   // time.Second in nanoseconds

  /** time.Second / time.Duration(rate). */
  function Interval(rate: int): int
    requires rate >= 1
  {
    Second / rate
  }

  /** How many whole intervals fit in `elapsed` nanoseconds. */
  function Ticks(elapsed: nat, rate: int): int
    requires rate >= 1 && Interval(rate) > 0
  {
    elapsed / Interval(rate)
  }

  lemma Quotient(x: nat, d: int)
    requires d >= 1
    ensures x == d * (x / d) + x % d && 0 <= x % d < d
  {}

  lemma AtMostQuotient(m: nat, d: int, x: nat)
    requires d >= 1 && m * d <= x
    ensures m <= x / d
  {
    Quotient(x, d);
    if x / d + 1 <= m { TimesKeeps(d, x / d + 1, m); }
  }

  lemma CancelFactor(a: int, b: int, f: int)
    requires f >= 1 && a * f <= b * f
    ensures a <= b
  {}

  lemma TimesKeeps(m: nat, a: int, b: int)
    requires a <= b
    ensures m * a <= m * b
  {}

  /** The ticker can be started exactly up to one admission a nanosecond. */
  lemma StartsIff(rate: int)
    requires rate >= 1
    ensures Interval(rate) > 0 <==> rate <= 1_000_000_000
  {}

  /** Rounding the interval down never makes the ticker slow: in any time at least the configured
      number of admissions. */
  lemma NeverSlow(elapsed: nat, rate: int)
    requires 1 <= rate <= Second
    ensures Interval(rate) > 0 && Ticks(elapsed, rate) >= elapsed * rate / 1_000_000_000
  {
    StartsIff(rate);
    var q := Interval(rate);
    var m := elapsed * rate / Second;
    Quotient(Second, rate);
    Quotient(elapsed * rate, Second);
    TimesKeeps(m, rate * q, Second);
    assert (m * q) * rate == m * (rate * q);
    CancelFactor(m * q, elapsed, rate);
    AtMostQuotient(m, q, elapsed);
  }

  /** It is exactly the configured rate precisely when the division's remainder is less than the interval,
      and too fast otherwise. */
  lemma ExactIff(rate: int)
    requires 1 <= rate <= Second
    ensures Interval(rate) > 0
    ensures Ticks(Second, rate) == rate <==> Second % rate < Interval(rate)
    ensures Ticks(Second, rate) > rate <==> Second % rate >= Interval(rate)
  {
    StartsIff(rate);
    NeverSlow(Second, rate);
    AtMostQuotient(rate, Second, Second * rate);
    var q := Interval(rate);
    Quotient(Second, rate);
    Quotient(Second, q);
    if Second % rate < q {
      SameQuotient(Second, q, rate, Second % rate);
    }
  }

  lemma SameQuotient(x: nat, d: int, k: nat, r: nat)
    requires d >= 1 && x == k * d + r && r < d
    ensures x / d == k
  {
    AtMostQuotient(k, d, x);
    Quotient(x, d);
    if k + 1 <= x / d { TimesKeeps(d, k + 1, x / d); }
  }

  /** So it is exact up to 31622 admissions a second. */
  lemma ExactForModerateRates(rate: int)
    requires rate >= 1 && rate * rate <= Second
    ensures rate <= Second && Interval(rate) > 0 && Ticks(Second, rate) == rate
  {
    TimesKeeps(rate, 1, rate);
    AtMostQuotient(rate, rate, Second);
    ExactIff(rate);
  }

  // ---------------------------------------------------------------- the loop

  /** The loop is ready to receive at `at` nanoseconds after the start: what the others have done since it last
      was, and how the INCRBY fares if a tick is waiting. */
  datatype Look = Look(at: nat, others: seq<Event>, fate: Fate)

  function TickCount(es: seq<Event>): nat {
    if es == [] then 0 else TickCount(es[..|es| - 1]) + if es[|es| - 1].Tick? then 1 else 0
  }

  /** Between resets the admitted count is the number of ticks of all replicas together. */
  lemma {:induction false} AdmittedCountsTicks(es: seq<Event>)
    requires ResetFree(es)
    ensures Run(Start(), es).stores.admitted == TickCount(es)
    decreases |es|
  {
    if es != [] {
      AdmittedCountsTicks(es[..|es| - 1]);
    }
  }

  function LastAt(looks: seq<Look>): nat { if looks == [] then 0 else looks[|looks| - 1].at }

  /** A tick is waiting at the last look: an interval has ended since the look before. The ticker's channel
      holds one tick, so that of several intervals all ticks but one are dropped. */
  predicate TickWaits(looks: seq<Look>, interval: int)
    requires looks != [] && interval > 0
  {
    LastAt(looks[..|looks| - 1]) / interval < LastAt(looks) / interval
  }

  /** How many ticks the loop has received. */
  function Beats(looks: seq<Look>, interval: int): nat
    requires interval > 0
  {
    if looks == [] then 0
    else Beats(looks[..|looks| - 1], interval) + if TickWaits(looks, interval) then 1 else 0
  }

  /** All that happens on the queue store while the loop runs. */
  function Trace(looks: seq<Look>, interval: int): seq<Event>
    requires interval > 0
  {
    if looks == [] then [] else
    var look := looks[|looks| - 1];
    Trace(looks[..|looks| - 1], interval) + look.others
    + if TickWaits(looks, interval) && !look.fate.NotApplied? then [Tick] else []
  }

  predicate InTimeOrder(looks: seq<Look>) {
    forall i :: 0 <= i < |looks| ==> LastAt(looks[..i]) <= looks[i].at
  }

  /** The loop is ready at least once in each interval. */
  predicate KeepsUp(looks: seq<Look>, interval: int)
    requires interval > 0
  {
    forall i :: 0 <= i < |looks| ==> looks[i].at / interval <= LastAt(looks[..i]) / interval + 1
  }

  lemma QuotientGrows(x: nat, y: nat, d: int)
    requires d >= 1 && x <= y
    ensures x / d <= y / d
  {
    Quotient(x, d);
    AtMostQuotient(x / d, d, y);
  }

  /** However long the loop is held up, it never admits more than the intervals that have passed; and as many
      exactly if it is ready at least once in each. */
  lemma {:induction false} BeatsAgainstTime(looks: seq<Look>, rate: int)
    requires 1 <= rate <= Second && InTimeOrder(looks)
    ensures Interval(rate) > 0
    ensures Beats(looks, Interval(rate)) <= Ticks(LastAt(looks), rate)
    ensures Beats(looks, Interval(rate)) == Ticks(LastAt(looks), rate) <==> KeepsUp(looks, Interval(rate))
    decreases |looks|
  {
    StartsIff(rate);
    if looks != [] {
      var n := |looks| - 1;
      var before := looks[..n];
      assert forall i :: 0 <= i < n ==> before[..i] == looks[..i];
      BeatsAgainstTime(before, rate);
      QuotientGrows(LastAt(before), LastAt(looks), Interval(rate));
      var inTime := LastAt(looks) / Interval(rate) <= LastAt(before) / Interval(rate) + 1;
      assert KeepsUp(looks, Interval(rate)) <==> KeepsUp(before, Interval(rate)) && inTime;
    }
  }

  /** What the others do while the loop waits. */
  method LetOthers(store: QueueStore, others: seq<Event>)
    requires store.Valid()
    modifies store
    ensures store.Valid() && store.log == old(store.log) + others
  {
    for j := 0 to |others|
      invariant store.Valid() && store.log == old(store.log) + others[..j]
    {
      store.Advance(others[j]);
      assert others[..j + 1] == others[..j] + [others[j]];
    }
    assert others[..|others|] == others;
  }

  /** Once around the loop; a failed increment is logged and the loop goes on. */
  method OnLook(store: QueueStore, look: Look, waits: bool)
    requires store.Valid()
    modifies store
    ensures store.Valid()
    ensures store.log == old(store.log) + look.others + if waits && !look.fate.NotApplied? then [Tick] else []
  {
    LetOthers(store, look.others);
    if waits {
      var _ := store.IncrAdmitted(1, look.fate);
      assert RoomService.Ticks(1) == [Tick];
    }
  }

  lemma TraceSnoc(looks: seq<Look>, i: nat, interval: int, before: seq<Event>)
    requires i < |looks| && interval > 0
    ensures var fires := TickWaits(looks[..i + 1], interval) && !looks[i].fate.NotApplied?;
            (before + Trace(looks[..i], interval)) + looks[i].others + (if fires then [Tick] else [])
            == before + Trace(looks[..i + 1], interval)
    ensures LastAt(looks[..i + 1]) == looks[i].at
    ensures TickWaits(looks[..i + 1], interval) <==> LastAt(looks[..i]) / interval < looks[i].at / interval
    ensures Beats(looks[..i + 1], interval)
            == Beats(looks[..i], interval) + if TickWaits(looks[..i + 1], interval) then 1 else 0
  {
    assert looks[..i + 1][..i] == looks[..i];
  }

  /** What a finished loop amounts to. */
  lemma LoopEnds(looks: seq<Look>, rate: int, log: seq<Event>, admitted: nat)
    requires 1 <= rate <= Second && InTimeOrder(looks) && Run(Start(), log).stores.admitted == admitted
    ensures Interval(rate) > 0 && Beats(looks, Interval(rate)) <= Ticks(LastAt(looks), rate)
    ensures KeepsUp(looks, Interval(rate)) ==> Beats(looks, Interval(rate)) == Ticks(LastAt(looks), rate)
    ensures ResetFree(log) ==> admitted == TickCount(log)
  {
    BeatsAgainstTime(looks, rate);
    if ResetFree(log) { AdmittedCountsTicks(log); }
  }

  /** Run until cancelled. */
  method RunTicker(store: QueueStore, rate: int, looks: seq<Look>) returns (received: nat)
    requires store.Valid() && 1 <= rate <= Second && InTimeOrder(looks)
    modifies store
    ensures Interval(rate) > 0
    ensures store.Valid() && store.log == old(store.log) + Trace(looks, Interval(rate))
    ensures received == Beats(looks, Interval(rate)) <= Ticks(LastAt(looks), rate)
    ensures KeepsUp(looks, Interval(rate)) ==> received == Ticks(LastAt(looks), rate)
    ensures ResetFree(store.log) ==> store.admitted == TickCount(store.log)
  {
    StartsIff(rate);
    var interval := Interval(rate);
    var last := 0;
    received := 0;
    ghost var before := store.log;
    for i := 0 to |looks|
      invariant store.Valid() && store.log == before + Trace(looks[..i], interval)
      invariant last == LastAt(looks[..i]) && received == Beats(looks[..i], interval)
    {
      TraceSnoc(looks, i, interval, before);
      var waits := last / interval < looks[i].at / interval;
      OnLook(store, looks[i], waits);
      if waits { received := received + 1; }
      last := looks[i].at;
    }
    assert looks[..|looks|] == looks;
    LoopEnds(looks, rate, store.log, store.admitted);
  }
}
