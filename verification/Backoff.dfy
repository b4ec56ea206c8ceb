/** Backoff between reconnect attempts (crates/ombrac-client/src/connection/mod.rs), over the reals. */
module Backoff {
  const INITIAL_RECONNECT_BACKOFF: real := 1.0
  const MAX_RECONNECT_BACKOFF: real := 60.0

  /** The clock's sub-second nanoseconds. */
  type Nanos = n: int | 0 <= n < 1_000_000_000

  function RealMin(a: real, b: real): real {
    if a <= b then a else b
  }

  function BackoffJitter(nanos: Nanos): (j: real)
    ensures 0.8 <= j < 1.2
  {
    0.8 + (nanos as real / 1_000_000_000.0) * 0.4
  }

  function Jittered(doubled: real, jitter: real): real {
    RealMin(doubled * jitter, MAX_RECONNECT_BACKOFF)
  }

  function NextBackoff(current: real, nanos: Nanos): real {
    Jittered(RealMin(current * 2.0, MAX_RECONNECT_BACKOFF), BackoffJitter(nanos))
  }

  /** 1.6 to the n-th. */
  function Growth(n: nat): (g: real)
    ensures g >= 1.0
  {
    if n == 0 then 1.0 else 1.6 * Growth(n - 1)
  }

  /** The least backoff after n consecutive failures. */
  function Floor(n: nat): real {
    RealMin(Growth(n), 48.0)
  }

  /** The least time n consecutive failures take: the sum of Floor(1) to Floor(n). */
  function Pace(n: nat): real {
    if n == 0 then 0.0 else Pace(n - 1) + Floor(n)
  }

  lemma JitteredIsBounded(doubled: real, j: real, floor: real)
    requires 0.8 <= j && 0.0 <= doubled && floor <= 0.8 * doubled && floor <= MAX_RECONNECT_BACKOFF
    ensures floor <= Jittered(doubled, j) <= MAX_RECONNECT_BACKOFF
  {
    assert doubled * (j - 0.8) >= 0.0;
  }

  /**
   * One failure raises the floor: from a backoff of at least Floor(n) the next is
   * at least Floor(n + 1), and never more than the cap, whatever the jitter.
   */
  lemma NextBackoffBounds(current: real, nanos: Nanos, n: nat)
    requires Floor(n) <= current
    ensures Floor(n + 1) <= NextBackoff(current, nanos) <= MAX_RECONNECT_BACKOFF
  {
    assert Growth(n + 1) == 1.6 * Growth(n);
    JitteredIsBounded(RealMin(current * 2.0, MAX_RECONNECT_BACKOFF), BackoffJitter(nanos), Floor(n + 1));
  }

  /**
   * The next backoff lies within a fifth of twice the current one, capped at 60 on
   * both sides of the jitter, and in the middle of the clock's second is exactly that.
   */
  lemma NextBackoffIsJittered(current: real, nanos: Nanos)
    requires current >= 0.0
    ensures var doubled := if 2.0 * current <= 60.0 then 2.0 * current else 60.0;
            && 0.8 * doubled <= NextBackoff(current, nanos) <= 1.2 * doubled
            && NextBackoff(current, nanos) <= 60.0
            && (nanos == 0 ==> NextBackoff(current, nanos) == 0.8 * doubled)
            && (nanos == 500_000_000 ==> NextBackoff(current, nanos) == doubled)
  {
    var doubled := RealMin(current * 2.0, MAX_RECONNECT_BACKOFF);
    JitterWithin(doubled, BackoffJitter(nanos));
    if nanos == 0 {
      JitterAt(doubled, BackoffJitter(nanos), 0.8);
    } else if nanos == 500_000_000 {
      JitterAt(doubled, BackoffJitter(nanos), 1.0);
    }
  }

  lemma JitterAt(doubled: real, j: real, k: real)
    requires 0.0 <= doubled <= 60.0 && j == k <= 1.0
    ensures Jittered(doubled, j) == Jittered(doubled, k)
  {
  }

  lemma JitterWithin(doubled: real, j: real)
    requires 0.0 <= doubled <= 60.0 && 0.8 <= j <= 1.2
    ensures 0.8 * doubled <= Jittered(doubled, j) <= 1.2 * doubled
  {
    ScaleUp(doubled, 0.8, j);
    ScaleUp(doubled, j, 1.2);
    CapWithin(doubled, doubled * j);
  }

  lemma CapWithin(doubled: real, product: real)
    requires 0.8 * doubled <= product <= 1.2 * doubled && 0.0 <= doubled <= 60.0
    ensures 0.8 * doubled <= RealMin(product, MAX_RECONNECT_BACKOFF) <= 1.2 * doubled
  {
  }

  lemma ScaleUp(x: real, a: real, b: real)
    requires x >= 0.0 && a <= b
    ensures x * a <= x * b
  {
    assert x * (b - a) >= 0.0;
  }

  /** The floor grows by a factor of 1.6 from 1 up to 48, which it reaches at the ninth failure. */
  lemma FloorsByNumber()
    ensures Floor(0) == 1.0 && Floor(1) == 1.6 && Floor(2) == 2.56 && Floor(8) == 42.94967296
    ensures forall n: nat :: n >= 9 ==> Floor(n) == 48.0
  {
    assert Growth(4) == 6.5536;
    assert Growth(8) == 42.94967296;
    forall n: nat | n >= 9
      ensures Floor(n) == 48.0
    {
      GrowthBeyond(n);
    }
  }

  lemma {:induction false} GrowthBeyond(n: nat)
    requires n >= 9
    ensures Growth(n) > 48.0
  {
    if n > 9 {
      GrowthBeyond(n - 1);
    } else {
      assert Growth(4) == 6.5536;
      assert Growth(8) == 42.94967296;
    }
  }

  /** The pace in closed form: a geometric sum for the first eight failures, then 48 seconds each. */
  lemma {:induction false} PaceInClosedForm(n: nat)
    ensures n <= 8 ==> 0.6 * Pace(n) == 1.6 * Growth(n) - 1.6
    ensures n >= 8 ==> Pace(n) == Pace(8) + 48.0 * ((n - 8) as real)
  {
    FloorsByNumber();
    if n > 0 {
      PaceInClosedForm(n - 1);
      if n <= 8 {
        GrowthWithin(n);
      }
    }
  }

  lemma GrowthWithin(n: nat)
    requires n <= 8
    ensures Growth(n) <= 48.0
  {
    assert Growth(4) == 6.5536;
    assert Growth(8) == 42.94967296;
    assert Growth(7) <= Growth(8) && Growth(6) <= Growth(7) && Growth(5) <= Growth(6);
    assert Growth(3) <= Growth(4) && Growth(2) <= Growth(3) && Growth(1) <= Growth(2);
  }

  /** The backoff after failures with these jitters, starting from the initial one. */
  function BackoffAfter(jitters: seq<Nanos>): real {
    if jitters == [] then INITIAL_RECONNECT_BACKOFF
    else NextBackoff(BackoffAfter(jitters[..|jitters| - 1]), jitters[|jitters| - 1])
  }

  /** After n failures the backoff is between min(1.6^n, 48) and 60 seconds for every jitter. */
  lemma {:induction false} BackoffIsBounded(jitters: seq<Nanos>)
    ensures Floor(|jitters|) <= BackoffAfter(jitters) <= 60.0
    ensures jitters == [] ==> BackoffAfter(jitters) == 1.0
  {
    if jitters != [] {
      BackoffIsBounded(jitters[..|jitters| - 1]);
      NextBackoffBounds(BackoffAfter(jitters[..|jitters| - 1]), jitters[|jitters| - 1], |jitters| - 1);
    }
  }
}
