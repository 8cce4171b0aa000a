/**
  Policy.backoff of internal/retry: capped doubling on a 64-bit duration, with
  jitter. `Delay` is its closed form for every policy and attempt number, wrapped
  arithmetic included; the theorems say exactly when that form is the intended
  min(BaseDelay * 2^(attempt-1), MaxDelay).
 */
module Backoff {
  import opened Wrappers

  const TWO_62: int := 0x4000_0000_0000_0000
  const TWO_63: int := 0x8000_0000_0000_0000
  const TWO_64: int := 0x1_0000_0000_0000_0000

  /** time.Duration: nanoseconds in an int64. */
  type Duration = ns: int | -TWO_63 <= ns < TWO_63

  datatype Policy = Policy(maxAttempts: int, baseDelay: Duration, maxDelay: Duration, jitter: bool)

  const DEFAULT_POLICY := Policy(3, 200_000_000, 5_000_000_000, true)

  function Attempts(p: Policy): (n: int)
    ensures n == Max(1, p.maxAttempts)
  {
    if p.maxAttempts < 1 then 1 else p.maxAttempts
  }

  /** int64 overflow: the value modulo 2^64, back in range. */
  function Wrap(x: int): Duration {
    (x + TWO_63) % TWO_64 - TWO_63
  }

  function Pow2(n: nat): int {
    if n == 0 then 1 else 2 * Pow2(n - 1)
  }

  /** The base doubled m times, without a word size. */
  function Scaled(base: int, m: nat): int {
    if m == 0 then base else 2 * Scaled(base, m - 1)
  }

  lemma {:induction false} ScaledIsPower(base: int, m: nat)
    ensures Scaled(base, m) == base * Pow2(m)
  {
    if m > 0 {
      ScaledIsPower(base, m - 1);
    }
  }

  /** BaseDelay after m doublings of an int64. */
  function Doubled(p: Policy, m: nat): Duration {
    Wrap(Scaled(p.baseDelay, m))
  }

  predicate Exceeds(p: Policy, m: nat) {
    0 < p.maxDelay < Doubled(p, m)
  }

  /** Some value the cap is compared with on the way to `attempt` is above it. */
  ghost predicate Capped(p: Policy, attempt: int) {
    if attempt <= 1 then Exceeds(p, 0) else exists m: nat | 1 <= m < attempt :: Exceeds(p, m)
  }

  ghost function Delay(p: Policy, attempt: int): Duration {
    if Capped(p, attempt) then p.maxDelay
    else Doubled(p, if attempt <= 1 then 0 else attempt - 1)
  }

  /** The delays that some random draw produces. */
  ghost predicate DelayAllowed(p: Policy, attempt: int, d: int) {
    var full := Delay(p, attempt);
    if p.jitter && 0 < full then full / 2 <= d <= full / 2 + full / 2 else d == full
  }

  /** The value in range that differs from x by whole turns is its wrap. */
  lemma WrapIsUnique(x: int, w: int, turns: int)
    requires x == w + turns * 0x1_0000_0000_0000_0000 && -TWO_63 <= w < TWO_63
    ensures Wrap(x) == w
  {
    assert (x + TWO_63) % 0x1_0000_0000_0000_0000 == w + TWO_63;
  }

  lemma WrapTurns(x: int) returns (turns: int)
    ensures x == Wrap(x) + turns * 0x1_0000_0000_0000_0000
  {
    turns := (x + TWO_63) / 0x1_0000_0000_0000_0000;
  }

  lemma WrapDoubles(x: int)
    ensures Wrap(2 * Wrap(x)) == Wrap(2 * x)
  {
    hide Wrap;
    var once := WrapTurns(x);
    var twice := WrapTurns(2 * Wrap(x));
    WrapIsUnique(2 * x, Wrap(2 * Wrap(x)), 2 * once + twice);
  }

  lemma DoubledStep(p: Policy, m: nat)
    ensures Doubled(p, m + 1) == Wrap(2 * Doubled(p, m))
  {
    WrapDoubles(Scaled(p.baseDelay, m));
  }

  method Backoff(p: Policy, attempt: int) returns (delay: Duration)
    ensures DelayAllowed(p, attempt, delay)
  {
    delay := p.baseDelay;
    var i := 1;
    while i < attempt
      invariant if attempt <= 1 then i == 1 else 1 <= i <= attempt
      invariant delay == Doubled(p, i - 1)
      invariant (forall m: nat | 1 <= m < i :: !Exceeds(p, m)) && (1 < i ==> !Exceeds(p, i - 1))
      invariant 1 < attempt && i == attempt ==> !Capped(p, attempt)
      decreases attempt - i
    {
      DoubledStep(p, i - 1);
      delay := Wrap(2 * delay);
      if p.maxDelay > 0 && delay > p.maxDelay {
        assert Exceeds(p, i) && Capped(p, attempt);
        delay := p.maxDelay;
        break;
      }
      i := i + 1;
    }
    if p.maxDelay > 0 && delay > p.maxDelay {
      delay := p.maxDelay;
    }
    assert delay == Delay(p, attempt);
    if p.jitter && delay > 0 {
      var half := delay / 2;
      var draw :| 0 <= draw < half + 1;
      delay := half + draw;
    }
  }

  // ------------------------------------------------------------ the theorems

  /** What the policy's documentation promises: doubling from BaseDelay, capped at a MaxDelay that is positive. */
  function Intended(p: Policy, attempt: int): int
    requires 1 <= attempt
  {
    var doubled := Scaled(p.baseDelay, attempt - 1);
    if 0 < p.maxDelay then Min(doubled, p.maxDelay) else doubled
  }

  /** The doubling that follows wraps: this one is too large for it, and the cap has not stopped it. */
  predicate OverdoublesAt(p: Policy, j: nat) {
    TWO_62 <= Scaled(p.baseDelay, j) && (j == 0 || Scaled(p.baseDelay, j) <= p.maxDelay)
  }

  ghost predicate Overdoubles(p: Policy) {
    exists j: nat :: OverdoublesAt(p, j)
  }

  predicate IsDuration(x: int) {
    -TWO_63 <= x < TWO_63
  }

  /** The first n delays need no doubling that an int64 cannot hold. */
  predicate Fits(p: Policy, n: nat) {
    || n <= 1
    || if 0 < p.maxDelay && 0 <= p.baseDelay then forall j: nat | j + 2 <= n :: !OverdoublesAt(p, j)
       else IsDuration(Scaled(p.baseDelay, n - 1))
  }

  lemma {:induction false} DoublingGrows(base: int, i: nat, j: nat)
    requires i <= j
    ensures if 0 <= base then 0 <= Scaled(base, i) <= Scaled(base, j) else Scaled(base, j) <= Scaled(base, i) < 0
  {
    if i < j {
      DoublingGrows(base, i, j - 1);
    } else if 0 < i {
      DoublingGrows(base, i - 1, i - 1);
    }
  }

  /** As long as the doubling fits the cap, no comparison on the way exceeds it. */
  lemma UncappedBelow(p: Policy, m: nat)
    requires IsDuration(Scaled(p.baseDelay, m)) && (0 < p.maxDelay ==> Scaled(p.baseDelay, m) <= p.maxDelay)
    ensures Doubled(p, m) == Scaled(p.baseDelay, m)
    ensures forall i: nat | i <= m :: !Exceeds(p, i)
  {
    forall i: nat | i <= m ensures Doubled(p, i) == Scaled(p.baseDelay, i) && !Exceeds(p, i) {
      DoublingGrows(p.baseDelay, i, m);
      WrapIsUnique(Scaled(p.baseDelay, i), Scaled(p.baseDelay, i), 0);
    }
  }

  /** The first doubling above the cap is met in range, unless one before it overdoubles. */
  lemma {:induction false} CappedAbove(p: Policy, m: nat)
    requires 0 <= p.baseDelay && 0 < p.maxDelay && forall j: nat | j < m :: !OverdoublesAt(p, j)
    requires p.maxDelay < Scaled(p.baseDelay, m)
    ensures Capped(p, m + 1)
  {
    if 2 <= m && p.maxDelay < Scaled(p.baseDelay, m - 1) {
      CappedAbove(p, m - 1);
    } else {
      assert m > 0 ==> !OverdoublesAt(p, m - 1);
      WrapIsUnique(Scaled(p.baseDelay, m), Scaled(p.baseDelay, m), 0);
      assert Exceeds(p, m);
    }
  }

  /** Once a positive doubling fits neither the cap's room nor 63 bits, the delay turns negative. */
  lemma OverdoublingFails(p: Policy, j: nat)
    requires 0 <= p.baseDelay && 0 < p.maxDelay && OverdoublesAt(p, j)
    ensures Delay(p, j + 2) < 0
  {
    var doubled := Scaled(p.baseDelay, j + 1);
    WrapIsUnique(doubled, doubled - TWO_64, 1);
    if j > 0 {
      UncappedBelow(p, j);
    }
    assert !Capped(p, j + 2);
  }

  /**
    For every policy: the first n delays are the intended ones exactly when they
    fit. A negative BaseDelay, which nothing caps, and a policy without a cap
    fit as long as the largest of them is a duration.
   */
  lemma DelaysAreIntendedIffFits(p: Policy, n: nat)
    ensures (forall k | 1 <= k <= n :: Delay(p, k) == Intended(p, k)) <==> Fits(p, n)
  {
    hide Wrap;
    WrapIsUnique(p.baseDelay, p.baseDelay, 0);
    if Fits(p, n) {
      forall k | 1 <= k <= n ensures Delay(p, k) == Intended(p, k) {
        FittingDelay(p, n, k);
      }
    } else if 0 < p.maxDelay && 0 <= p.baseDelay {
      var j: nat :| j + 2 <= n && OverdoublesAt(p, j);
      OverdoublingFails(p, j);
      DoublingGrows(p.baseDelay, 0, j + 1);
      assert Delay(p, j + 2) < 0 <= Intended(p, j + 2);
    } else {
      DoublingGrows(p.baseDelay, 0, n - 1);
      assert Intended(p, n) == Scaled(p.baseDelay, n - 1) != Delay(p, n);
    }
  }

  lemma FittingDelay(p: Policy, n: nat, k: int)
    requires Fits(p, n) && 1 <= k <= n
    ensures Delay(p, k) == Intended(p, k)
  {
    hide Wrap;
    var doubled := Scaled(p.baseDelay, k - 1);
    if k == 1 {
      WrapIsUnique(p.baseDelay, p.baseDelay, 0);
    } else if 0 < p.maxDelay && 0 <= p.baseDelay && p.maxDelay < doubled {
      CappedAbove(p, k - 1);
    } else {
      DoublingGrows(p.baseDelay, 0, k - 1);
      DoublingGrows(p.baseDelay, k - 1, n - 1);
      UncappedBelow(p, k - 1);
    }
  }

  /** Doubling a delay that is not zero outgrows every bound. */
  lemma {:induction false} Outgrows(base: int, m: nat)
    ensures 0 < base ==> m < Scaled(base, m)
    ensures base < 0 ==> Scaled(base, m) + m < 0
  {
    if m > 0 {
      Outgrows(base, m - 1);
    }
  }

  /**
    backoff is the intended doubling at every attempt number exactly when the
    policy is capped, starts from no negative delay and does not overdouble, or
    never waits at all. With BaseDelay and MaxDelay below 2^62, as in
    DefaultPolicy, it never overdoubles.
   */
  lemma BackoffIsCappedDoubling(p: Policy)
    ensures (forall k | 1 <= k :: Delay(p, k) == Intended(p, k))
      <==> p.baseDelay == 0 || (0 < p.maxDelay && 0 <= p.baseDelay && !Overdoubles(p))
    ensures p.baseDelay < TWO_62 && p.maxDelay < TWO_62 ==> !Overdoubles(p)
  {
    hide Delay, Intended;
    if p.baseDelay == 0 || (0 < p.maxDelay && 0 <= p.baseDelay && !Overdoubles(p)) {
      forall k | 1 <= k ensures Delay(p, k) == Intended(p, k) {
        if p.baseDelay == 0 {
          ScaledIsPower(0, k - 1);
          forall j: nat ensures !OverdoublesAt(p, j) { ScaledIsPower(0, j); }
        }
        DelaysAreIntendedIffFits(p, k);
      }
    } else if 0 < p.maxDelay && 0 <= p.baseDelay {
      var j: nat :| OverdoublesAt(p, j);
      DelaysAreIntendedIffFits(p, j + 2);
      assert !Fits(p, j + 2);
    } else {
      var m: nat :| m == TWO_63;
      Outgrows(p.baseDelay, m);
      DelaysAreIntendedIffFits(p, m + 1);
      assert !Fits(p, m + 1);
    }
  }

  /** The default policy: three attempts, from 200 ms by doubling up to 5 s, with jitter. */
  lemma DefaultDelays()
    ensures var p := DEFAULT_POLICY;
      && p.maxAttempts == 3 && p.jitter
      && Intended(p, 1) == 200_000_000 && Intended(p, 2) == 400_000_000 && Intended(p, 3) == 800_000_000
      && Intended(p, 4) == 1_600_000_000 && Intended(p, 5) == 3_200_000_000
      && forall n | 6 <= n :: Intended(p, n) == 5_000_000_000
    ensures forall n: nat :: Fits(DEFAULT_POLICY, n)
  {
    var p := DEFAULT_POLICY;
    forall n | 6 <= n ensures Intended(p, n) == 5_000_000_000 {
      DoublingGrows(p.baseDelay, 5, n - 1);
    }
    BackoffIsCappedDoubling(p);
  }

  const OVERDOUBLING: Policy := Policy(3, 0x4000_0000_0000_0000, 0x7fff_ffff_ffff_ffff, false)

  /** A policy whose second doubling wraps around: the delay after it is negative, where the cap was meant. */
  lemma WrappedDelay()
    ensures Overdoubles(OVERDOUBLING) && !Fits(OVERDOUBLING, 2)
    ensures Delay(OVERDOUBLING, 2) < 0 < Intended(OVERDOUBLING, 2) == OVERDOUBLING.maxDelay
  {
    assert OverdoublesAt(OVERDOUBLING, 0);
    OverdoublingFails(OVERDOUBLING, 0);
  }

  const UNCAPPED: Policy := Policy(5, 0x2000_0000_0000_0000, 0, false)

  /** Without a cap the doubling itself leaves the word: the third delay is negative. */
  lemma UncappedWraps()
    ensures !Overdoubles(UNCAPPED) && Fits(UNCAPPED, 2) && !Fits(UNCAPPED, 3)
    ensures Delay(UNCAPPED, 3) < 0 < Intended(UNCAPPED, 3)
  {
    forall j: nat ensures !OverdoublesAt(UNCAPPED, j) {
      if j > 0 { DoublingGrows(UNCAPPED.baseDelay, 0, j); }
    }
    WrapIsUnique(Scaled(UNCAPPED.baseDelay, 2), -TWO_63, 1);
  }

  /** Delays never shrink as attempts go on; with jitter, below the cap, no pair of draws makes them. */
  lemma DelaysGrow(p: Policy, n: nat, d: int, e: int)
    requires 0 <= p.baseDelay && 1 <= n && Fits(p, n + 1)
    requires DelayAllowed(p, n, d) && DelayAllowed(p, n + 1, e)
    requires p.jitter && 0 < p.maxDelay ==> Scaled(p.baseDelay, n) <= p.maxDelay
    ensures d <= e
  {
    hide Delay, Fits;
    DelaysAreIntendedIffFits(p, n + 1);
    assert Delay(p, n) == Intended(p, n) && Delay(p, n + 1) == Intended(p, n + 1);
    DoublingGrows(p.baseDelay, n - 1, n);
  }

  /**
    The delays that can come out: with jitter, everything from half the intended
    delay up to it, an odd nanosecond aside; without, that delay alone.
   */
  lemma JitterBounds(p: Policy, n: nat, d: int)
    requires 0 <= p.baseDelay && 1 <= n && Fits(p, n)
    ensures DelayAllowed(p, n, d) ==> 0 <= Intended(p, n) / 2 <= d <= Intended(p, n)
    ensures p.jitter ==> (DelayAllowed(p, n, d) <==> Intended(p, n) / 2 <= d <= Intended(p, n) - Intended(p, n) % 2)
    ensures !p.jitter ==> (DelayAllowed(p, n, d) <==> d == Intended(p, n))
  {
    hide Delay, Fits;
    DelaysAreIntendedIffFits(p, n);
    assert Delay(p, n) == Intended(p, n);
    DoublingGrows(p.baseDelay, 0, n - 1);
  }

  function Total(delays: seq<int>): int {
    if delays == [] then 0 else Total(delays[..|delays| - 1]) + delays[|delays| - 1]
  }

  /** The sleep requested between the attempts of one run. */
  lemma {:induction false} TotalSleepBound(p: Policy, delays: seq<int>)
    requires 0 <= p.baseDelay && Fits(p, |delays|)
    requires forall i | 0 <= i < |delays| :: DelayAllowed(p, i + 1, delays[i])
    ensures 0 <= Total(delays) <= Scaled(p.baseDelay, |delays|) - p.baseDelay
    ensures 0 < p.maxDelay ==> Total(delays) <= |delays| * p.maxDelay
  {
    hide DelayAllowed, Fits;
    var n := |delays|;
    if n > 0 {
      FitsBefore(p, n - 1);
      TotalSleepBound(p, delays[..n - 1]);
      JitterBounds(p, n, delays[n - 1]);
      OneMore(n, p.maxDelay);
    }
  }

  lemma FitsBefore(p: Policy, n: nat)
    requires Fits(p, n + 1)
    ensures Fits(p, n)
  {
    hide Fits, Delay, Intended;
    DelaysAreIntendedIffFits(p, n + 1);
    DelaysAreIntendedIffFits(p, n);
  }

  lemma OneMore(n: int, d: int)
    ensures n * d == (n - 1) * d + d
  {}
}
