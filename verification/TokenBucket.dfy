/**
  The token bucket of internal/ratelimit, as values.

  A limiter keeps two numbers, `tokens` and `last`. This module states what
  those two numbers say about the whole history of lock-held sections: after a
  refill they hold exactly the tightest of all sliding windows over the past.
  Clock readings are whole nanoseconds and may go backwards.
 */
module TokenBucket {
  import opened Wrappers

  datatype Bucket = Bucket(rate: real, burst: real, tokens: real, last: int) {
    ghost predicate Valid() {
      0.0 < rate && 1.0 <= burst && 0.0 <= tokens <= burst
    }

    ghost predicate Full() {
      Valid() && tokens == burst
    }
  }

  /** One lock-held section: the clock reading it took and whether it took a token. */
  datatype Section = Section(now: int, granted: bool)

  type History = seq<Section>

  // ---------------------------------------------------------------- the code

  function Seconds(ns: int): real {
    ns as real / 1000000000.0
  }

  /** Tokens that accrue between two instants. */
  function Accrued(rate: real, x: int, y: int): real {
    rate * Seconds(y - x)
  }

  function NewBucket(ratePerSecond: real, burst: int, now: int): (b: Bucket)
    ensures b.Full()
  {
    var r := if ratePerSecond <= 0.0 then 1.0 else ratePerSecond;
    var size := if burst < 1 then 1 else burst;
    Bucket(r, size as real, size as real, now)
  }

  function Refill(b: Bucket, now: int): Bucket {
    var elapsed := Seconds(now - b.last);
    if elapsed <= 0.0 then b
    else
      var tokens := b.tokens + elapsed * b.rate;
      b.(last := now, tokens := if tokens > b.burst then b.burst else tokens)
  }

  predicate HasToken(b: Bucket, now: int) {
    Refill(b, now).tokens >= 1.0
  }

  /** The bucket after a section that read the clock and took a token or not. */
  function After(b: Bucket, s: Section): Bucket {
    var r := Refill(b, s.now);
    if s.granted then r.(tokens := r.tokens - 1.0) else r
  }

  function Replay(b: Bucket, h: History): (after: Bucket)
    ensures after.rate == b.rate && after.burst == b.burst
  {
    if h == [] then b else After(Replay(b, h[..|h| - 1]), h[|h| - 1])
  }

  /** Every decision in `h` is the one the limiter takes. */
  ghost predicate Greedy(b: Bucket, h: History) {
    forall i | 0 <= i < |h| :: h[i].granted <==> HasToken(Replay(b, h[..i]), h[i].now)
  }

  /** Some policy under the same refill, cap and one-token rules, free to refuse, produces `h`. */
  ghost predicate Lawful(b: Bucket, h: History) {
    forall i | 0 <= i < |h| :: h[i].granted ==> HasToken(Replay(b, h[..i]), h[i].now)
  }

  // ------------------------------------------------- the sliding-window rule

  function Grants(h: History): nat {
    if h == [] then 0 else Grants(h[..|h| - 1]) + (if h[|h| - 1].granted then 1 else 0)
  }

  /** The running maximum of the clock readings of `h`, from `start` on. */
  function Clock(start: int, h: History): (t: int)
    ensures start <= t
  {
    if h == [] then start else Max(Clock(start, h[..|h| - 1]), h[|h| - 1].now)
  }

  /** The running maximum as section `k` sees it. */
  function ClockAt(start: int, h: History, k: nat): int
    requires k < |h|
  {
    Clock(start, h[..k + 1])
  }

  /** Tokens a full bucket would still hold now, had it last been full at section `k`. */
  function Room(b: Bucket, h: History, k: nat, t: int): real
    requires k <= |h|
  {
    if k == |h| then b.burst
    else b.burst + Accrued(b.rate, ClockAt(b.last, h, k), t) - Grants(h[k..]) as real
  }

  /** The rule over the whole history: one more grant overdraws no window. */
  ghost predicate Admissible(b: Bucket, h: History, now: int) {
    forall k: nat | k <= |h| :: 1.0 <= Room(b, h, k, Max(Clock(b.last, h), now))
  }

  // ------------------------------------------------------------ small lemmas

  lemma AccrualAdds(rate: real, x: int, y: int, z: int)
    ensures Accrued(rate, x, z) == Accrued(rate, x, y) + Accrued(rate, y, z)
  {
    assert Seconds(z - x) == Seconds(y - x) + Seconds(z - y);
  }

  lemma AccrualGrows(rate: real, x: int, y: int, z: int)
    requires 0.0 < rate && y <= z
    ensures Accrued(rate, x, y) <= Accrued(rate, x, z)
  {
    AccrualAdds(rate, x, y, z);
    assert 0.0 <= rate * Seconds(z - y);
  }

  lemma {:induction false} GrantsConcat(g: History, h: History)
    ensures Grants(g + h) == Grants(g) + Grants(h)
  {
    if h == [] {
      assert g + h == g;
    } else {
      assert (g + h)[..|g + h| - 1] == g + h[..|h| - 1];
      GrantsConcat(g, h[..|h| - 1]);
    }
  }

  lemma GrantsOf(s: Section)
    ensures Grants([]) == 0 && Grants([s]) == if s.granted then 1 else 0
  {
    assert [s][..0] == [];
  }

  lemma {:induction false} ClockMonotone(start: int, h: History, i: nat, j: nat)
    requires i <= j <= |h|
    ensures Clock(start, h[..i]) <= Clock(start, h[..j])
  {
    if i < j {
      assert h[..j][..j - 1] == h[..j - 1];
      ClockMonotone(start, h, i, j - 1);
    }
  }

  /** A refill tops the tokens up with what accrued, under the cap, and never turns the clock back. */
  lemma RefillFacts(b: Bucket, now: int)
    requires 0.0 < b.rate && b.tokens <= b.burst
    ensures var r := Refill(b, now);
      && r.last == Max(b.last, now)
      && b.tokens <= r.tokens <= b.burst
      && var accrued := Accrued(b.rate, b.last, r.last);
         0.0 <= accrued && r.tokens == if b.tokens + accrued > b.burst then b.burst else b.tokens + accrued
  {
    var elapsed := Seconds(now - b.last);
    if elapsed > 0.0 {
      assert 0.0 <= elapsed * b.rate == b.rate * elapsed;
    }
  }

  lemma {:induction false} ReplayFacts(b: Bucket, h: History)
    requires b.Full()
    ensures Replay(b, h).last == Clock(b.last, h)
    ensures Replay(b, h).tokens <= b.burst
  {
    if h != [] {
      ReplayFacts(b, h[..|h| - 1]);
      RefillFacts(Replay(b, h[..|h| - 1]), h[|h| - 1].now);
    }
  }

  lemma {:induction false} LawfulStaysValid(b: Bucket, h: History)
    requires b.Full() && Lawful(b, h)
    ensures Replay(b, h).Valid()
  {
    if h != [] {
      var init := h[..|h| - 1];
      assert forall i | 0 <= i < |init| :: init[..i] == h[..i];
      LawfulStaysValid(b, init);
      RefillFacts(Replay(b, init), h[|h| - 1].now);
      assert init == h[..|h| - 1];
    }
  }

  lemma GreedyInit(b: Bucket, h: History)
    requires Greedy(b, h) && h != []
    ensures var n := |h| - 1;
      && Greedy(b, h[..n]) && (h[n].granted <==> HasToken(Replay(b, h[..n]), h[n].now))
      && Replay(b, h) == After(Replay(b, h[..n]), h[n])
  {
    hide HasToken, After;
    assert forall i | 0 <= i < |h| - 1 :: h[..|h| - 1][..i] == h[..i];
  }

  lemma LawfulInit(b: Bucket, h: History)
    requires Lawful(b, h) && h != []
    ensures var n := |h| - 1;
      && Lawful(b, h[..n]) && (h[n].granted ==> HasToken(Replay(b, h[..n]), h[n].now))
      && Replay(b, h) == After(Replay(b, h[..n]), h[n])
  {
    hide HasToken, After;
    assert forall i | 0 <= i < |h| - 1 :: h[..|h| - 1][..i] == h[..i];
  }

  // ------------------------------------------------------------ the theorems

  /** Widening a history by one section moves every window's room alike. */
  lemma RoomStep(b: Bucket, h: History, s: Section, k: nat, t: int)
    requires b.Full() && k <= |h| && Clock(b.last, h + [s]) <= t
    ensures var t1 := Clock(b.last, h + [s]);
      Room(b, h + [s], k, t)
        == Room(b, h, k, t1) + Accrued(b.rate, t1, t) - (if s.granted then 1.0 else 0.0)
  {
    hide Accrued, Clock, Grants;
    var g := h + [s];
    var t1 := Clock(b.last, g);
    assert g[..|g| - 1] == h;
    GrantsConcat(h[k..], [s]);
    GrantsOf(s);
    assert g[k..] == h[k..] + [s];
    if k == |h| {
      assert g[..k + 1] == g;
    } else {
      assert g[..k + 1] == h[..k + 1];
      AccrualAdds(b.rate, ClockAt(b.last, h, k), t1, t);
    }
  }

  /** After a refill the bucket holds exactly the room of the tightest window. */
  lemma {:induction false} TokensAreTightestWindow(b: Bucket, h: History, now: int) returns (tight: nat)
    requires b.Full()
    ensures var t := Max(Clock(b.last, h), now);
      var tokens := Refill(Replay(b, h), now).tokens;
      && tight <= |h| && tokens == Room(b, h, tight, t)
      && forall k: nat | k <= |h| :: tokens <= Room(b, h, k, t)
  {
    ReplayFacts(b, h);
    RefillFacts(Replay(b, h), now);
    if h == [] {
      tight := 0;
    } else {
      var init, s := h[..|h| - 1], h[|h| - 1];
      assert h == init + [s];
      var t1, t := Clock(b.last, h), Max(Clock(b.last, h), now);
      tight := TokensAreTightestWindow(b, init, s.now);
      forall k: nat | k <= |init|
        ensures Refill(Replay(b, init), s.now).tokens <= Room(b, init, k, t1)
        ensures Room(b, h, k, t) == Room(b, init, k, t1) + Accrued(b.rate, t1, t) - (if s.granted then 1.0 else 0.0)
      {
        RoomStep(b, init, s, k, t);
      }
      if Refill(Replay(b, h), now).tokens == b.burst {
        tight := |h|;
      }
    }
  }

  /** The two numbers decide exactly what the rule over the whole history decides. */
  lemma AllowIsSlidingWindow(b: Bucket, h: History, now: int)
    requires b.Full()
    ensures HasToken(Replay(b, h), now) <==> Admissible(b, h, now)
  {
    var tight := TokensAreTightestWindow(b, h, now);
  }

  /** A history is the limiter's own exactly when each decision follows the whole-history rule. */
  lemma GreedyIsSlidingWindow(b: Bucket, h: History)
    requires b.Full()
    ensures Greedy(b, h) <==> forall i | 0 <= i < |h| :: h[i].granted <==> Admissible(b, h[..i], h[i].now)
  {
    forall i | 0 <= i < |h| ensures HasToken(Replay(b, h[..i]), h[i].now) <==> Admissible(b, h[..i], h[i].now) {
      AllowIsSlidingWindow(b, h[..i], h[i].now);
    }
  }

  /** Grants between sections `k` and `i`, both included, fit the burst plus what accrued between them. */
  ghost predicate WindowHolds(b: Bucket, h: History, k: nat, i: nat)
    requires k <= i < |h|
  {
    Grants(h[k..i + 1]) as real <= b.burst + Accrued(b.rate, ClockAt(b.last, h, k), ClockAt(b.last, h, i))
  }

  ghost predicate AllWindowsHold(b: Bucket, h: History) {
    forall k: nat, i: nat | k <= i < |h| :: WindowHolds(b, h, k, i)
  }

  lemma WindowAsRoom(b: Bucket, h: History, k: nat, i: nat)
    requires b.Full() && k <= i < |h| && h[i].granted
    ensures WindowHolds(b, h, k, i)
      <==> 1.0 <= Room(b, h[..i], k, Max(Clock(b.last, h[..i]), h[i].now))
  {
    assert h[..i + 1][..i] == h[..i];
    assert h[k..i + 1] == h[..i][k..] + [h[i]];
    GrantsConcat(h[..i][k..], [h[i]]);
    assert Grants([h[i]]) == Grants([]) + 1;
    if k < i {
      assert h[..i][..k + 1] == h[..k + 1];
    } else {
      assert h[..i][k..] == [];
      assert Seconds(0) == 0.0;
    }
  }

  lemma {:induction false} LawfulKeepsWindows(b: Bucket, h: History, k: nat, i: nat)
    requires b.Full() && Lawful(b, h) && k <= i < |h|
    ensures WindowHolds(b, h, k, i)
  {
    if h[i].granted {
      AllowIsSlidingWindow(b, h[..i], h[i].now);
      WindowAsRoom(b, h, k, i);
    } else {
      assert h[k..i + 1][..i - k] == h[k..i];
      ClockMonotone(b.last, h, k + 1, i + 1);
      assert Seconds(0) == 0.0;
      if k < i {
        LawfulKeepsWindows(b, h, k, i - 1);
        ClockMonotone(b.last, h, i, i + 1);
        AccrualGrows(b.rate, ClockAt(b.last, h, k), ClockAt(b.last, h, i - 1), ClockAt(b.last, h, i));
      } else {
        assert h[k..i] == [];
      }
    }
  }

  /** A decision sequence is possible under the bucket's rules exactly when no window is overdrawn. */
  lemma LawfulIsAllWindows(b: Bucket, h: History)
    requires b.Full()
    ensures Lawful(b, h) <==> AllWindowsHold(b, h)
  {
    if Lawful(b, h) {
      forall k: nat, i: nat | k <= i < |h| ensures WindowHolds(b, h, k, i) {
        LawfulKeepsWindows(b, h, k, i);
      }
    }
    if AllWindowsHold(b, h) {
      forall i | 0 <= i < |h| && h[i].granted ensures HasToken(Replay(b, h[..i]), h[i].now) {
        forall k: nat | k <= i ensures 1.0 <= Room(b, h[..i], k, Max(Clock(b.last, h[..i]), h[i].now)) {
          assert WindowHolds(b, h, k, i);
          WindowAsRoom(b, h, k, i);
        }
        AllowIsSlidingWindow(b, h[..i], h[i].now);
      }
    }
  }

  ghost predicate SameReadings(g: History, h: History) {
    |g| == |h| && forall i | 0 <= i < |g| :: g[i].now == h[i].now
  }

  /** The same refill keeps the one with more tokens and grants ahead. */
  lemma AheadRefilled(g: Bucket, o: Bucket, now: int, ng: nat, no: nat)
    requires 0.0 < g.rate == o.rate && g.burst == o.burst && g.last == o.last
    requires g.tokens <= g.burst && o.tokens <= o.burst
    requires no <= ng && o.tokens + no as real <= g.tokens + ng as real
    ensures Refill(o, now).tokens + no as real <= Refill(g, now).tokens + ng as real
    ensures Refill(o, now).last == Refill(g, now).last
  {
    hide Refill, Accrued;
    RefillFacts(g, now);
    RefillFacts(o, now);
  }

  /** One section each, at the same reading, keeps the greedy one ahead. */
  lemma AheadStep(g: Bucket, o: Bucket, s: Section, r: Section, ng: nat, no: nat)
    requires 0.0 < g.rate == o.rate && g.burst == o.burst && g.last == o.last && s.now == r.now
    requires g.tokens <= g.burst && o.tokens <= o.burst
    requires no <= ng && o.tokens + no as real <= g.tokens + ng as real
    requires (s.granted <==> HasToken(g, s.now)) && (r.granted ==> HasToken(o, r.now))
    ensures var ng', no' := ng + (if s.granted then 1 else 0), no + (if r.granted then 1 else 0);
      && no' <= ng' && After(o, r).tokens + no' as real <= After(g, s).tokens + ng' as real
      && After(o, r).last == After(g, s).last
  {
    hide Refill;
    AheadRefilled(g, o, s.now, ng, no);
  }

  /** The limiter never grants less than any other policy, and what it holds plus what it gave is never less. */
  lemma {:induction false} GreedyIsAhead(b: Bucket, greedy: History, other: History)
    requires b.Full() && SameReadings(greedy, other)
    requires Greedy(b, greedy) && Lawful(b, other)
    ensures Grants(other) <= Grants(greedy)
    ensures Replay(b, other).tokens + Grants(other) as real <= Replay(b, greedy).tokens + Grants(greedy) as real
    ensures Replay(b, other).last == Replay(b, greedy).last
  {
    hide HasToken, After, Greedy, Lawful;
    if greedy != [] {
      var n := |greedy| - 1;
      var g, o := greedy[..n], other[..n];
      GreedyInit(b, greedy);
      LawfulInit(b, other);
      GreedyIsAhead(b, g, o);
      ReplayFacts(b, g);
      ReplayFacts(b, o);
      AheadStep(Replay(b, g), Replay(b, o), greedy[n], other[n], Grants(g), Grants(o));
    }
  }

  /** Greedy admission is optimal at every prefix among all decision sequences that overdraw no window. */
  lemma GreedyIsOptimal(b: Bucket, greedy: History, other: History, n: nat)
    requires b.Full() && SameReadings(greedy, other) && n <= |greedy|
    requires Greedy(b, greedy) && AllWindowsHold(b, other)
    ensures Grants(other[..n]) <= Grants(greedy[..n])
  {
    LawfulIsAllWindows(b, other);
    var g, o := greedy[..n], other[..n];
    assert forall i | 0 <= i < n :: g[..i] == greedy[..i] && o[..i] == other[..i];
    GreedyIsAhead(b, g, o);
  }

  // ------------------------------------------- what New's arguments mean

  lemma NewBucketIs(ratePerSecond: real, burst: int, start: int)
    ensures NewBucket(ratePerSecond, burst, start)
      == Bucket(if 0.0 < ratePerSecond then ratePerSecond else 1.0, Max(1, burst) as real, Max(1, burst) as real, start)
  {}

  /** What is left of `size` tokens after n calls that nothing refills. */
  function Left(size: int, n: nat): real {
    if n < size then (size - n) as real else 0.0
  }

  lemma FreshStep(b: Bucket, s: Section, size: int, n: nat)
    requires b.tokens == Left(size, n) && s.now <= b.last
    requires s.granted <==> HasToken(b, s.now)
    ensures After(b, s) == b.(tokens := Left(size, n + 1)) && (s.granted <==> n < size)
  {
    assert Seconds(s.now - b.last) <= 0.0;
  }

  /** At readings that do not pass its start, a limiter just made gives its tokens to the first calls. */
  lemma {:induction false} FreshTokens(ratePerSecond: real, burst: int, start: int, h: History)
    requires Greedy(NewBucket(ratePerSecond, burst, start), h)
    requires forall s | s in h :: s.now <= start
    ensures Replay(NewBucket(ratePerSecond, burst, start), h)
      == NewBucket(ratePerSecond, burst, start).(tokens := Left(Max(1, burst), |h|))
    ensures forall i | 0 <= i < |h| :: h[i].granted <==> i < Max(1, burst)
  {
    hide HasToken, After, NewBucket, Greedy;
    NewBucketIs(ratePerSecond, burst, start);
    if h != [] {
      var n := |h| - 1;
      var init, b := h[..n], NewBucket(ratePerSecond, burst, start);
      GreedyInit(b, h);
      assert h[n] in h && forall s | s in init :: s in h;
      FreshTokens(ratePerSecond, burst, start, init);
      FreshStep(Replay(b, init), h[n], Max(1, burst), n);
    }
  }

  /** Whether a refilled bucket with whole tokens left has one. */
  lemma LeftAndAccrued(b: Bucket, size: int, n: nat, ns: nat)
    requires 0.0 < b.rate && b.tokens == Left(size, n) && b.tokens <= b.burst && 1.0 <= b.burst
    ensures HasToken(b, b.last + ns) <==> n < size || 1.0 <= b.rate * (ns as real / 1000000000.0)
  {
    RefillFacts(b, b.last + ns);
    assert Accrued(b.rate, b.last, b.last + ns) == b.rate * (ns as real / 1000000000.0);
  }

  /**
    New(rate, n): the first max(1, n) calls are granted at once and no further
    one is, until the rate asked for, or 1 where it is not positive, has brought
    a whole token.
   */
  lemma FreshLimiterGrants(ratePerSecond: real, burst: int, start: int, h: History, ns: nat)
    requires Greedy(NewBucket(ratePerSecond, burst, start), h)
    requires forall s | s in h :: s.now <= start
    ensures forall i | 0 <= i < |h| :: h[i].granted <==> i < Max(1, burst)
    ensures HasToken(Replay(NewBucket(ratePerSecond, burst, start), h), start + ns)
      <==> |h| < Max(1, burst)
           || 1.0 <= (if 0.0 < ratePerSecond then ratePerSecond else 1.0) * (ns as real / 1000000000.0)
  {
    hide HasToken, NewBucket, Replay, Greedy;
    NewBucketIs(ratePerSecond, burst, start);
    FreshTokens(ratePerSecond, burst, start, h);
    LeftAndAccrued(Replay(NewBucket(ratePerSecond, burst, start), h), Max(1, burst), |h|, ns);
  }
}
