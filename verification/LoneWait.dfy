/**
  Wait by a caller that has the limiter to itself, under a clock that never
  lags behind the bucket and timers that never fire early: two sleeps are
  always enough, although each one is truncated to whole nanoseconds.
 */
module LoneWait {
  import opened Wrappers
  import opened TokenBucket
  import opened Limiters

  function TotalDelay(refusals: seq<Refusal>): int {
    if refusals == [] then 0
    else TotalDelay(refusals[..|refusals| - 1]) + refusals[|refusals| - 1].delay
  }

  /** Every new section is the caller's own. */
  ghost predicate Alone(me: nat, h: History, o: seq<nat>, h': History, o': seq<nat>) {
    Grows(h, o, h', o') && forall i | |h| <= i < |h'| :: o'[i] == me
  }

  /** The clock never lags behind the bucket, and each section reads it at least the sleep before it later. */
  ghost predicate Steady(start: int, h: History, h': History, refusals: seq<Refusal>) {
    && |h| + |refusals| <= |h'|
    && (|h| < |h'| ==> Clock(start, h) <= h'[|h|].now)
    && forall i | 0 <= i < |refusals| && |h| + i + 1 < |h'| ::
         h'[|h| + i].now + refusals[i].delay <= h'[|h| + i + 1].now
  }

  /** Nanoseconds in which a deficit accrues. */
  function AccrualTime(b: Bucket): real
    requires 0.0 < b.rate
  {
    (1.0 - b.tokens) / b.rate * 1000000000.0
  }

  lemma AccruedIn(b: Bucket, ns: int)
    requires 0.0 < b.rate
    ensures Seconds(ns) * b.rate + b.tokens
      == 1.0 + (ns as real - AccrualTime(b)) * (b.rate / 1000000000.0)
  {
    var perNs := b.rate / 1000000000.0;
    assert AccrualTime(b) * perNs == 1.0 - b.tokens;
    assert Seconds(ns) * b.rate == ns as real * perNs;
    assert (ns as real - AccrualTime(b)) * perNs == ns as real * perNs - AccrualTime(b) * perNs;
  }

  lemma Scale(x: real, y: real, p: real)
    requires x <= y && 0.0 < p
    ensures x * p <= y * p && (x < y ==> x * p < y * p)
  {}

  lemma TimeOfDeficit(rate: real, time: real)
    requires 0.0 < rate
    ensures time * (rate / 1000000000.0) / rate * 1000000000.0 == time
  {
    var perNs := rate / 1000000000.0;
    assert rate == perNs * 1000000000.0;
    assert time * perNs / rate == time / 1000000000.0 by {
      assert time * perNs == time / 1000000000.0 * rate;
    }
  }

  /** Against a scale of one nanosecond's worth, tokens and accrual times say the same. */
  lemma RefilledAfter(b: Bucket, ns: int)
    requires b.Valid() && b.tokens < 1.0 && 0 <= ns
    ensures var r := Refill(b, b.last + ns);
      && r.last == b.last + ns && r.Valid() && r.rate == b.rate
      && (AccrualTime(b) <= ns as real ==> 1.0 <= r.tokens)
      && (r.tokens < 1.0 ==> AccrualTime(r) == AccrualTime(b) - ns as real)
  {
    var r, perNs := Refill(b, b.last + ns), b.rate / 1000000000.0;
    AccruedIn(b, ns);
    RefillFacts(b, b.last + ns);
    if AccrualTime(b) <= ns as real {
      Scale(0.0, ns as real - AccrualTime(b), perNs);
    }
    if r.tokens < 1.0 {
      assert 1.0 - r.tokens == (AccrualTime(b) - ns as real) * perNs;
      TimeOfDeficit(r.rate, AccrualTime(b) - ns as real);
    }
  }

  /** A token waits after one sleep, unless truncation left less than a nanosecond's worth to go. */
  lemma SleepNearlyCovers(b: Bucket, now: int)
    requires b.Valid() && b.tokens < 1.0 && b.last + SleepFor(b) <= now
    ensures var r := Refill(b, now);
      && r.last == now
      && (r.tokens >= 1.0 || (AccrualTime(b) >= 1.0 && AccrualTime(r) < 1.0))
  {
    SleepBound(b);
    RefilledAfter(b, now - b.last);
  }

  /** A deficit of less than a nanosecond asks for the one-millisecond fallback, which always covers it. */
  lemma FallbackCovers(b: Bucket, now: int)
    requires b.Valid() && b.tokens < 1.0 && AccrualTime(b) < 1.0 && b.last + SleepFor(b) <= now
    ensures SleepFor(b) == MILLISECOND && Refill(b, now).tokens >= 1.0
  {
    assert 0.0 <= AccrualTime(b);
    SleepNearlyCovers(b, now);
  }

  lemma SleepBound(b: Bucket)
    requires 0.0 < b.rate && b.tokens < 1.0
    ensures 0.0 <= AccrualTime(b)
    ensures if AccrualTime(b) < 1.0 then SleepFor(b) == MILLISECOND
            else SleepFor(b) as real <= AccrualTime(b) < SleepFor(b) as real + 1.0
  {}

  /**
    The sleep of a refused Wait is the whole number of nanoseconds that brings
    the tokens just short of, or up to, a whole one; a millisecond where that
    number is zero.
   */
  lemma SleepIsDeficit(b: Bucket)
    requires 0.0 < b.rate && b.tokens < 1.0
    ensures var d, missing := SleepFor(b), (1.0 - b.tokens) * 1000000000.0;
      if missing < b.rate then d == 1_000_000
      else 0.0 <= missing - d as real * b.rate < b.rate
  {
    hide SleepFor, AccrualTime;
    TimeOfTokens(b);
    SleepBound(b);
    Whole(SleepFor(b) as real, AccrualTime(b), b.rate, (1.0 - b.tokens) * 1000000000.0);
  }

  /** A time and its whole part, both against the rate. */
  lemma Whole(d: real, time: real, rate: real, missing: real)
    requires 0.0 < rate && missing == time * rate
    ensures time < 1.0 <==> missing < rate
    ensures d <= time < d + 1.0 ==> 0.0 <= missing - d * rate < rate
  {
    if time < 1.0 {
      Scale(time, 1.0, rate);
    } else {
      Scale(1.0, time, rate);
    }
    if d <= time < d + 1.0 {
      var part := time - d;
      Scale(0.0, part, rate);
      Scale(part, 1.0, rate);
      assert part * rate < rate;
      assert time * rate == (d + part) * rate == d * rate + part * rate;
      assert missing - d * rate == part * rate;
      assert missing - d * rate < rate;
    }
  }

  lemma TimeOfTokens(b: Bucket)
    requires 0.0 < b.rate
    ensures AccrualTime(b) * b.rate == (1.0 - b.tokens) * 1000000000.0
  {
    var perToken := (1.0 - b.tokens) / b.rate;
    assert perToken * b.rate == 1.0 - b.tokens;
    assert perToken * 1000000000.0 * b.rate == perToken * b.rate * 1000000000.0;
  }

  lemma RefusedState(origin: Bucket, h: History, r: Refusal)
    requires origin.Full() && Greedy(origin, h) && RefusedAt(origin, h, r)
    ensures var before, b := Replay(origin, h[..r.at]), Replay(origin, h[..r.at + 1]);
      && before.Valid() && b.Valid() && b.tokens < 1.0 && r.delay == SleepFor(b)
      && b == Refill(before, h[r.at].now) && b.last == Max(before.last, h[r.at].now)
  {
    assert forall i | 0 <= i < r.at :: h[..r.at][..i] == h[..i];
    LawfulStaysValid(origin, h[..r.at]);
    assert h[..r.at + 1][..r.at] == h[..r.at];
    RefillFacts(Replay(origin, h[..r.at]), h[r.at].now);
  }

  /** Refused sections that follow one another directly: the second is left with under a nanosecond's worth. */
  lemma AtMostTwoRefusals(me: nat, origin: Bucket, h: History, h': History, o': seq<nat>, refusals: seq<Refusal>)
    requires origin.Full() && Greedy(origin, h') && h <= h'
    requires Refusals(me, |h|, origin, h', o', refusals) && |h'| == |h| + |refusals|
    requires Steady(origin.last, h, h', refusals)
    ensures |refusals| <= 2
    ensures refusals != [] ==>
      TotalDelay(refusals) as real <= AccrualTime(Replay(origin, h'[..|h| + 1])) + 1_000_000.0
  {
    hide Replay, Refill, AccrualTime, SleepFor, Greedy, RefusedAt;
    if refusals != [] {
      PositionsAreConsecutive(me, origin, h, h', o', refusals);
      var b0 := Replay(origin, h'[..|h| + 1]);
      RefusedState(origin, h', refusals[0]);
      SleepBound(b0);
      assert h'[..|h|] == h;
      ReplayFacts(origin, h);
      if |refusals| == 1 {
        assert refusals[..0] == [];
      } else {
        var b1 := Replay(origin, h'[..|h| + 2]);
        RefusedState(origin, h', refusals[1]);
        SleepNearlyCovers(b0, h'[|h| + 1].now);
        SleepBound(b1);
        if |refusals| > 2 {
          RefusedState(origin, h', refusals[2]);
          FallbackCovers(b1, h'[|h| + 2].now);
          assert false;
        }
        assert refusals[..1] == [refusals[0]];
        assert TotalDelay([refusals[0]]) == TotalDelay([refusals[0]][..0]) + refusals[0].delay;
        assert TotalDelay(refusals) == refusals[0].delay + refusals[1].delay;
      }
    }
  }

  lemma {:induction false} AloneIsMine(me: nat, h: History, o: seq<nat>, h': History, o': seq<nat>)
    requires Alone(me, h, o, h', o')
    ensures |MineIn(me, h', o')| == |MineIn(me, h, o)| + |h'| - |h|
    decreases |h'|
  {
    if |h| == |h'| {
      assert h == h' && o == o';
    } else {
      AloneIsMine(me, h, o, h'[..|h'| - 1], o'[..|h'| - 1]);
    }
  }

  lemma GreedyPrefix(b: Bucket, h: History, n: nat)
    requires Greedy(b, h) && n <= |h|
    ensures Greedy(b, h[..n])
  {
    assert forall i | 0 <= i < n :: h[..n][..i] == h[..i];
  }

  /**
    A Wait that has the limiter to itself is refused at most twice, and the sleep
    it asks for is at most the time its first deficit takes to accrue plus 1 ms.
   */
  lemma LoneWaitSleepsTwice(me: nat, origin: Bucket, h: History, o: seq<nat>, h': History, o': seq<nat>,
                            wakeups: nat, refusals: seq<Refusal>, result: WaitResult)
    requires origin.Full() && Greedy(origin, h')
    requires WaitDone(me, origin, h, o, h', o', wakeups, refusals, result)
    requires Alone(me, h, o, h', o') && Steady(origin.last, h, h', refusals)
    ensures |refusals| <= 2 && |h'| == |h| + |refusals| + (if result.Acquired? then 1 else 0)
    ensures refusals != [] ==>
      TotalDelay(refusals) as real <= AccrualTime(Replay(origin, h'[..|h| + 1])) + 1_000_000.0
  {
    hide Greedy, Replay, AccrualTime, Refusals, MineIn, TakenBy;
    var n := if result.Acquired? then |h'| - 1 else |h'|;
    var h1, o1 := h'[..n], o'[..n];
    if !result.Acquired? {
      assert h1 == h' && o1 == o';
    }
    AloneIsMine(me, h, o, h1, o1);
    GreedyPrefix(origin, h', n);
    AtMostTwoRefusals(me, origin, h, h1, o1, refusals);
    if refusals != [] {
      assert h1[..|h| + 1] == h'[..|h| + 1];
    }
  }

  /** A lone Wait that its context does not end, followed for three timer firings, has its token. */
  lemma LoneWaitAcquires(me: nat, origin: Bucket, h: History, o: seq<nat>, h': History, o': seq<nat>,
                         wakeups: nat, refusals: seq<Refusal>, result: WaitResult)
    requires origin.Full() && Greedy(origin, h') && |h| == |o|
    requires WaitDone(me, origin, h, o, h', o', wakeups, refusals, result)
    requires Alone(me, h, o, h', o') && Steady(origin.last, h, h', refusals)
    requires 3 <= wakeups && !result.Cancelled?
    ensures result == Acquired && TakenBy(me, h', o') == TakenBy(me, h, o) + 1
  {
    hide Greedy, Refusals, MineIn, TakenBy;
    LoneWaitSleepsTwice(me, origin, h, o, h', o', wakeups, refusals, result);
  }

  lemma PositionsAreConsecutive(me: nat, origin: Bucket, h: History, h': History, o': seq<nat>, refusals: seq<Refusal>)
    requires Refusals(me, |h|, origin, h', o', refusals) && |h'| == |h| + |refusals|
    ensures forall i | 0 <= i < |refusals| :: refusals[i].at == |h| + i && RefusedAt(origin, h', refusals[i])
  {
    forall i | 0 <= i < |refusals| ensures |h| + i <= refusals[i].at <= |h| + i {
      AtLeast(me, origin, h, h', o', refusals, i);
      AtMost(me, origin, h, h', o', refusals, i);
    }
    assert forall i | 0 <= i < |refusals| :: refusals[i] in refusals;
  }

  lemma {:induction false} AtLeast(me: nat, origin: Bucket, h: History, h': History, o': seq<nat>,
                                    refusals: seq<Refusal>, i: nat)
    requires Refusals(me, |h|, origin, h', o', refusals) && i < |refusals|
    ensures |h| + i <= refusals[i].at
  {
    if i == 0 {
      assert refusals[0] in refusals;
    } else {
      AtLeast(me, origin, h, h', o', refusals, i - 1);
    }
  }

  lemma {:induction false} AtMost(me: nat, origin: Bucket, h: History, h': History, o': seq<nat>,
                                   refusals: seq<Refusal>, i: nat)
    requires Refusals(me, |h|, origin, h', o', refusals) && |h'| == |h| + |refusals| && i < |refusals|
    ensures refusals[i].at <= |h| + i
    decreases |refusals| - i
  {
    if i == |refusals| - 1 {
      assert refusals[i] in refusals;
    } else {
      AtMost(me, origin, h, h', o', refusals, i + 1);
    }
  }
}
