/**
  The Limiter object of internal/ratelimit. Its two mutable fields are tied to
  the whole history of lock-held sections and of who ran each: whenever a
  goroutine waits for the lock, any number of others may run theirs.

  `me` is the ghost identity of one call; it lets the contracts say what that
  call took, whatever the other goroutines do meanwhile.
 */
module Limiters {
  import opened Wrappers
  import opened Provider
  import opened World
  import opened TokenBucket

  const MILLISECOND: int := 1_000_000

  datatype WaitResult = Acquired | Cancelled(error: Sentinel) | Waiting

  /** The sleep a refused Wait asks for: the time its deficit takes to accrue, in whole nanoseconds. */
  function SleepFor(b: Bucket): (d: int)
    requires 0.0 < b.rate && b.tokens < 1.0
    ensures 1 <= d
  {
    var wait := ((1.0 - b.tokens) / b.rate * 1000000000.0).Floor;
    if wait <= 0 then MILLISECOND else wait
  }

  lemma GreedyExtends(b: Bucket, h: History, s: Section)
    requires Greedy(b, h)
    requires s.granted <==> HasToken(Replay(b, h), s.now)
    ensures Greedy(b, h + [s]) && Replay(b, h + [s]) == After(Replay(b, h), s)
  {
    var g := h + [s];
    assert g[..|h|] == h;
    assert forall i | 0 <= i < |h| :: g[..i] == h[..i];
  }

  // ------------------------------------------------------ whose sections

  /** One caller's own sections, in order. */
  function MineIn(me: nat, h: History, owners: seq<nat>): History
    requires |h| == |owners|
  {
    if h == [] then []
    else
      var n := |h| - 1;
      MineIn(me, h[..n], owners[..n]) + (if owners[n] == me then [h[n]] else [])
  }

  /** Tokens taken by one caller. */
  function TakenBy(me: nat, h: History, owners: seq<nat>): nat
    requires |h| == |owners|
  {
    Grants(MineIn(me, h, owners))
  }

  /** The history and its owners after more sections. */
  ghost predicate Grows(h: History, o: seq<nat>, h': History, o': seq<nat>) {
    |h| == |o| && |h'| == |o'| && h <= h' && o <= o'
  }

  lemma MineSnoc(me: nat, h: History, o: seq<nat>, s: Section, who: nat)
    requires |h| == |o|
    ensures MineIn(me, h + [s], o + [who]) == MineIn(me, h, o) + (if who == me then [s] else [])
    ensures Grows(h, o, h + [s], o + [who])
  {
    assert (h + [s])[..|h|] == h && (o + [who])[..|o|] == o;
  }

  lemma OneMoreGrant(h: History, s: Section)
    ensures Grants(h + [s]) == Grants(h) + (if s.granted then 1 else 0)
  {
    assert (h + [s])[..|h|] == h;
  }

  /** What a call of Allow leaves: one section of its own, the newest, decided by the sliding-window rule. */
  ghost predicate AllowDone(me: nat, origin: Bucket, h: History, o: seq<nat>, h': History, o': seq<nat>,
                            now: int, ok: bool) {
    && Grows(h, o, h', o') && |h| < |h'|
    && var n := |h'| - 1;
       && h'[n] == Section(now, ok) && o'[n] == me
       && (ok <==> Admissible(origin, h'[..n], now))
       && MineIn(me, h', o') == MineIn(me, h, o) + [Section(now, ok)]
       && TakenBy(me, h', o') == TakenBy(me, h, o) + (if ok then 1 else 0)
  }

  /** A section that found no token, by its position in the history, and the sleep that followed. */
  datatype Refusal = Refusal(at: nat, delay: int)

  ghost predicate RefusedAt(origin: Bucket, h: History, r: Refusal) {
    && 0.0 < origin.rate && r.at < |h| && !h[r.at].granted
    && var b := Replay(origin, h[..r.at + 1]); b.tokens < 1.0 && r.delay == SleepFor(b)
  }

  /** Refused sections of one caller, in order, none older than `start`. */
  ghost predicate Refusals(me: nat, start: nat, origin: Bucket, h: History, o: seq<nat>, refusals: seq<Refusal>) {
    && |h| == |o|
    && (forall r | r in refusals :: start <= r.at && RefusedAt(origin, h, r) && o[r.at] == me)
    && (forall i, j | 0 <= i < j < |refusals| :: refusals[i].at < refusals[j].at)
  }

  /** So far every section of the caller was refused, and `refusals` are all of them. */
  ghost predicate OnlyRefused(me: nat, origin: Bucket, h: History, o: seq<nat>, h': History, o': seq<nat>,
                              refusals: seq<Refusal>) {
    && Grows(h, o, h', o') && Refusals(me, |h|, origin, h', o', refusals)
    && |MineIn(me, h', o')| == |MineIn(me, h, o)| + |refusals|
    && TakenBy(me, h', o') == TakenBy(me, h, o)
  }

  /**
    What a call of Wait leaves: its own sections are the refusals and, when it
    acquired, one last section, the newest of all; that one took the only token.
   */
  ghost predicate WaitDone(me: nat, origin: Bucket, h: History, o: seq<nat>, h': History, o': seq<nat>,
                           wakeups: nat, refusals: seq<Refusal>, result: WaitResult) {
    match result
    case Acquired =>
      && Grows(h, o, h', o') && |h| < |h'|
      && var n := |h'| - 1;
         && OnlyRefused(me, origin, h, o, h'[..n], o'[..n], refusals)
         && h'[n].granted && o'[n] == me
         && TakenBy(me, h', o') == TakenBy(me, h, o) + 1
    case Waiting => OnlyRefused(me, origin, h, o, h', o', refusals) && |refusals| == wakeups
    case Cancelled(_) => OnlyRefused(me, origin, h, o, h', o', refusals) && refusals != []
  }

  method ReadClock() returns (now: int)
  {
    now := *;
  }

  class Limiter {
    const rate: real
    const burst: real
    var tokens: real
    var last: int

    ghost const origin: Bucket      // the bucket as New made it
    ghost var history: History      // every lock-held section since
    ghost var owners: seq<nat>      // and the call that ran it

    ghost function State(): Bucket
      reads this
    {
      Bucket(rate, burst, tokens, last)
    }

    ghost predicate Valid()
      reads this
    {
      && origin.Full() && State() == Replay(origin, history) && Greedy(origin, history)
      && |owners| == |history|
    }

    ghost function Mine(me: nat): History
      requires |owners| == |history|
      reads this
    {
      MineIn(me, history, owners)
    }

    constructor (ratePerSecond: real, burst: int)
      ensures Valid() && history == []
      ensures State() == origin == NewBucket(ratePerSecond, burst, last)
      ensures (0.0 < ratePerSecond ==> rate == ratePerSecond) && (ratePerSecond <= 0.0 ==> rate == 1.0)
      ensures tokens == this.burst == Max(1, burst) as real
    {
      var now := ReadClock();
      var r := ratePerSecond;
      if r <= 0.0 {
        r := 1.0;
      }
      var size := burst;
      if size < 1 {
        size := 1;
      }
      this.rate, this.burst, this.tokens, this.last := r, size as real, size as real, now;
      origin, history, owners := NewBucket(ratePerSecond, burst, now), [], [];
    }

    method Refill() returns (ghost now: int)
      modifies this`tokens, this`last
      ensures State() == TokenBucket.Refill(old(State()), now)
      ensures 0.0 < rate && old(tokens) <= burst ==>
        && last == Max(old(last), now)
        && var topped := old(tokens) + Accrued(rate, old(last), last);
           tokens == if topped > burst then burst else topped
    {
      var t := ReadClock();
      now := t;
      if 0.0 < rate && tokens <= burst {
        RefillFacts(State(), t);
      }
      var elapsed := Seconds(t - last);
      if elapsed <= 0.0 {
        return;
      }
      last := t;
      tokens := tokens + elapsed * rate;
      if tokens > burst {
        tokens := burst;
      }
    }

    /** A section under the lock: refill, then take a token if there is one. */
    method Section(ghost who: nat) returns (ok: bool, ghost now: int)
      requires Valid()
      modifies this
      ensures Valid()
      ensures history == old(history) + [TokenBucket.Section(now, ok)] && owners == old(owners) + [who]
      ensures ok <==> Admissible(origin, old(history), now)
      ensures !ok ==> State().tokens < 1.0
    {
      hide Accrued, Seconds, Admissible, Greedy, Replay;
      now := Refill();
      ok := tokens >= 1.0;
      if ok {
        tokens := tokens - 1.0;
      }
      AllowIsSlidingWindow(origin, history, now);
      GreedyExtends(origin, history, TokenBucket.Section(now, ok));
      history := history + [TokenBucket.Section(now, ok)];
      owners := owners + [who];
    }

    /** Acquiring the lock: before it is ours, other goroutines run any number of sections. */
    method Lock(ghost me: nat)
      requires Valid()
      modifies this
      ensures Valid() && Grows(old(history), old(owners), history, owners)
      ensures Mine(me) == old(Mine(me))
    {
      hide Greedy, Replay, Admissible, MineIn;
      var others: nat :| true;
      for i := 0 to others
        invariant Valid() && Grows(old(history), old(owners), history, owners)
        invariant Mine(me) == old(Mine(me))
      {
        ghost var who: nat :| true;
        who := if who < me then who else who + 1;
        ghost var h, o := history, owners;
        var ok;
        ghost var now;
        ok, now := Section(who);
        MineSnoc(me, h, o, TokenBucket.Section(now, ok), who);
      }
    }

    /** Runs one section of its own, which takes one token exactly when the sliding-window rule admits it. */
    method Allow(ghost me: nat) returns (ok: bool, ghost now: int)
      requires Valid()
      modifies this
      ensures Valid()
      ensures AllowDone(me, origin, old(history), old(owners), history, owners, now, ok)
    {
      hide Greedy, Replay, Admissible, MineIn, Grants;
      Lock(me);
      ghost var h, o := history, owners;
      ok, now := Section(me);
      MineSnoc(me, h, o, TokenBucket.Section(now, ok), me);
      OneMoreGrant(old(Mine(me)), TokenBucket.Section(now, ok));
      assert history[..|history| - 1] == h;
    }

    /** The locked part of one turn of Wait's loop, with the sleep it asks for when refused. */
    method Check(ghost me: nat) returns (ok: bool, wait: int, ghost now: int)
      requires Valid()
      modifies this
      ensures Valid()
      ensures AllowDone(me, origin, old(history), old(owners), history, owners, now, ok)
      ensures 0 < |history|
      ensures !ok ==> 1 <= wait && RefusedAt(origin, history, Refusal(|history| - 1, wait))
    {
      hide Greedy, HasToken, Admissible, MineIn, Grants;
      Lock(me);
      ghost var h, o := history, owners;
      ok, now := Section(me);
      MineSnoc(me, h, o, TokenBucket.Section(now, ok), me);
      OneMoreGrant(old(Mine(me)), TokenBucket.Section(now, ok));
      assert history[..|history| - 1] == h;
      wait := 0;
      if ok {
        return;
      }
      var deficit := 1.0 - tokens;
      wait := (deficit / rate * 1000000000.0).Floor;
      if wait <= 0 {
        wait := MILLISECOND;
      }
      RefusedNow(origin, h, TokenBucket.Section(now, false));
    }

    /**
      Wait, followed for at most `wakeups` timer firings: nothing bounds how
      often other callers take the token first.
     */
    method Wait(w: Environment, wakeups: nat, ghost me: nat) returns (result: WaitResult, ghost refusals: seq<Refusal>)
      requires Valid()
      modifies this, w
      ensures Valid()
      ensures WaitDone(me, origin, old(history), old(owners), history, owners, wakeups, refusals, result)
      ensures w.log == old(w.log) + Sleeps(refusals, if result.Cancelled? then Some(result.error) else None)
      ensures result.Cancelled? ==> w.done == Some(result.error)
    {
      hide Greedy, Refusals, RefusedAt, SleepFor, Replay, Sleeps, MineIn, Grants, Admissible, OnlyRefused, AllowDone;
      var fired := 0;
      refusals := [];
      NoneYet(me, origin, history, owners);
      while fired < wakeups
        invariant fired <= wakeups && |refusals| == fired
        invariant Valid()
        invariant OnlyRefused(me, origin, old(history), old(owners), history, owners, refusals)
        invariant w.log == old(w.log) + Sleeps(refusals, None)
      {
        ghost var h, o := history, owners;
        var ok, wait;
        ghost var now;
        ok, wait, now := Check(me);
        if ok {
          AcquiredAtLast(me, origin, old(history), old(owners), h, o, history, owners, refusals, now, wakeups);
          return Acquired, refusals;
        }
        ghost var refusal := Refusal(|history| - 1, wait);
        RefusedOnceMore(me, origin, old(history), old(owners), h, o, history, owners, refusals, now, refusal);
        var woken := w.Sleep(wait);
        SleepAdded(refusals, refusal, woken);
        refusals := refusals + [refusal];
        if woken.Some? {
          return Cancelled(woken.value), refusals;
        }
        fired := fired + 1;
      }
      return Waiting, refusals;
    }
  }

  lemma RefusedNow(origin: Bucket, h: History, s: Section)
    requires origin.Full() && Greedy(origin, h + [s]) && !s.granted
    ensures var b := Replay(origin, h + [s]);
      && b.tokens < 1.0 && b.rate == origin.rate
      && RefusedAt(origin, h + [s], Refusal(|h|, SleepFor(b)))
  {
    var g := h + [s];
    assert g[..|h|] == h && g[..|h| + 1] == g && g[|h|] == s;
    assert !HasToken(Replay(origin, h), s.now);
  }

  lemma NoneYet(me: nat, origin: Bucket, h: History, o: seq<nat>)
    requires |h| == |o|
    ensures OnlyRefused(me, origin, h, o, h, o, []) && Sleeps([], None) == []
  {}

  lemma RefusedStays(origin: Bucket, h: History, h': History, r: Refusal)
    requires RefusedAt(origin, h, r) && h <= h'
    ensures RefusedAt(origin, h', r) && r.at < |h|
  {
    assert h[..r.at + 1] == h'[..r.at + 1];
  }

  /** Other sections, all of them not ours, then do not disturb the refusals. */
  lemma RefusalsKept(me: nat, start: nat, origin: Bucket, h: History, o: seq<nat>, h': History, o': seq<nat>,
                     refusals: seq<Refusal>)
    requires Refusals(me, start, origin, h, o, refusals) && Grows(h, o, h', o')
    ensures Refusals(me, start, origin, h', o', refusals)
    ensures forall r | r in refusals :: r.at < |h|
  {
    hide RefusedAt;
    forall r | r in refusals ensures RefusedAt(origin, h', r) && r.at < |h| {
      RefusedStays(origin, h, h', r);
    }
  }

  lemma RefusedOnceMore(me: nat, origin: Bucket, h0: History, o0: seq<nat>, h: History, o: seq<nat>,
                        h': History, o': seq<nat>, refusals: seq<Refusal>, now: int, r: Refusal)
    requires OnlyRefused(me, origin, h0, o0, h, o, refusals)
    requires AllowDone(me, origin, h, o, h', o', now, false)
    requires r.at == |h'| - 1 && RefusedAt(origin, h', r)
    ensures OnlyRefused(me, origin, h0, o0, h', o', refusals + [r])
  {
    hide RefusedAt, Admissible, MineIn, TakenBy;
    RefusalsKept(me, |h0|, origin, h, o, h', o', refusals);
    assert forall i | 0 <= i < |refusals| :: refusals[i] in refusals;
  }

  lemma AcquiredAtLast(me: nat, origin: Bucket, h0: History, o0: seq<nat>, h: History, o: seq<nat>,
                       h': History, o': seq<nat>, refusals: seq<Refusal>, now: int, wakeups: nat)
    requires OnlyRefused(me, origin, h0, o0, h, o, refusals)
    requires AllowDone(me, origin, h, o, h', o', now, true)
    ensures WaitDone(me, origin, h0, o0, h', o', wakeups, refusals, Acquired)
  {
    hide RefusedAt, Admissible, MineIn, Grants;
    var n := |h'| - 1;
    assert h <= h'[..n] && o <= o'[..n];
    RefusalsKept(me, |h0|, origin, h, o, h'[..n], o'[..n], refusals);
    assert h' == h'[..n] + [h'[n]] && o' == o'[..n] + [me];
    MineSnoc(me, h'[..n], o'[..n], h'[n], me);
    var s, mine, mine' := h'[n], MineIn(me, h, o), MineIn(me, h'[..n], o'[..n]);
    assert (mine + [s])[..|mine|] == mine && (mine' + [s])[..|mine'|] == mine';
    assert mine + [s] == mine' + [s];
  }

  /** The sleeps of one Wait: the last one may have been cut short by the context. */
  ghost function Sleeps(refusals: seq<Refusal>, cut: Option<Sentinel>): Log {
    if refusals == [] then []
    else Sleeps(refusals[..|refusals| - 1], None) + [Slept(refusals[|refusals| - 1].delay, cut)]
  }

  lemma SleepAdded(refusals: seq<Refusal>, r: Refusal, cut: Option<Sentinel>)
    ensures Sleeps(refusals + [r], cut) == Sleeps(refusals, None) + [Slept(r.delay, cut)]
  {
    assert (refusals + [r])[..|refusals|] == refusals;
  }

  /** The log of a Wait: one timer for each refusal, each for that refusal's delay, none but the last cut short. */
  lemma {:induction false} SleepsAreTheDelays(refusals: seq<Refusal>, cut: Option<Sentinel>)
    ensures |Sleeps(refusals, cut)| == |refusals|
    ensures forall i | 0 <= i < |refusals| ::
      Sleeps(refusals, cut)[i] == Slept(refusals[i].delay, if i == |refusals| - 1 then cut else None)
  {
    if refusals != [] {
      SleepsAreTheDelays(refusals[..|refusals| - 1], None);
    }
  }
}
