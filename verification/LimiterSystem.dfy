/**
  Any number of goroutines sharing one limiter, each calling Allow and Wait as
  often as it likes. A run is any sequence of moves: a goroutine starting, a call
  starting, a lock-held section with some clock reading, a timer firing, or a
  context ending a sleep. The calls of the Limiter object are such moves.
 */
module LimiterSystem {
  import opened Wrappers
  import opened World
  import opened TokenBucket
  import opened Limiters

  datatype Caller =
    | Idle                       // between calls
    | Requesting                 // in Allow, before its section
    | Allowed(ok: bool)          // back from Allow
    | Checking                   // in Wait, before a section
    | Sleeping(delay: int)       // in Wait, on its timer
    | Holding                    // back from Wait with a token
    | GaveUp                     // back from Wait with the context's error

  datatype Move =
    | Join
    | CallAllow(who: nat)
    | CallWait(who: nat)
    | Lock(who: nat, now: int)
    | Fire(who: nat)
    | Cancel(who: nat)

  /** `successes[i]` counts the calls of goroutine i that succeeded; `owners[i]` ran section `history[i]`. */
  datatype System = System(
    bucket: Bucket, callers: seq<Caller>, successes: seq<nat>, history: History, owners: seq<nat>)

  predicate AtRest(c: Caller) {
    c.Idle? || c.Allowed? || c.Holding? || c.GaveUp?
  }

  predicate CanLock(c: Caller) {
    c.Requesting? || c.Checking?
  }

  function AfterSection(c: Caller, ok: bool, b: Bucket): Caller
    requires CanLock(c) && (!ok ==> 0.0 < b.rate && b.tokens < 1.0)
  {
    if c.Requesting? then Allowed(ok) else if ok then Holding else Sleeping(SleepFor(b))
  }

  ghost predicate Shaped(s: System) {
    0.0 < s.bucket.rate && |s.callers| == |s.successes|
  }

  function Step(s: System, m: Move): (t: System)
    requires Shaped(s)
    ensures Shaped(t)
  {
    match m
    case Join => s.(callers := s.callers + [Idle], successes := s.successes + [0])
    case CallAllow(who) => if Is(s, who, AtRest) then s.(callers := s.callers[who := Requesting]) else s
    case CallWait(who) => if Is(s, who, AtRest) then s.(callers := s.callers[who := Checking]) else s
    case Fire(who) =>
      if Is(s, who, (c: Caller) => c.Sleeping?) then s.(callers := s.callers[who := Checking]) else s
    case Cancel(who) =>
      if Is(s, who, (c: Caller) => c.Sleeping?) then s.(callers := s.callers[who := GaveUp]) else s
    case Lock(who, now) =>
      if !Is(s, who, CanLock) then s
      else
        var section := Section(now, HasToken(s.bucket, now));
        var b := After(s.bucket, section);
        System(b, s.callers[who := AfterSection(s.callers[who], section.granted, b)],
               s.successes[who := s.successes[who] + (if section.granted then 1 else 0)],
               s.history + [section], s.owners + [who])
  }

  predicate Is(s: System, who: nat, p: Caller -> bool) {
    who < |s.callers| && p(s.callers[who])
  }

  function Run(s: System, moves: seq<Move>): (end: System)
    requires Shaped(s)
    ensures Shaped(end)
  {
    if moves == [] then s else Step(Run(s, moves[..|moves| - 1]), moves[|moves| - 1])
  }

  ghost predicate Start(s: System) {
    s.bucket.Full() && s.callers == [] && s.successes == [] && s.history == [] && s.owners == []
  }

  function Sum(ns: seq<nat>): nat {
    if ns == [] then 0 else Sum(ns[..|ns| - 1]) + ns[|ns| - 1]
  }

  ghost predicate Inv(origin: Bucket, s: System) {
    && Shaped(s) && origin.Full()
    && s.bucket == Replay(origin, s.history) && Greedy(origin, s.history)
    && |s.owners| == |s.history| && (forall i | 0 <= i < |s.owners| :: s.owners[i] < |s.callers|)
    && Sum(s.successes) == Grants(s.history)
    && forall who: nat | who < |s.callers| :: TakenBy(who, s.history, s.owners) == s.successes[who]
  }

  lemma InvIsShaped(origin: Bucket, s: System)
    requires Inv(origin, s)
    ensures Shaped(s) && origin.Full() && |s.owners| == |s.history| && s.bucket == Replay(origin, s.history)
  {
    hide Replay, Greedy, TakenBy;
  }

  // ------------------------------------------------------------ every run

  lemma {:induction false} SumUpdate(ns: seq<nat>, i: nat, n: nat)
    requires i < |ns|
    ensures Sum(ns[i := n]) == Sum(ns) - ns[i] + n
  {
    var last := |ns| - 1;
    if i == last {
      assert ns[i := n][..last] == ns[..last];
    } else {
      assert ns[i := n][..last] == ns[..last][i := n];
      SumUpdate(ns[..last], i, n);
    }
  }

  lemma SumSnoc(ns: seq<nat>, n: nat)
    ensures Sum(ns + [n]) == Sum(ns) + n
  {
    assert (ns + [n])[..|ns|] == ns;
  }

  lemma TakenByOneMore(who: nat, h: History, owners: seq<nat>, s: Section, owner: nat)
    requires |h| == |owners|
    ensures TakenBy(who, h + [s], owners + [owner])
      == TakenBy(who, h, owners) + (if s.granted && owner == who then 1 else 0)
  {
    hide MineIn, Grants;
    MineSnoc(who, h, owners, s, owner);
    OneMoreGrant(MineIn(who, h, owners), s);
    assert MineIn(who, h, owners) + [] == MineIn(who, h, owners);
  }

  lemma {:induction false} StrangersTakeNone(who: nat, h: History, owners: seq<nat>)
    requires |h| == |owners| && forall i | 0 <= i < |owners| :: owners[i] != who
    ensures MineIn(who, h, owners) == [] && TakenBy(who, h, owners) == 0
  {
    if h != [] {
      StrangersTakeNone(who, h[..|h| - 1], owners[..|h| - 1]);
    }
  }

  lemma LockKeepsInv(origin: Bucket, s: System, who: nat, now: int)
    requires Inv(origin, s) && Is(s, who, CanLock)
    ensures Inv(origin, Step(s, Lock(who, now)))
  {
    hide Greedy, Replay, HasToken, After, AfterSection, TakenBy, Sum, Grants;
    var t, section := Step(s, Lock(who, now)), Section(now, HasToken(s.bucket, now));
    GreedyExtends(origin, s.history, section);
    SumUpdate(s.successes, who, t.successes[who]);
    OneMoreGrant(s.history, section);
    forall i: nat | i < |t.callers| ensures TakenBy(i, t.history, t.owners) == t.successes[i] {
      TakenByOneMore(i, s.history, s.owners, section, who);
    }
  }

  lemma StepKeepsInv(origin: Bucket, s: System, m: Move)
    requires Inv(origin, s)
    ensures Inv(origin, Step(s, m))
  {
    hide Greedy, Replay, HasToken, After, AfterSection, TakenBy, Sum, Grants;
    if m.Lock? {
      if Is(s, m.who, CanLock) {
        LockKeepsInv(origin, s, m.who, m.now);
      }
    } else if m.Join? {
      SumSnoc(s.successes, 0);
      StrangersTakeNone(|s.callers|, s.history, s.owners);
    }
  }

  lemma {:induction false} RunKeepsInv(origin: Bucket, s: System, moves: seq<Move>)
    requires Inv(origin, s)
    ensures Inv(origin, Run(s, moves))
  {
    hide Inv;
    InvIsShaped(origin, s);
    if moves != [] {
      RunKeepsInv(origin, s, moves[..|moves| - 1]);
      StepKeepsInv(origin, Run(s, moves[..|moves| - 1]), moves[|moves| - 1]);
    }
  }

  lemma StartHasInv(s: System)
    requires Start(s)
    ensures Inv(s.bucket, s)
  {}

  /**
    In every interleaving: the tokens stay within the bucket; each successful
    call took exactly one token and every other call none; and no window of the
    run gives out more than the burst plus what accrued in it.
   */
  lemma EveryInterleaving(s: System, moves: seq<Move>)
    requires Start(s)
    ensures var end := Run(s, moves);
      && 0.0 <= end.bucket.tokens <= end.bucket.burst
      && Sum(end.successes) == Grants(end.history)
      && |end.owners| == |end.history|
      && (forall who: nat | who < |end.callers| :: TakenBy(who, end.history, end.owners) == end.successes[who])
      && AllWindowsHold(s.bucket, end.history)
  {
    hide TakenBy, Sum, Grants;
    StartHasInv(s);
    RunKeepsInv(s.bucket, s, moves);
    var end := Run(s, moves);
    LawfulStaysValid(s.bucket, end.history);
    LawfulIsAllWindows(s.bucket, end.history);
  }

  // --------------------------------------------- histories are runs

  lemma {:induction false} RunConcat(s: System, a: seq<Move>, b: seq<Move>)
    requires Shaped(s)
    ensures Run(s, a + b) == Run(Run(s, a), b)
  {
    if b == [] {
      assert a + b == a;
    } else {
      assert (a + b)[..|a + b| - 1] == a + b[..|b| - 1];
      RunConcat(s, a, b[..|b| - 1]);
    }
  }

  lemma RunOne(s: System, m: Move)
    requires Shaped(s)
    ensures Run(s, [m]) == Step(s, m)
  {
    assert [m][..0] == [];
  }

  /** Everything but the callers is as before, and so are the callers that were there, except `who`. */
  ghost predicate OnlyMoved(s: System, t: System, who: nat) {
    && t.bucket == s.bucket && t.history == s.history && t.owners == s.owners && |s.callers| <= |t.callers|
    && forall i: nat | i < |s.callers| && i != who :: t.callers[i] == s.callers[i]
  }

  lemma {:induction false} Joins(s: System, who: nat) returns (moves: seq<Move>)
    requires Shaped(s)
    ensures var t := Run(s, moves);
      && OnlyMoved(s, t, who) && |t.callers| == Max(|s.callers|, who + 1)
      && t.callers[who] == if who < |s.callers| then s.callers[who] else Idle
    decreases who
  {
    moves := [];
    if |s.callers| <= who {
      if |s.callers| < who {
        moves := Joins(s, who - 1);
      }
      var before := Run(s, moves);
      RunConcat(s, moves, [Join]);
      RunOne(before, Join);
      moves := moves + [Join];
    }
  }

  /** The call a section belongs to, when the caller is not already in one: an Allow. */
  function InCall(c: Caller): (d: Caller)
    ensures CanLock(d)
  {
    if c.Checking? || c.Sleeping? then Checking else Requesting
  }

  /** Whatever a goroutine is at, moves lead it to the lock. */
  lemma Approach(s: System, who: nat) returns (moves: seq<Move>)
    requires Shaped(s)
    ensures var t := Run(s, moves);
      && OnlyMoved(s, t, who) && who < |t.callers|
      && t.callers[who] == InCall(if who < |s.callers| then s.callers[who] else Idle)
  {
    moves := Joins(s, who);
    var t := Run(s, moves);
    if !CanLock(t.callers[who]) {
      var m := if t.callers[who].Sleeping? then Fire(who) else CallAllow(who);
      RunConcat(s, moves, [m]);
      RunOne(t, m);
      moves := moves + [m];
    }
  }

  /** Where its sections of the new part of a history leave a goroutine. */
  ghost function Tracked(origin: Bucket, me: nat, start: nat, c: Caller, h: History, o: seq<nat>): Caller
    requires origin.Full() && Greedy(origin, h) && |h| == |o|
    decreases |h|
  {
    hide Greedy, Replay, SleepFor;
    if |h| <= start then c
    else
      var n := |h| - 1;
      GreedyPrefixOf(origin, h);
      var before := Tracked(origin, me, start, c, h[..n], o[..n]);
      if o[n] == me then AfterSection(InCall(before), h[n].granted, Replay(origin, h)) else before
  }

  lemma GreedyPrefixOf(b: Bucket, h: History)
    requires b.Full() && Greedy(b, h) && h != []
    ensures var n := |h| - 1;
      && Greedy(b, h[..n]) && (h[n].granted <==> HasToken(Replay(b, h[..n]), h[n].now))
      && Replay(b, h) == After(Replay(b, h[..n]), h[n])
      && Replay(b, h).rate == b.rate && (!h[n].granted ==> Replay(b, h).tokens < 1.0)
  {
    assert forall i | 0 <= i < |h| - 1 :: h[..|h| - 1][..i] == h[..i];
  }

  lemma TrackedStep(origin: Bucket, me: nat, start: nat, c: Caller, h: History, o: seq<nat>)
    requires origin.Full() && Greedy(origin, h) && |h| == |o|
    ensures |h| <= start ==> Tracked(origin, me, start, c, h, o) == c
    ensures start < |h| ==>
      var n := |h| - 1;
      && Greedy(origin, h[..n]) && Replay(origin, h).rate == origin.rate
      && (!h[n].granted ==> Replay(origin, h).tokens < 1.0)
      && var before := Tracked(origin, me, start, c, h[..n], o[..n]);
         Tracked(origin, me, start, c, h, o)
           == if o[n] == me then AfterSection(InCall(before), h[n].granted, Replay(origin, h)) else before
  {
    hide Greedy, Replay, AfterSection;
    if start < |h| {
      GreedyPrefixOf(origin, h);
    }
  }

  lemma SectionIsMoves(origin: Bucket, s: System, who: nat, now: int) returns (moves: seq<Move>)
    requires Inv(origin, s)
    ensures var t := Run(s, moves);
      var section := Section(now, HasToken(s.bucket, now));
      && t.history == s.history + [section] && t.owners == s.owners + [who]
      && t.bucket == After(s.bucket, section) && |s.callers| <= |t.callers|
      && who < |t.callers| && (!section.granted ==> t.bucket.tokens < 1.0)
      && t.callers[who]
         == AfterSection(InCall(if who < |s.callers| then s.callers[who] else Idle), section.granted, t.bucket)
      && forall i: nat | i < |s.callers| && i != who :: t.callers[i] == s.callers[i]
  {
    hide Inv, SleepFor, Refill;
    InvIsShaped(origin, s);
    var approach := Approach(s, who);
    var t := Run(s, approach);
    RunConcat(s, approach, [Lock(who, now)]);
    RunOne(t, Lock(who, now));
    moves := approach + [Lock(who, now)];
  }

  /** Any further history of the limiter is reached by moves, and each goroutine ends where its sections leave it. */
  lemma {:induction false} HistoryIsMoves(origin: Bucket, s: System, me: nat, h: History, o: seq<nat>)
      returns (moves: seq<Move>)
    requires Inv(origin, s) && me < |s.callers|
    requires Grows(s.history, s.owners, h, o) && Greedy(origin, h)
    ensures var t := Run(s, moves);
      && t.history == h && t.owners == o && t.bucket == Replay(origin, h) && me < |t.callers|
      && t.callers[me] == Tracked(origin, me, |s.history|, s.callers[me], h, o)
    decreases |h|
  {
    hide Greedy, Replay, HasToken, After, AfterSection, Inv, Step, InCall, Tracked;
    InvIsShaped(origin, s);
    TrackedStep(origin, me, |s.history|, s.callers[me], h, o);
    if |h| == |s.history| {
      moves := [];
      assert h == s.history && o == s.owners;
    } else {
      var n := |h| - 1;
      GreedyPrefixOf(origin, h);
      moves := HistoryIsMoves(origin, s, me, h[..n], o[..n]);
      var before := Run(s, moves);
      RunKeepsInv(origin, s, moves);
      var more := SectionIsMoves(origin, before, o[n], h[n].now);
      RunConcat(s, moves, more);
      moves := moves + more;
      assert h == h[..n] + [h[n]] && o == o[..n] + [o[n]];
    }
  }

  // ------------------------------------- the object's calls are moves

  /** The limiter object is in the system's state. */
  ghost predicate Reflects(l: Limiter, s: System)
    reads l
  {
    s.bucket == l.State() && s.history == l.history && s.owners == l.owners
  }

  lemma {:induction false} UntouchedWithoutSections(origin: Bucket, me: nat, c: Caller,
                                                    h: History, o: seq<nat>, h': History, o': seq<nat>)
    requires origin.Full() && Greedy(origin, h') && Grows(h, o, h', o')
    ensures |MineIn(me, h, o)| <= |MineIn(me, h', o')| && TakenBy(me, h, o) <= TakenBy(me, h', o')
    ensures |MineIn(me, h', o')| == |MineIn(me, h, o)| ==> Tracked(origin, me, |h|, c, h', o') == c
    decreases |h'|
  {
    hide Greedy, Replay, AfterSection, MineIn, TakenBy;
    if |h'| == |h| {
      assert h == h' && o == o';
    } else {
      var n := |h'| - 1;
      GreedyPrefixOf(origin, h');
      UntouchedWithoutSections(origin, me, c, h, o, h'[..n], o'[..n]);
      assert h' == h'[..n] + [h'[n]] && o' == o'[..n] + [o'[n]];
      MineSnoc(me, h'[..n], o'[..n], h'[n], o'[n]);
      TakenByOneMore(me, h'[..n], o'[..n], h'[n], o'[n]);
    }
  }

  /** Refused sections of a Wait leave the caller on its timer. */
  lemma {:induction false} RefusedIsSleeping(origin: Bucket, me: nat, h: History, o: seq<nat>,
                                              h': History, o': seq<nat>)
    requires origin.Full() && Greedy(origin, h') && Grows(h, o, h', o')
    requires TakenBy(me, h', o') == TakenBy(me, h, o)
    ensures var c := Tracked(origin, me, |h|, Checking, h', o');
      if |MineIn(me, h', o')| == |MineIn(me, h, o)| then c == Checking else c.Sleeping?
    decreases |h'|
  {
    hide Greedy, Replay, SleepFor, MineIn, TakenBy;
    if |h'| == |h| {
      assert h == h' && o == o';
    } else {
      var n := |h'| - 1;
      GreedyPrefixOf(origin, h');
      assert h' == h'[..n] + [h'[n]] && o' == o'[..n] + [o'[n]];
      MineSnoc(me, h'[..n], o'[..n], h'[n], o'[n]);
      TakenByOneMore(me, h'[..n], o'[..n], h'[n], o'[n]);
      UntouchedWithoutSections(origin, me, Checking, h, o, h'[..n], o'[..n]);
      RefusedIsSleeping(origin, me, h, o, h'[..n], o'[..n]);
    }
  }

  lemma AllowTracks(me: nat, origin: Bucket, h: History, o: seq<nat>, h': History, o': seq<nat>, now: int, ok: bool)
    requires origin.Full() && Greedy(origin, h') && AllowDone(me, origin, h, o, h', o', now, ok)
    ensures Tracked(origin, me, |h|, Requesting, h', o') == Allowed(ok)
  {
    hide Greedy, Replay, MineIn, TakenBy, Admissible;
    var n := |h'| - 1;
    GreedyPrefixOf(origin, h');
    assert h' == h'[..n] + [h'[n]] && o' == o'[..n] + [o'[n]];
    MineSnoc(me, h'[..n], o'[..n], h'[n], me);
    UntouchedWithoutSections(origin, me, Requesting, h, o, h'[..n], o'[..n]);
  }

  lemma WaitTracks(me: nat, origin: Bucket, h: History, o: seq<nat>, h': History, o': seq<nat>,
                   wakeups: nat, refusals: seq<Refusal>, result: WaitResult)
    requires origin.Full() && Greedy(origin, h')
    requires |h| == |o| && WaitDone(me, origin, h, o, h', o', wakeups, refusals, result)
    ensures |h'| == |o'|
    ensures var c := Tracked(origin, me, |h|, Checking, h', o');
      match result
      case Acquired => c == Holding
      case Cancelled(_) => c.Sleeping?
      case Waiting => if wakeups == 0 then c == Checking else c.Sleeping?
  {
    hide Greedy, Replay, MineIn, TakenBy, Refusals;
    if result.Acquired? {
      GreedyPrefixOf(origin, h');
      RefusedIsSleeping(origin, me, h, o, h'[..|h'| - 1], o'[..|h'| - 1]);
    } else {
      RefusedIsSleeping(origin, me, h, o, h', o');
    }
  }

  /** A call of Allow, and whatever others did before its section, is a run of moves. */
  method AllowAsMoves(l: Limiter, ghost me: nat, ghost s: System) returns (ok: bool, ghost moves: seq<Move>)
    requires l.Valid() && Reflects(l, s) && Inv(l.origin, s) && Is(s, me, (c: Caller) => c.Requesting?)
    modifies l
    ensures l.Valid() && Reflects(l, Run(s, moves))
    ensures Is(Run(s, moves), me, (c: Caller) => c == Allowed(ok))
  {
    hide Greedy, Replay, Inv, AllowDone, Run, Tracked;
    InvIsShaped(l.origin, s);
    ghost var now;
    ok, now := l.Allow(me);
    AllowGrows(me, l.origin, s.history, s.owners, l.history, l.owners, now, ok);
    moves := HistoryIsMoves(l.origin, s, me, l.history, l.owners);
    AllowTracks(me, l.origin, s.history, s.owners, l.history, l.owners, now, ok);
  }

  lemma AllowGrows(me: nat, origin: Bucket, h: History, o: seq<nat>, h': History, o': seq<nat>, now: int, ok: bool)
    requires AllowDone(me, origin, h, o, h', o', now, ok)
    ensures Grows(h, o, h', o')
  {}

  /** So is a call of Wait: it ends holding a token, giving up, or about to check again. */
  method WaitAsMoves(l: Limiter, w: Environment, wakeups: nat, ghost me: nat, ghost s: System)
    returns (result: WaitResult, ghost moves: seq<Move>)
    requires l.Valid() && Reflects(l, s) && Inv(l.origin, s) && Is(s, me, (c: Caller) => c.Checking?)
    modifies l, w
    ensures l.Valid() && Reflects(l, Run(s, moves))
    ensures Is(Run(s, moves), me, (c: Caller) =>
      match result
      case Acquired => c == Holding
      case Cancelled(_) => c == GaveUp
      case Waiting => c == Checking)
  {
    hide Greedy, Replay, Inv, WaitDone, Run, Tracked;
    InvIsShaped(l.origin, s);
    ghost var refusals;
    result, refusals := l.Wait(w, wakeups, me);
    WaitGrows(me, l.origin, s.history, s.owners, l.history, l.owners, wakeups, refusals, result);
    moves := HistoryIsMoves(l.origin, s, me, l.history, l.owners);
    WaitTracks(me, l.origin, s.history, s.owners, l.history, l.owners, wakeups, refusals, result);
    ghost var before := Run(s, moves);
    if !result.Acquired? && before.callers[me].Sleeping? {
      ghost var m := if result.Cancelled? then Cancel(me) else Fire(me);
      RunConcat(s, moves, [m]);
      RunOne(before, m);
      moves := moves + [m];
    }
  }

  lemma WaitGrows(me: nat, origin: Bucket, h: History, o: seq<nat>, h': History, o': seq<nat>,
                  wakeups: nat, refusals: seq<Refusal>, result: WaitResult)
    requires |h'| == |o'| && WaitDone(me, origin, h, o, h', o', wakeups, refusals, result)
    ensures Grows(h, o, h', o')
  {}
}
