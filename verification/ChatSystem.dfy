/**
  Concurrent Chat calls and one limiter as a transition system: noting an
  admission and running its section are one step. The load bound then holds at
  every reachable state and over every window between two of them, Chats under
  way included.
 */
module ChatSystem {
  import opened Wrappers
  import opened Provider
  import opened World
  import opened Backoff
  import opened TokenBucket
  import opened Limiters
  import opened Routing
  import opened RoutingTheorems
  import opened Interleaving

  /** The Chats, each with the run it is on, and a limiter attached under some names. */
  datatype Setup = Setup(cfg: Config, chats: seq<Goroutine>, names: set<Name>, origin: Bucket)

  datatype State = State(g: GlobalLog, h: History, o: seq<nat>)

  datatype Move =
    | Act(who: nat, event: Event)   // the next event of a Chat
    | Other(who: nat, now: int)     // a section of any other user of the limiter

  const START := State([], [], [])

  ghost predicate Sound(u: Setup) {
    && u.names <= u.cfg.limited && u.origin.Full()
    && (forall n | n in u.cfg.providers :: u.cfg.providers[n].name == n)
    && forall c | c in u.chats :: ValidChat(u.cfg, c.targets, c.run) && AllValid(u.cfg, c.run.visits)
  }

  /** Everything the Chat does before it returns. */
  ghost function Plan(u: Setup, who: nat): Log
    requires Sound(u) && who < |u.chats|
  {
    ChatLog(u.cfg, u.chats[who].request, u.chats[who].run)
  }

  predicate OnLimiter(u: Setup, e: Event) {
    e.Admitted? && e.limited in u.names
  }

  /** An admission is granted exactly when the bucket has a token at that moment. */
  ghost predicate Enabled(u: Setup, s: State, m: Move)
    requires Sound(u)
  {
    match m
    case Act(who, e) =>
      && who < |u.chats| && Project(s.g, who) + [e] <= Plan(u, who)
      && (OnLimiter(u, e) ==> (e.granted <==> HasToken(Replay(u.origin, s.h), e.now)))
    case Other(who, _) => |u.chats| <= who
  }

  function Next(u: Setup, s: State, m: Move): State {
    match m
    case Act(who, e) =>
      var g := s.g + [Entry(who, e)];
      if OnLimiter(u, e) then State(g, s.h + [Section(e.now, e.granted)], s.o + [who]) else s.(g := g)
    case Other(who, now) =>
      State(s.g, s.h + [Section(now, HasToken(Replay(u.origin, s.h), now))], s.o + [who])
  }

  function Run(u: Setup, s: State, moves: seq<Move>): State {
    if moves == [] then s else Next(u, Run(u, s, moves[..|moves| - 1]), moves[|moves| - 1])
  }

  ghost predicate Possible(u: Setup, s: State, moves: seq<Move>)
    requires Sound(u)
  {
    moves == []
    || (Possible(u, s, moves[..|moves| - 1])
        && Enabled(u, Run(u, s, moves[..|moves| - 1]), moves[|moves| - 1]))
  }

  // ------------------------------------------------------- the invariant

  /** Each Chat has done some beginning of its run, and its sections on the limiter are exactly those it noted. */
  ghost predicate Inv(u: Setup, s: State)
    requires Sound(u)
  {
    && |s.h| == |s.o| && Greedy(u.origin, s.h) && (forall i | 0 <= i < |s.g| :: s.g[i].who < |u.chats|)
    && forall who: nat | who < |u.chats| :: Kept(u, s, who)
  }

  ghost predicate Kept(u: Setup, s: State, who: nat)
    requires Sound(u) && |s.h| == |s.o| && who < |u.chats|
  {
    Project(s.g, who) <= Plan(u, who) && SectionsOn(u.names, Project(s.g, who)) == MineIn(who, s.h, s.o)
  }

  lemma ProjectSnoc(g: GlobalLog, e: Entry, who: nat)
    ensures Project(g + [e], who) == Project(g, who) + (if e.who == who then [e.event] else [])
  {
    assert (g + [e])[..|g|] == g;
  }

  lemma {:induction false} ProjectConcat(a: GlobalLog, b: GlobalLog, who: nat)
    ensures Project(a + b, who) == Project(a, who) + Project(b, who)
  {
    if b == [] {
      assert a + b == a;
    } else {
      assert (a + b)[..|a + b| - 1] == a + b[..|b| - 1];
      ProjectConcat(a, b[..|b| - 1], who);
    }
  }

  lemma SectionsSnoc(names: set<Name>, log: Log, e: Event)
    ensures SectionsOn(names, log + [e]) == SectionsOn(names, log)
      + (if e.Admitted? && e.limited in names then [Section(e.now, e.granted)] else [])
  {
    assert (log + [e])[..|log|] == log;
  }

  /** A step keeps the books of one Chat. */
  lemma StepKeeps(u: Setup, s: State, m: Move, who: nat)
    requires Sound(u) && |s.h| == |s.o| && Enabled(u, s, m) && who < |u.chats| && Kept(u, s, who)
    ensures |Next(u, s, m).h| == |Next(u, s, m).o| && Kept(u, Next(u, s, m), who)
  {
    hide Sound, Plan, Project, SectionsOn, MineIn, Replay, HasToken;
    var t := Next(u, s, m);
    if m.Act? {
      ProjectSnoc(s.g, Entry(m.who, m.event), who);
      SectionsSnoc(u.names, Project(s.g, who), m.event);
    }
    if |s.h| < |t.h| {
      MineSnoc(who, s.h, s.o, t.h[|s.h|], t.o[|s.h|]);
    }
    assert MineIn(who, s.h, s.o) + [] == MineIn(who, s.h, s.o);
    assert Project(s.g, who) + [] == Project(s.g, who);
  }

  lemma StepKeepsInv(u: Setup, s: State, m: Move)
    requires Sound(u) && Inv(u, s) && Enabled(u, s, m)
    ensures Inv(u, Next(u, s, m))
  {
    hide Sound, Plan, Kept, Project, Greedy, Replay, HasToken;
    var t := Next(u, s, m);
    if |s.h| < |t.h| {
      GreedyExtends(u.origin, s.h, t.h[|s.h|]);
    }
    forall who: nat | who < |u.chats| ensures |t.h| == |t.o| && Kept(u, t, who) {
      StepKeeps(u, s, m, who);
    }
  }

  lemma {:induction false} RunKeepsInv(u: Setup, s: State, moves: seq<Move>)
    requires Sound(u) && Inv(u, s) && Possible(u, s, moves)
    ensures Inv(u, Run(u, s, moves))
  {
    hide Sound, Inv, Enabled, Next;
    if moves != [] {
      RunKeepsInv(u, s, moves[..|moves| - 1]);
      StepKeepsInv(u, Run(u, s, moves[..|moves| - 1]), moves[|moves| - 1]);
    }
  }

  lemma StartHasInv(u: Setup)
    requires Sound(u)
    ensures Inv(u, START)
  {}

  lemma InvIsCharged(u: Setup, s: State)
    requires Sound(u) && Inv(u, s)
    ensures Interleaves(u.cfg, u.chats, s.g) && Charged(u.names, u.chats, s.g, s.h, s.o)
    ensures Greedy(u.origin, s.h) && |s.h| == |s.o|
  {
    hide Greedy, Project, SectionsOn, MineIn, ChatLog, ValidChat, AllValid;
    forall who: nat | who < |u.chats|
      ensures ValidChat(u.cfg, u.chats[who].targets, u.chats[who].run) && AllValid(u.cfg, u.chats[who].run.visits)
      ensures Project(s.g, who) <= Plan(u, who)
      ensures SectionsOn(u.names, Project(s.g, who)) <= MineIn(who, s.h, s.o)
    {
      assert u.chats[who] in u.chats && Kept(u, s, who);
    }
  }

  /**
    At every reachable state, Chats under way included: the sections in the
    limiter's history are its own decisions, those of each Chat are the ones it
    noted, and the calls made so far are covered by the tokens granted so far.
   */
  lemma EveryStateIsCovered(u: Setup, moves: seq<Move>)
    requires Sound(u) && Possible(u, START, moves)
    ensures var s := Run(u, START, moves);
      && Greedy(u.origin, s.h) && Charged(u.names, u.chats, s.g, s.h, s.o)
      && Calls(u.names, Events(s.g)) <= Max(1, u.cfg.policy.maxAttempts) * Grants(s.h)
  {
    hide Inv, Greedy, Possible, Run, Calls, Grants, Charged, Interleaves, Attempts;
    StartHasInv(u);
    RunKeepsInv(u, START, moves);
    var s := Run(u, START, moves);
    InvIsCharged(u, s);
    CallsAreCovered(u.cfg, u.chats, s.g, u.names, s.h, s.o);
  }

  // ------------------------------------------------------------- windows

  /** Of the Chats below n, those that have started and not returned. */
  ghost function UnderWay(u: Setup, s: State, n: nat): nat
    requires Sound(u) && n <= |u.chats|
  {
    if n == 0 then 0
    else UnderWay(u, s, n - 1) + (if 0 < |Project(s.g, n - 1)| < |Plan(u, n - 1)| then 1 else 0)
  }

  /** Later states only add to what was observed. */
  ghost predicate Extends(s: State, t: State) {
    s.g <= t.g && |s.h| == |s.o| && |t.h| == |t.o| && s.h <= t.h && s.o <= t.o
  }

  lemma {:induction false} RunExtends(u: Setup, s: State, moves: seq<Move>)
    requires |s.h| == |s.o|
    ensures Extends(s, Run(u, s, moves))
  {
    if moves != [] {
      RunExtends(u, s, moves[..|moves| - 1]);
    }
  }

  lemma {:induction false} MineConcat(who: nat, a: History, b: History, o: seq<nat>, p: seq<nat>)
    requires |a| == |o| && |b| == |p|
    ensures MineIn(who, a + b, o + p) == MineIn(who, a, o) + MineIn(who, b, p)
  {
    if b == [] {
      assert a + b == a && o + p == o;
    } else {
      var k := |b| - 1;
      MineConcat(who, a, b[..k], o, p[..k]);
      MineSnoc(who, a + b[..k], o + p[..k], b[k], p[k]);
      assert a + b == (a + b[..k]) + [b[k]] && o + p == (o + p[..k]) + [p[k]];
    }
  }

  /** Between two states, what a Chat did and what it ran on the limiter agree, and cover its calls. */
  lemma ChatInWindow(u: Setup, s: State, t: State, who: nat)
    requires Sound(u) && who < |u.chats| && Extends(s, t) && Kept(u, s, who) && Kept(u, t, who)
    ensures var part := Project(t.g[|s.g|..], who);
      var owed := if 0 < |Project(s.g, who)| < |Plan(u, who)| then 1 else 0;
      Calls(u.names, part)
        <= Attempts(u.cfg.policy) * (owed + Grants(MineIn(who, t.h[|s.h|..], t.o[|s.o|..])))
  {
    hide Calls, Grants, Project, SectionsOn, MineIn, ChatLog, ValidChat, Attempts;
    var c, mine, part := u.chats[who], Project(s.g, who), Project(t.g[|s.g|..], who);
    assert t.g == s.g + t.g[|s.g|..] && t.h == s.h + t.h[|s.h|..] && t.o == s.o + t.o[|s.o|..];
    ProjectConcat(s.g, t.g[|s.g|..], who);
    SectionsConcat(u.names, mine, part);
    MineConcat(who, s.h, t.h[|s.h|..], s.o, t.o[|s.o|..]);
    SameRest(SectionsOn(u.names, mine), SectionsOn(u.names, part), MineIn(who, t.h[|s.h|..], t.o[|s.o|..]));
    AdmissionsAreGrants(u.names, part);
    ChatWindow(u.cfg, c.request, u.names, c.run, |mine|, |mine + part|);
    assert ChatLog(u.cfg, c.request, c.run)[|mine|..|mine + part|] == part;
  }

  lemma SameRest(a: History, b: History, c: History)
    requires a + b == a + c
    ensures b == c
  {
    assert b == (a + b)[|a|..] && c == (a + c)[|a|..];
  }

  lemma {:induction false} ChatsInWindow(u: Setup, s: State, t: State, n: nat)
    requires Sound(u) && n <= |u.chats| && Extends(s, t) && Inv(u, s) && Inv(u, t)
    ensures CallsBelow(u.names, t.g[|s.g|..], n)
      <= Attempts(u.cfg.policy) * (UnderWay(u, s, n) + TakenBelow(t.h[|s.h|..], t.o[|s.o|..], n))
  {
    hide Sound, Plan, Kept, Calls, CallsBelow, TakenBelow, Grants, MineIn, Greedy, Attempts, Project;
    var g, h, o := t.g[|s.g|..], t.h[|s.h|..], t.o[|s.o|..];
    if n == 0 {
      CallsBelowSplits(u.names, g, 0);
      TakenBelowSplits(h, o, 0);
    } else {
      ChatsInWindow(u, s, t, n - 1);
      ChatInWindow(u, s, t, n - 1);
      CallsBelowSplits(u.names, g, n - 1);
      TakenBelowSplits(h, o, n - 1);
      var owed := if 0 < |Project(s.g, n - 1)| < |Plan(u, n - 1)| then 1 else 0;
      Together(Attempts(u.cfg.policy), UnderWay(u, s, n - 1), TakenBelow(h, o, n - 1), owed,
               Grants(MineIn(n - 1, h, o)));
    }
  }

  lemma Together(a: nat, w: nat, x: nat, y: nat, z: nat)
    ensures a * (w + x) + a * (y + z) == a * ((w + y) + (x + z))
  {}

  lemma {:induction false} EventsConcat(a: GlobalLog, b: GlobalLog)
    ensures Events(a + b) == Events(a) + Events(b)
  {
    if b == [] {
      assert a + b == a;
    } else {
      assert (a + b)[..|a + b| - 1] == a + b[..|b| - 1];
      EventsConcat(a, b[..|b| - 1]);
    }
  }

  /** Calls made between two states, in terms of the tokens granted between them. */
  lemma WindowIsCovered(u: Setup, s: State, t: State)
    requires Sound(u) && Extends(s, t) && Inv(u, s) && Inv(u, t)
    ensures Calls(u.names, Events(t.g)) - Calls(u.names, Events(s.g))
      <= Attempts(u.cfg.policy) * (UnderWay(u, s, |u.chats|) + Grants(t.h[|s.h|..]))
  {
    hide Sound, Kept, Calls, CallsBelow, TakenBelow, Grants, MineIn, Greedy, Attempts, Project, Events, UnderWay;
    var g, h, o := t.g[|s.g|..], t.h[|s.h|..], t.o[|s.o|..];
    assert t.g == s.g + g;
    EventsConcat(s.g, g);
    CountsConcat(u.names, Events(s.g), Events(g));
    ChatsInWindow(u, s, t, |u.chats|);
    CallsBelowAll(u.names, g, |u.chats|);
    TakenBelowSplits(h, o, |u.chats|);
    Adds(Attempts(u.cfg.policy), UnderWay(u, s, |u.chats|), TakenBelow(h, o, |u.chats|), Grants(h));
  }

  /** The tokens granted between two states fit the limiter's promise for that window. */
  lemma WindowGrants(b: Bucket, h: History, k: nat)
    requires b.Full() && Greedy(b, h) && k < |h|
    ensures Grants(h[k..]) as real <= b.burst + Accrued(b.rate, ClockAt(b.last, h, k), ClockAt(b.last, h, |h| - 1))
  {
    hide Greedy, Grants, Accrued, ClockAt;
    GreedyIsLawful(b, h);
    LawfulKeepsWindows(b, h, k, |h| - 1);
    assert h[k..|h|] == h[k..];
  }

  /**
    The rate limit as the providers see it: between any two reachable states,
    at most max(1, MaxAttempts) calls for each Chat under way at the first and
    for each token granted since, hence at most max(1, MaxAttempts) *
    (Chats under way + burst + rate * elapsed), whoever else uses the limiter.
   */
  lemma EveryWindowIsBounded(u: Setup, before: seq<Move>, moves: seq<Move>)
    requires Sound(u) && Possible(u, START, before) && Possible(u, Run(u, START, before), moves)
    ensures var s := Run(u, START, before);
      var t := Run(u, s, moves);
      var made := Calls(u.names, Events(t.g)) - Calls(u.names, Events(s.g));
      var a, owed := Max(1, u.cfg.policy.maxAttempts), UnderWay(u, s, |u.chats|);
      && s.h <= t.h && made <= a * (owed + Grants(t.h[|s.h|..]))
      && if t.h == s.h then made <= a * owed
         else
           var first, last := ClockAt(u.origin.last, t.h, |s.h|), ClockAt(u.origin.last, t.h, |t.h| - 1);
           made as real <= a as real * (owed as real + u.origin.burst + Accrued(u.origin.rate, first, last))
  {
    hide Inv, Possible, Run, Calls, Events, Grants, UnderWay, Attempts, Accrued, ClockAt, Greedy;
    StartHasInv(u);
    RunKeepsInv(u, START, before);
    var s := Run(u, START, before);
    RunKeepsInv(u, s, moves);
    var t := Run(u, s, moves);
    InvIsCharged(u, s);
    InvIsCharged(u, t);
    RunExtends(u, s, moves);
    WindowIsCovered(u, s, t);
    var a, owed := Attempts(u.cfg.policy), UnderWay(u, s, |u.chats|);
    if t.h == s.h {
      assert t.h[|s.h|..] == [];
      NoGrants();
    } else {
      WindowGrants(u.origin, t.h, |s.h|);
      Product(a, owed + Grants(t.h[|s.h|..]), owed as real + (u.origin.burst
        + Accrued(u.origin.rate, ClockAt(u.origin.last, t.h, |s.h|), ClockAt(u.origin.last, t.h, |t.h| - 1))));
    }
  }

  // ------------------------------------------ returned Chats are a run

  lemma {:induction false} RunConcat(u: Setup, s: State, a: seq<Move>, b: seq<Move>)
    requires Sound(u) && Possible(u, s, a) && Possible(u, Run(u, s, a), b)
    ensures Possible(u, s, a + b) && Run(u, s, a + b) == Run(u, Run(u, s, a), b)
  {
    hide Sound, Enabled, Next;
    if b == [] {
      assert a + b == a;
    } else {
      assert (a + b)[..|a + b| - 1] == a + b[..|b| - 1];
      RunConcat(u, s, a, b[..|b| - 1]);
    }
  }

  lemma OneMove(u: Setup, s: State, m: Move)
    requires Sound(u) && Enabled(u, s, m)
    ensures Possible(u, s, [m]) && Run(u, s, [m]) == Next(u, s, m)
  {
    hide Sound, Enabled, Next;
    assert [m][..0] == [];
  }

  /** A state that is the same for every Chat but one. */
  ghost predicate OnlyActed(s: State, t: State, who: nat) {
    forall i: nat | i != who :: Project(t.g, i) == Project(s.g, i)
  }

  /** The Chat goes on to its next section on the limiter, which is the one expected. */
  lemma {:induction false} ReachSection(u: Setup, s: State, who: nat, section: Section) returns (moves: seq<Move>)
    requires Sound(u) && Inv(u, s) && who < |u.chats|
    requires SectionsOn(u.names, Project(s.g, who)) + [section] <= SectionsOn(u.names, Plan(u, who))
    requires section.granted <==> HasToken(Replay(u.origin, s.h), section.now)
    ensures Possible(u, s, moves)
    ensures Run(u, s, moves).h == s.h + [section] && Run(u, s, moves).o == s.o + [who]
    decreases |Plan(u, who)| - |Project(s.g, who)|
  {
    hide Sound, Project, SectionsOn, Replay, HasToken, Greedy, Possible, Run, MineIn;
    assert Kept(u, s, who);
    var log, part := Plan(u, who), Project(s.g, who);
    assert |SectionsOn(u.names, part)| < |SectionsOn(u.names, log)| && part <= log;
    assert part != log;
    var e := log[|part|];
    var act := Act(who, e);
    assert log == (part + [e]) + log[|part| + 1..];
    SectionsConcat(u.names, part + [e], log[|part| + 1..]);
    SectionsSnoc(u.names, part, e);
    if OnLimiter(u, e) {
      var n := |SectionsOn(u.names, part)|;
      assert SectionsOn(u.names, log)[n] == section;
      OneMove(u, s, act);
      moves := [act];
    } else {
      OneMove(u, s, act);
      StepKeepsInv(u, s, act);
      ProjectSnoc(s.g, Entry(who, e), who);
      var t := Next(u, s, act);
      var more := ReachSection(u, t, who, section);
      RunConcat(u, s, [act], more);
      moves := [act] + more;
    }
  }

  /** A history that is the limiter's own, with exactly the sections each Chat's whole run notes. */
  ghost predicate Explained(u: Setup, h: History, o: seq<nat>)
    requires Sound(u)
  {
    && |h| == |o| && Greedy(u.origin, h)
    && forall who: nat | who < |u.chats| :: SectionsOn(u.names, Plan(u, who)) == MineIn(who, h, o)
  }

  lemma {:induction false} ReachHistory(u: Setup, h: History, o: seq<nat>, n: nat) returns (moves: seq<Move>)
    requires Sound(u) && Explained(u, h, o) && n <= |h|
    ensures Possible(u, START, moves)
    ensures Run(u, START, moves).h == h[..n] && Run(u, START, moves).o == o[..n]
  {
    hide Sound, Project, SectionsOn, Replay, HasToken, Greedy, MineIn, Plan, Possible, Run;
    if n == 0 {
      moves := [];
      NoMoves(u, START);
    } else {
      var k := n - 1;
      moves := ReachHistory(u, h, o, k);
      StartHasInv(u);
      RunKeepsInv(u, START, moves);
      var s := Run(u, START, moves);
      DecisionAt(u.origin, h, k);
      var more;
      if o[k] < |u.chats| {
        assert Kept(u, s, o[k]);
        NextOfMine(o[k], h, o, k);
        more := ReachSection(u, s, o[k], h[k]);
      } else {
        more := [Other(o[k], h[k].now)];
        OneMove(u, s, more[0]);
      }
      RunConcat(u, START, moves, more);
      moves := moves + more;
      assert h[..n] == h[..k] + [h[k]] && o[..n] == o[..k] + [o[k]];
    }
  }

  lemma NoMoves(u: Setup, s: State)
    requires Sound(u)
    ensures Possible(u, s, []) && Run(u, s, []) == s
  {}

  lemma DecisionAt(b: Bucket, h: History, k: nat)
    requires Greedy(b, h) && k < |h|
    ensures h[k].granted <==> HasToken(Replay(b, h[..k]), h[k].now)
  {}

  lemma NextOfMine(who: nat, h: History, o: seq<nat>, k: nat)
    requires |h| == |o| && k < |h| && o[k] == who
    ensures MineIn(who, h[..k], o[..k]) + [h[k]] <= MineIn(who, h, o)
  {
    hide MineIn;
    assert h[..k + 1] == h[..k] + [h[k]] && o[..k + 1] == o[..k] + [o[k]];
    MineSnoc(who, h[..k], o[..k], h[k], who);
    MineOnlyGrows(who, h[..k + 1], o[..k + 1], h, o);
  }

  /** With all its sections run, a Chat goes on to its end without the limiter. */
  lemma {:induction false} RunToEnd(u: Setup, s: State, who: nat) returns (moves: seq<Move>)
    requires Sound(u) && Inv(u, s) && who < |u.chats|
    requires SectionsOn(u.names, Plan(u, who)) == MineIn(who, s.h, s.o)
    ensures Possible(u, s, moves)
    ensures var t := Run(u, s, moves);
      t.h == s.h && t.o == s.o && Project(t.g, who) == Plan(u, who) && OnlyActed(s, t, who)
    decreases |Plan(u, who)| - |Project(s.g, who)|
  {
    hide Sound, Project, SectionsOn, Greedy, Possible, Run, MineIn;
    assert Kept(u, s, who);
    var log, part := Plan(u, who), Project(s.g, who);
    if |part| == |log| {
      moves := [];
      NoMoves(u, s);
    } else {
      var e := log[|part|];
      var act := Act(who, e);
      assert log == (part + [e]) + log[|part| + 1..];
      SectionsConcat(u.names, part + [e], log[|part| + 1..]);
      SectionsSnoc(u.names, part, e);
      assert !OnLimiter(u, e);
      OneMove(u, s, act);
      StepKeepsInv(u, s, act);
      var t := Next(u, s, act);
      forall i: nat ensures Project(t.g, i) == Project(s.g, i) + (if i == who then [e] else []) {
        ProjectSnoc(s.g, Entry(who, e), i);
      }
      var more := RunToEnd(u, t, who);
      RunConcat(u, s, [act], more);
      moves := [act] + more;
    }
  }

  lemma {:induction false} AllRunToEnd(u: Setup, s: State, n: nat) returns (moves: seq<Move>)
    requires Sound(u) && Inv(u, s) && n <= |u.chats| && Explained(u, s.h, s.o)
    ensures Possible(u, s, moves)
    ensures var t := Run(u, s, moves);
      t.h == s.h && t.o == s.o && forall who: nat | who < n :: Project(t.g, who) == Plan(u, who)
  {
    hide Sound, Project, SectionsOn, Greedy, Possible, Run, MineIn, Plan, Inv;
    if n == 0 {
      moves := [];
      NoMoves(u, s);
    } else {
      moves := AllRunToEnd(u, s, n - 1);
      RunKeepsInv(u, s, moves);
      var more := RunToEnd(u, Run(u, s, moves), n - 1);
      RunConcat(u, s, moves, more);
      moves := moves + more;
    }
  }

  /**
    Nothing that the contracts allow is missing from the system: any history of
    the limiter in which each Chat's own sections are those of its run, as Chat
    promises, is reached by a run that ends with every Chat returned.
   */
  lemma ReturnedChatsAreARun(u: Setup, h: History, o: seq<nat>) returns (moves: seq<Move>)
    requires Sound(u) && Explained(u, h, o)
    ensures Possible(u, START, moves)
    ensures var end := Run(u, START, moves);
      end.h == h && end.o == o && forall who: nat | who < |u.chats| :: Project(end.g, who) == Plan(u, who)
  {
    hide Sound, Project, SectionsOn, Greedy, Possible, Run, MineIn, Plan, Inv;
    var first := ReachHistory(u, h, o, |h|);
    assert h[..|h|] == h && o[..|h|] == o;
    StartHasInv(u);
    RunKeepsInv(u, START, first);
    var rest := AllRunToEnd(u, Run(u, START, first), |u.chats|);
    RunConcat(u, START, first, rest);
    moves := first + rest;
  }
}
