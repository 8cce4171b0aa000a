/**
  Concurrent Chat calls on one router. A global log interleaves the events of
  any number of goroutines; each goroutine's own events are some beginning of a
  valid Chat log, and what they note on a limiter is in the limiter's history
  as that goroutine's own, among sections of any other users.
 */
module Interleaving {
  import opened Wrappers
  import opened Provider
  import opened World
  import opened Backoff
  import opened TokenBucket
  import opened Limiters
  import opened Routing
  import opened RoutingTheorems

  datatype Entry = Entry(who: nat, event: Event)

  type GlobalLog = seq<Entry>

  /** One goroutine's request and the whole run it is on. */
  datatype Goroutine = Goroutine(request: ChatRequest, targets: seq<Target>, run: ChatRun)

  function Project(g: GlobalLog, who: nat): Log {
    if g == [] then []
    else Project(g[..|g| - 1], who) + (if g[|g| - 1].who == who then [g[|g| - 1].event] else [])
  }

  function Events(g: GlobalLog): Log {
    if g == [] then [] else Events(g[..|g| - 1]) + [g[|g| - 1].event]
  }

  ghost predicate Interleaves(cfg: Config, chats: seq<Goroutine>, g: GlobalLog) {
    && (forall i | 0 <= i < |g| :: g[i].who < |chats|)
    && forall who: nat | who < |chats| ::
         && var c := chats[who];
            ValidChat(cfg, c.targets, c.run) && AllValid(cfg, c.run.visits)
            && Project(g, who) <= ChatLog(cfg, c.request, c.run)
  }

  /** A limiter attached under these names has every section the goroutines note on it, as their own. */
  ghost predicate Charged(ps: set<Name>, chats: seq<Goroutine>, g: GlobalLog, h: History, o: seq<nat>) {
    && |h| == |o|
    && forall who: nat | who < |chats| :: SectionsOn(ps, Project(g, who)) <= MineIn(who, h, o)
  }

  // ------------------------------------------------------ sums over goroutines

  /** Calls to these providers by goroutines below n. */
  function CallsBelow(ps: set<Name>, g: GlobalLog, n: nat): nat {
    if g == [] then 0
    else CallsBelow(ps, g[..|g| - 1], n) + (if g[|g| - 1].who < n && IsCall(ps, g[|g| - 1].event) then 1 else 0)
  }

  /** Tokens taken by callers below n. */
  function TakenBelow(h: History, o: seq<nat>, n: nat): nat
    requires |h| == |o|
  {
    if h == [] then 0
    else
      var k := |h| - 1;
      TakenBelow(h[..k], o[..k], n) + (if o[k] < n && h[k].granted then 1 else 0)
  }

  lemma {:induction false} CallsBelowSplits(ps: set<Name>, g: GlobalLog, n: nat)
    ensures CallsBelow(ps, g, n + 1) == CallsBelow(ps, g, n) + Calls(ps, Project(g, n))
    ensures CallsBelow(ps, g, 0) == 0
  {
    hide Calls;
    NoEvents(ps);
    if g != [] {
      var init, e := g[..|g| - 1], g[|g| - 1];
      CallsBelowSplits(ps, init, n);
      if e.who == n {
        CountsConcat(ps, Project(init, n), [e.event]);
        CountOne(ps, e.event);
      } else {
        assert Project(g, n) == Project(init, n) + [] == Project(init, n);
      }
    }
  }

  lemma {:induction false} CallsBelowAll(ps: set<Name>, g: GlobalLog, n: nat)
    requires forall i | 0 <= i < |g| :: g[i].who < n
    ensures CallsBelow(ps, g, n) == Calls(ps, Events(g))
  {
    if g != [] {
      var init := g[..|g| - 1];
      CallsBelowAll(ps, init, n);
      assert Events(g)[..|Events(g)| - 1] == Events(init);
    }
  }

  lemma {:induction false} TakenBelowSplits(h: History, o: seq<nat>, n: nat)
    requires |h| == |o|
    ensures TakenBelow(h, o, n + 1) == TakenBelow(h, o, n) + Grants(MineIn(n, h, o))
    ensures TakenBelow(h, o, 0) == 0 && TakenBelow(h, o, n) <= Grants(h)
  {
    if h != [] {
      var k := |h| - 1;
      TakenBelowSplits(h[..k], o[..k], n);
      OneMoreGrant(MineIn(n, h[..k], o[..k]), h[k]);
      assert MineIn(n, h[..k], o[..k]) + [] == MineIn(n, h[..k], o[..k]);
    }
  }

  lemma {:induction false} AdmissionsAreGrants(ps: set<Name>, log: Log)
    ensures Grants(SectionsOn(ps, log)) == Admissions(ps, log)
  {
    hide Grants;
    NoGrants();
    if log != [] {
      var init, e := log[..|log| - 1], log[|log| - 1];
      AdmissionsAreGrants(ps, init);
      if e.Admitted? && e.limited in ps {
        OneMoreGrant(SectionsOn(ps, init), Section(e.now, e.granted));
      } else {
        assert SectionsOn(ps, log) == SectionsOn(ps, init);
      }
    }
  }

  lemma NoGrants()
    ensures Grants([]) == 0
  {}

  lemma GrantsOfPrefix(a: History, b: History)
    requires a <= b
    ensures Grants(a) <= Grants(b)
  {
    assert b == a + b[|a|..];
    GrantsConcat(a, b[|a|..]);
  }

  // --------------------------------------- what Chat's contract provides

  /** A Chat under an identity of its own leaves exactly its sections on a limiter: every part of its log is charged. */
  lemma ChatIsCharged(routes: map<string, Route>, fallback: Route, cfg: Config, request: ChatRequest, run: ChatRun,
                      result: ChatResult, before: Log, after: Log, limiters: map<Name, Limiter>,
                      ledger: map<Limiter, History>, ledger': map<Limiter, History>, l: Limiter, j: nat)
    requires ChatDone(routes, fallback, cfg, request, run, result, before, after, limiters, ledger, ledger')
    requires l in ledger && ledger[l] == []
    requires j <= |ChatLog(cfg, request, run)|
    ensures SectionsOn(NamesOf(limiters, l), ChatLog(cfg, request, run)[..j]) <= ledger'[l]
    ensures ledger'[l] == SectionsOn(NamesOf(limiters, l), ChatLog(cfg, request, run))
  {
    hide ChatAnswers, ChatLog, AllValid, NamesOf, SectionsOn;
    var log := ChatLog(cfg, request, run);
    assert log == log[..j] + log[j..];
    SectionsConcat(NamesOf(limiters, l), log[..j], log[j..]);
  }

  lemma {:induction false} MineOnlyGrows(me: nat, h: History, o: seq<nat>, h': History, o': seq<nat>)
    requires Grows(h, o, h', o')
    ensures MineIn(me, h, o) <= MineIn(me, h', o')
    decreases |h'|
  {
    if |h'| == |h| {
      assert h == h' && o == o';
    } else {
      MineOnlyGrows(me, h, o, h'[..|h'| - 1], o'[..|o'| - 1]);
    }
  }

  /** A Chat that returned: its result, and its log, its ledger and a limiter's history before and after it. */
  datatype Return = Return(result: ChatResult, log: Log, log': Log, ledger: map<Limiter, History>,
                           ledger': map<Limiter, History>, h: History, o: seq<nat>)

  /** What Chat's contract says of a call under an identity of its own, seen from limiter l. */
  ghost predicate Returned(routes: map<string, Route>, fallback: Route, cfg: Config, limiters: map<Name, Limiter>,
                           l: Limiter, who: nat, c: Goroutine, r: Return) {
    && ChatDone(routes, fallback, cfg, c.request, c.run, r.result, r.log, r.log', limiters, r.ledger, r.ledger')
    && c.targets == ChainOf(routes, fallback, c.request.model)
    && l in r.ledger && r.ledger[l] == []
    && |r.h| == |r.o| && l in r.ledger' && r.ledger'[l] == MineIn(who, r.h, r.o)
  }

  lemma ReturnedFacts(routes: map<string, Route>, fallback: Route, cfg: Config, limiters: map<Name, Limiter>,
                      l: Limiter, who: nat, c: Goroutine, r: Return)
    requires Returned(routes, fallback, cfg, limiters, l, who, c, r)
    ensures ValidChat(cfg, c.targets, c.run) && AllValid(cfg, c.run.visits)
    ensures SectionsOn(NamesOf(limiters, l), ChatLog(cfg, c.request, c.run)) == MineIn(who, r.h, r.o)
  {
    hide ChatLog, SectionsOn, NamesOf, ResolveIn, ResultOf, MineIn;
    ChatIsCharged(routes, fallback, cfg, c.request, c.run, r.result, r.log, r.log', limiters,
                  r.ledger, r.ledger', l, 0);
  }

  /** A Chat that returned is charged in every later history, with the part of its log seen so far. */
  lemma ReturnedIsCharged(ps: set<Name>, who: nat, log: Log, part: Log, h: History, o: seq<nat>,
                          h': History, o': seq<nat>)
    requires Grows(h, o, h', o') && part <= log && SectionsOn(ps, log) == MineIn(who, h, o)
    ensures SectionsOn(ps, part) <= MineIn(who, h', o')
  {
    hide SectionsOn, MineIn;
    assert log == part + log[|part|..];
    SectionsConcat(ps, part, log[|part|..]);
    MineOnlyGrows(who, h, o, h', o');
  }

  /** Chat calls whose contracts hold, seen in one later history of a limiter; g orders their events. */
  ghost predicate AllReturned(routes: map<string, Route>, fallback: Route, cfg: Config, limiters: map<Name, Limiter>,
                              l: Limiter, chats: seq<Goroutine>, rs: seq<Return>, g: GlobalLog,
                              h: History, o: seq<nat>) {
    && |rs| == |chats| && (forall i | 0 <= i < |g| :: g[i].who < |chats|)
    && forall who: nat | who < |chats| ::
         && Returned(routes, fallback, cfg, limiters, l, who, chats[who], rs[who])
         && Grows(rs[who].h, rs[who].o, h, o)
         && Project(g, who) <= ChatLog(cfg, chats[who].request, chats[who].run)
  }

  /** Chats that returned at different times are valid runs, all charged in any later history. */
  lemma ChatsAreCharged(routes: map<string, Route>, fallback: Route, cfg: Config, limiters: map<Name, Limiter>,
                        l: Limiter, chats: seq<Goroutine>, rs: seq<Return>, g: GlobalLog, h: History, o: seq<nat>)
    requires |h| == |o| && AllReturned(routes, fallback, cfg, limiters, l, chats, rs, g, h, o)
    ensures Interleaves(cfg, chats, g) && Charged(NamesOf(limiters, l), chats, g, h, o)
  {
    hide Returned, Grows, Project, SectionsOn, MineIn, ChatLog, ValidChat, NamesOf;
    forall who: nat | who < |chats|
      ensures ValidChat(cfg, chats[who].targets, chats[who].run) && AllValid(cfg, chats[who].run.visits)
      ensures SectionsOn(NamesOf(limiters, l), Project(g, who)) <= MineIn(who, h, o)
    {
      var c, r := chats[who], rs[who];
      ReturnedFacts(routes, fallback, cfg, limiters, l, who, c, r);
      ReturnedIsCharged(NamesOf(limiters, l), who, ChatLog(cfg, c.request, c.run), Project(g, who), r.h, r.o, h, o);
    }
  }

  // ------------------------------------------------------------ the theorems

  lemma {:induction false} GoroutinesAreMetered(cfg: Config, chats: seq<Goroutine>, g: GlobalLog, ps: set<Name>,
                                                h: History, o: seq<nat>, n: nat)
    requires Interleaves(cfg, chats, g) && n <= |chats| && ps <= cfg.limited && Charged(ps, chats, g, h, o)
    requires forall m | m in cfg.providers :: cfg.providers[m].name == m
    ensures CallsBelow(ps, g, n) <= Attempts(cfg.policy) * TakenBelow(h, o, n)
  {
    hide CallsBelow, TakenBelow, Calls, Admissions, ValidChat, ChatLog, SectionsOn, MineIn, Grants, Attempts;
    if n == 0 {
      CallsBelowSplits(ps, g, 0);
      TakenBelowSplits(h, o, 0);
    } else {
      var c, mine := chats[n - 1], Project(g, n - 1);
      GoroutinesAreMetered(cfg, chats, g, ps, h, o, n - 1);
      ChatIsMetered(cfg, c.request, ps, c.run, |mine|);
      assert mine == ChatLog(cfg, c.request, c.run)[..|mine|];
      AdmissionsAreGrants(ps, mine);
      GrantsOfPrefix(SectionsOn(ps, mine), MineIn(n - 1, h, o));
      CallsBelowSplits(ps, g, n - 1);
      TakenBelowSplits(h, o, n - 1);
      Adds(Attempts(cfg.policy), TakenBelow(h, o, n - 1), Admissions(ps, mine), Grants(MineIn(n - 1, h, o)));
    }
  }

  lemma Adds(a: nat, x: nat, y: nat, z: nat)
    requires y <= z
    ensures a * x + a * y <= a * (x + z)
  {}

  /**
    In every interleaving, the tokens granted by the limiter of some providers,
    whoever else uses it, cover every call made to them.
   */
  lemma CallsAreCovered(cfg: Config, chats: seq<Goroutine>, g: GlobalLog, ps: set<Name>, h: History, o: seq<nat>)
    requires Interleaves(cfg, chats, g) && ps <= cfg.limited && Charged(ps, chats, g, h, o)
    requires forall m | m in cfg.providers :: cfg.providers[m].name == m
    ensures Calls(ps, Events(g)) <= Max(1, cfg.policy.maxAttempts) * Grants(h)
  {
    hide CallsBelow, TakenBelow, Calls, Grants, SectionsOn, MineIn, Attempts, ValidChat, ChatLog;
    GoroutinesAreMetered(cfg, chats, g, ps, h, o, |chats|);
    CallsBelowAll(ps, g, |chats|);
    TakenBelowSplits(h, o, |chats|);
    Adds(Attempts(cfg.policy), 0, TakenBelow(h, o, |chats|), Grants(h));
  }

  /**
    In every interleaving of concurrent Chat calls, the providers behind a limiter
    that was attached from the start are called at most max(1, MaxAttempts) times
    per token it ever granted, hence at most max(1, MaxAttempts) *
    (burst + rate * elapsed) times, where the time elapses between the first and
    the last section in the limiter's history.
   */
  lemma ProviderLoadBound(cfg: Config, chats: seq<Goroutine>, g: GlobalLog, ps: set<Name>,
                          origin: Bucket, h: History, o: seq<nat>)
    requires Interleaves(cfg, chats, g) && ps <= cfg.limited && Charged(ps, chats, g, h, o)
    requires forall m | m in cfg.providers :: cfg.providers[m].name == m
    requires origin.Full() && Greedy(origin, h)
    ensures
      if h == [] then Calls(ps, Events(g)) == 0
      else
        var first, last := ClockAt(origin.last, h, 0), ClockAt(origin.last, h, |h| - 1);
        Calls(ps, Events(g)) as real
          <= Max(1, cfg.policy.maxAttempts) as real * (origin.burst + Accrued(origin.rate, first, last))
  {
    hide Interleaves, Charged, Greedy, Calls, Grants, Events, Accrued, ClockAt, Attempts;
    CallsAreCovered(cfg, chats, g, ps, h, o);
    if h == [] {
      NoGrants();
    } else {
      GrantsSinceFirst(origin, h);
      Product(Attempts(cfg.policy), Grants(h),
        origin.burst + Accrued(origin.rate, ClockAt(origin.last, h, 0), ClockAt(origin.last, h, |h| - 1)));
    }
  }

  /**
    The same from Chat's contract alone: Chats that returned, each under an
    identity of its own, whatever else the limiter was used for before, between
    and after them.
   */
  lemma FinishedChatsBound(routes: map<string, Route>, fallback: Route, cfg: Config, limiters: map<Name, Limiter>,
                           l: Limiter, origin: Bucket, chats: seq<Goroutine>, rs: seq<Return>, g: GlobalLog,
                           h: History, o: seq<nat>)
    requires cfg.limited == limiters.Keys && forall m | m in cfg.providers :: cfg.providers[m].name == m
    requires origin.Full() && Greedy(origin, h) && |h| == |o|
    requires AllReturned(routes, fallback, cfg, limiters, l, chats, rs, g, h, o)
    ensures
      var calls := Calls(NamesOf(limiters, l), Events(g));
      && calls <= Max(1, cfg.policy.maxAttempts) * Grants(h)
      && if h == [] then calls == 0
         else
           var first, last := ClockAt(origin.last, h, 0), ClockAt(origin.last, h, |h| - 1);
           calls as real <= Max(1, cfg.policy.maxAttempts) as real * (origin.burst + Accrued(origin.rate, first, last))
  {
    hide AllReturned, Interleaves, Charged, Greedy, Calls, Events, Grants, Accrued, ClockAt, Attempts;
    var ps := NamesOf(limiters, l);
    ChatsAreCharged(routes, fallback, cfg, limiters, l, chats, rs, g, h, o);
    CallsAreCovered(cfg, chats, g, ps, h, o);
    ProviderLoadBound(cfg, chats, g, ps, origin, h, o);
  }

  /** The limiter's whole history as one window. */
  lemma GrantsSinceFirst(b: Bucket, h: History)
    requires b.Full() && Greedy(b, h) && h != []
    ensures Grants(h) as real <= b.burst + Accrued(b.rate, ClockAt(b.last, h, 0), ClockAt(b.last, h, |h| - 1))
  {
    hide Greedy, Grants, Accrued, ClockAt;
    GreedyIsLawful(b, h);
    LawfulKeepsWindows(b, h, 0, |h| - 1);
    assert h[0..|h|] == h;
  }

  lemma GreedyIsLawful(b: Bucket, h: History)
    requires Greedy(b, h)
    ensures Lawful(b, h)
  {}

  lemma Product(a: nat, n: nat, bound: real)
    requires n as real <= bound
    ensures (a * n) as real <= a as real * bound
  {
    assert (a * n) as real == a as real * n as real;
  }
}
