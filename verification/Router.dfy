/**
  The routing engine of internal/router: Chat walks a fallback chain, applying
  rate limits and retry, until a target decides the request.

  `ChatRun` is one whole execution, target by target. A valid one stops at its
  first decisive target; Chat's log is exactly the log of a valid run, whatever
  the providers, the limiters, the clock and the context do.
 */
module Routing {
  import opened Wrappers
  import opened Provider
  import opened World
  import opened Backoff
  import opened Retry
  import opened Limiters
  import opened TokenBucket

  datatype Route = Route(targets: seq<Target>)

  datatype ChatResult =
    | Served(response: ChatResponse, target: Target, attempts: nat)
    | Failed(error: Err)

  // ------------------------------------------------------------ one target

  datatype Visit =
    | Unregistered(target: Target)
    | Limited(target: Target, now: int)
    | Tried(target: Target, client: Client, admittedAt: Option<int>, run: Run, after: Option<Sentinel>)

  /** What a Chat run reads of its router. */
  datatype Config = Config(providers: map<Name, Client>, limited: set<Name>, policy: Policy, failover: Err -> bool)

  ghost predicate ValidVisit(cfg: Config, target: Target, v: Visit) {
    && v.target == target
    && match v
       case Unregistered(_) => target.provider !in cfg.providers
       case Limited(_, _) => target.provider in cfg.providers && target.provider in cfg.limited
       case Tried(_, client, admittedAt, run, after) =>
         && target.provider in cfg.providers && client == cfg.providers[target.provider]
         && (admittedAt.Some? <==> target.provider in cfg.limited)
         && ValidRun(cfg.policy, run)
         && (!run.ending.Finished? ==> after == Some(run.ending.e))
  }

  /** Why the target did not serve the request, if it did not. */
  ghost function VisitError(cfg: Config, v: Visit): Option<Err>
    requires ValidVisit(cfg, v.target, v)
  {
    match v
    case Unregistered(t) => Some(NotRegistered(t.provider))
    case Limited(t, _) => Some(LocallyLimited(t.provider))
    case Tried(_, _, _, run, _) => RunError(run)
  }

  function NotRegistered(p: Name): Err {
    Plain("provider \"" + p + "\" is not registered", {})
  }

  function LocallyLimited(p: Name): Err {
    NewHTTPError(p, 429, "rate_limited", "local rate limit exceeded")
  }

  /** The target decides the request: it served it, or its failure must not be failed over. */
  ghost predicate Decides(cfg: Config, v: Visit)
    requires ValidVisit(cfg, v.target, v)
  {
    && v.Tried?
    && var err := RunError(v.run);
       err.None? || v.after.Some? || IsContextError(err.value) || !cfg.failover(err.value)
  }

  function CloneForTarget(request: ChatRequest, t: Target): ChatRequest {
    request.(model := t.model)
  }

  /** What happens at a target, once the check before it saw the context alive. */
  ghost function VisitLog(cfg: Config, request: ChatRequest, v: Visit): Log
    requires ValidVisit(cfg, v.target, v)
  {
    match v
    case Unregistered(_) => []
    case Limited(t, now) => [Admitted(t.provider, now, false)]
    case Tried(t, client, admittedAt, run, after) =>
      AdmissionLog(t, admittedAt) + TriedLog(request, t, client, run, after)
  }

  function AdmissionLog(t: Target, admittedAt: Option<int>): Log {
    if admittedAt.Some? then [Admitted(t.provider, admittedAt.value, true)] else []
  }

  /** The retried calls, and the look at the context that follows their failure. */
  ghost function TriedLog(request: ChatRequest, t: Target, client: Client, run: Run, after: Option<Sentinel>): Log
    requires |run.delays| == (if run.ending.Finished? then |run.outcomes| - 1 else |run.outcomes|)
    requires !run.ending.AtHead? ==> run.outcomes != []
  {
    RunLog(client, CloneForTarget(request, t), run) + if RunError(run).Some? then [Polled(after)] else []
  }

  // ------------------------------------------------------------- one chain

  /** `interrupted`: the context was seen done before the next target was looked at. */
  datatype ChatRun = ChatRun(visits: seq<Visit>, interrupted: Option<Sentinel>)

  /** Targets visited in chain order, none of them decisive. */
  ghost predicate PassedOver(cfg: Config, targets: seq<Target>, visits: seq<Visit>) {
    && |visits| <= |targets|
    && forall i | 0 <= i < |visits| :: ValidVisit(cfg, targets[i], visits[i]) && !Decides(cfg, visits[i])
  }

  ghost predicate DecidedLast(cfg: Config, targets: seq<Target>, visits: seq<Visit>) {
    && visits != [] && |visits| <= |targets|
    && var n := |visits| - 1;
       && PassedOver(cfg, targets, visits[..n])
       && ValidVisit(cfg, targets[n], visits[n]) && Decides(cfg, visits[n])
  }

  ghost predicate ValidChat(cfg: Config, targets: seq<Target>, run: ChatRun) {
    if run.interrupted.Some? then
      PassedOver(cfg, targets, run.visits) && |run.visits| < |targets|
    else
      || DecidedLast(cfg, targets, run.visits)
      || (PassedOver(cfg, targets, run.visits) && |run.visits| == |targets|)
  }

  ghost predicate AllValid(cfg: Config, visits: seq<Visit>) {
    forall v | v in visits :: ValidVisit(cfg, v.target, v)
  }

  /** The failure log: one entry per visited target that did not serve, in order. */
  ghost function Failures(cfg: Config, visits: seq<Visit>): seq<TargetFailure>
    requires AllValid(cfg, visits)
  {
    if visits == [] then []
    else
      var v := visits[|visits| - 1];
      var err := VisitError(cfg, v);
      Failures(cfg, visits[..|visits| - 1]) + (if err.Some? then [TargetFailure(v.target, err.value)] else [])
  }

  ghost function ResultOf(cfg: Config, model: string, run: ChatRun): ChatResult
    requires AllValid(cfg, run.visits)
  {
    var n := |run.visits| - 1;
    if run.interrupted.Some? then Failed(ContextError(run.interrupted.value))
    else if n >= 0 && VisitError(cfg, run.visits[n]).None? then
      var v := run.visits[n];
      Served(v.run.outcomes[|v.run.outcomes| - 1].response, v.target, |v.run.outcomes|)
    else Failed(RouteError(model, Failures(cfg, run.visits)))
  }

  ghost function VisitsLog(cfg: Config, request: ChatRequest, visits: seq<Visit>): Log
    requires AllValid(cfg, visits)
  {
    if visits == [] then []
    else
      VisitsLog(cfg, request, visits[..|visits| - 1]) + [Polled(None)] + VisitLog(cfg, request, visits[|visits| - 1])
  }

  ghost function ChatLog(cfg: Config, request: ChatRequest, run: ChatRun): Log
    requires AllValid(cfg, run.visits)
  {
    var visited := VisitsLog(cfg, request, run.visits);
    if run.interrupted.Some? then visited + [Polled(run.interrupted)] else visited
  }

  // --------------------------------------------------- what it is charged

  /** The sections a log notes on a limiter attached under these names. */
  function SectionsOn(names: set<Name>, log: Log): History {
    if log == [] then []
    else
      var e := log[|log| - 1];
      SectionsOn(names, log[..|log| - 1])
      + (if e.Admitted? && e.limited in names then [Section(e.now, e.granted)] else [])
  }

  ghost predicate NothingAdmitted(log: Log) {
    forall i | 0 <= i < |log| :: !log[i].Admitted?
  }

  lemma {:induction false} SectionsConcat(names: set<Name>, a: Log, b: Log)
    ensures SectionsOn(names, a + b) == SectionsOn(names, a) + SectionsOn(names, b)
  {
    if b == [] {
      assert a + b == a;
    } else {
      assert (a + b)[..|a + b| - 1] == a + b[..|b| - 1];
      SectionsConcat(names, a, b[..|b| - 1]);
    }
  }

  lemma {:induction false} NoSections(names: set<Name>, log: Log)
    requires NothingAdmitted(log)
    ensures SectionsOn(names, log) == []
  {
    if log != [] {
      NoSections(names, log[..|log| - 1]);
    }
  }

  lemma SectionsOfOne(names: set<Name>, p: Name, now: int, granted: bool)
    ensures SectionsOn(names, [Admitted(p, now, granted)]) == if p in names then [Section(now, granted)] else []
  {
    assert [Admitted(p, now, granted)][..0] == [];
  }

  lemma {:induction false} TurnsAdmitNothing(client: Client, request: ChatRequest,
                                             outcomes: seq<Outcome>, delays: seq<int>)
    requires |outcomes| == |delays|
    ensures NothingAdmitted(TurnsLog(client, request, outcomes, delays))
  {
    if outcomes != [] {
      var n := |outcomes| - 1;
      TurnsAdmitNothing(client, request, outcomes[..n], delays[..n]);
    }
  }

  lemma RunAdmitsNothing(policy: Policy, client: Client, request: ChatRequest, run: Run)
    requires ValidRun(policy, run)
    ensures NothingAdmitted(RunLog(client, request, run))
  {
    hide DelayAllowed, Decisive, TurnsLog;
    var n := |run.outcomes| - 1;
    match run.ending {
      case AtHead(_) => TurnsAdmitNothing(client, request, run.outcomes, run.delays);
      case Finished => TurnsAdmitNothing(client, request, run.outcomes[..n], run.delays);
      case InSleep(_) => TurnsAdmitNothing(client, request, run.outcomes[..n], run.delays[..n]);
    }
  }

  /** The names a limiter is attached under. */
  ghost function NamesOf(limiters: map<Name, Limiter>, l: Limiter): set<Name> {
    set n | n in limiters && limiters[n] == l
  }

  /** One call's own sections on each limiter, with those of a further log added. */
  ghost function Posted(limiters: map<Name, Limiter>, ledger: map<Limiter, History>, log: Log): map<Limiter, History> {
    map l | l in ledger :: ledger[l] + SectionsOn(NamesOf(limiters, l), log)
  }

  lemma PostedConcat(limiters: map<Name, Limiter>, ledger: map<Limiter, History>, a: Log, b: Log)
    ensures Posted(limiters, Posted(limiters, ledger, a), b) == Posted(limiters, ledger, a + b)
  {
    hide SectionsOn, NamesOf;
    forall l | l in ledger
      ensures SectionsOn(NamesOf(limiters, l), a + b)
        == SectionsOn(NamesOf(limiters, l), a) + SectionsOn(NamesOf(limiters, l), b)
    {
      SectionsConcat(NamesOf(limiters, l), a, b);
    }
    forall l | l in ledger
      ensures Posted(limiters, Posted(limiters, ledger, a), b)[l] == Posted(limiters, ledger, a + b)[l]
    {
      var names := NamesOf(limiters, l);
      assert ledger[l] + SectionsOn(names, a) + SectionsOn(names, b)
        == ledger[l] + (SectionsOn(names, a) + SectionsOn(names, b));
    }
  }

  lemma PostedNothing(limiters: map<Name, Limiter>, ledger: map<Limiter, History>, log: Log)
    requires NothingAdmitted(log)
    ensures Posted(limiters, ledger, log) == ledger
  {
    hide SectionsOn, NamesOf;
    forall l | l in ledger ensures SectionsOn(NamesOf(limiters, l), log) == [] {
      NoSections(NamesOf(limiters, l), log);
    }
    assert forall l | l in ledger :: Posted(limiters, ledger, log)[l] == ledger[l] + [] == ledger[l];
  }

  lemma ValidChatIsAllValid(cfg: Config, targets: seq<Target>, run: ChatRun)
    requires ValidChat(cfg, targets, run)
    ensures AllValid(cfg, run.visits) && |run.visits| <= |targets|
    ensures forall i | 0 <= i < |run.visits| :: ValidVisit(cfg, targets[i], run.visits[i])
    ensures forall i | 0 <= i < |run.visits| - 1 :: !Decides(cfg, run.visits[i])
  {
    if DecidedLast(cfg, targets, run.visits) {
      var n := |run.visits| - 1;
      forall i | 0 <= i < n ensures run.visits[i] == run.visits[..n][i] {}
    }
  }

  lemma OneMoreLogged(cfg: Config, request: ChatRequest, visits: seq<Visit>, v: Visit)
    requires AllValid(cfg, visits) && ValidVisit(cfg, v.target, v)
    ensures AllValid(cfg, visits + [v])
    ensures VisitsLog(cfg, request, visits + [v])
      == VisitsLog(cfg, request, visits) + [Polled(None)] + VisitLog(cfg, request, v)
    ensures VisitError(cfg, v).Some? ==>
      Failures(cfg, visits + [v]) == Failures(cfg, visits) + [TargetFailure(v.target, VisitError(cfg, v).value)]
  {
    hide ValidVisit, VisitLog, VisitError;
    assert (visits + [v])[..|visits|] == visits;
  }

  lemma OneMorePassed(cfg: Config, targets: seq<Target>, visits: seq<Visit>, v: Visit)
    requires PassedOver(cfg, targets, visits) && |visits| < |targets|
    requires ValidVisit(cfg, targets[|visits|], v) && v.target == targets[|visits|]
    ensures if Decides(cfg, v) then DecidedLast(cfg, targets, visits + [v]) else PassedOver(cfg, targets, visits + [v])
  {
    hide ValidVisit, Decides;
    assert (visits + [v])[..|visits|] == visits;
  }

  lemma OneMoreVisit(cfg: Config, request: ChatRequest, targets: seq<Target>, visits: seq<Visit>, v: Visit)
    requires PassedOver(cfg, targets, visits) && |visits| < |targets|
    requires ValidVisit(cfg, targets[|visits|], v)
    ensures v.target == targets[|visits|] && ValidVisit(cfg, v.target, v)
    ensures AllValid(cfg, visits) && AllValid(cfg, visits + [v])
    ensures VisitsLog(cfg, request, visits + [v])
      == VisitsLog(cfg, request, visits) + [Polled(None)] + VisitLog(cfg, request, v)
    ensures VisitError(cfg, v).Some? ==>
      Failures(cfg, visits + [v]) == Failures(cfg, visits) + [TargetFailure(v.target, VisitError(cfg, v).value)]
    ensures if Decides(cfg, v) then DecidedLast(cfg, targets, visits + [v]) else PassedOver(cfg, targets, visits + [v])
  {
    hide ValidRun, RunError, VisitsLog, VisitLog, Failures, VisitError, Decides, DecidedLast;
    OneMoreLogged(cfg, request, visits, v);
    OneMorePassed(cfg, targets, visits, v);
  }

  lemma NoVisits(cfg: Config, request: ChatRequest, targets: seq<Target>)
    ensures PassedOver(cfg, targets, []) && AllValid(cfg, [])
    ensures Failures(cfg, []) == [] && VisitsLog(cfg, request, []) == []
  {}

  function NoRoute(model: string): Err {
    Plain("router: no route for model \"" + model + "\"", {})
  }

  function ResolveIn(routes: map<string, Route>, fallback: Route, model: string): Option<Route> {
    if model in routes then Some(routes[model])
    else if |fallback.targets| > 0 then Some(fallback)
    else None
  }

  /** How one target leaves the loop: serving, going on to the next, or ending the chain. */
  datatype Verdict =
    | Answered(response: ChatResponse, attempts: nat)
    | FailOver(error: Err)
    | Stop(error: Err)

  ghost predicate VerdictOf(cfg: Config, target: Target, v: Visit, verdict: Verdict) {
    && v.target == target && ValidVisit(cfg, target, v)
    && match verdict
       case Answered(response, attempts) =>
         && VisitError(cfg, v).None? && Decides(cfg, v) && v.Tried? && attempts == |v.run.outcomes| > 0
         && v.run.outcomes[attempts - 1] == Reply(response)
       case FailOver(e) => VisitError(cfg, v) == Some(e) && !Decides(cfg, v)
       case Stop(e) => VisitError(cfg, v) == Some(e) && Decides(cfg, v)
  }

  predicate HasChain(routes: map<string, Route>, fallback: Route, model: string) {
    var route := ResolveIn(routes, fallback, model);
    route.Some? && route.value.targets != []
  }

  function ChainOf(routes: map<string, Route>, fallback: Route, model: string): seq<Target> {
    if HasChain(routes, fallback, model) then ResolveIn(routes, fallback, model).value.targets else []
  }

  /** A route of the model's own, even an empty one, keeps the default route out. */
  lemma OwnRouteFirst(routes: map<string, Route>, fallback: Route, model: string)
    ensures ChainOf(routes, fallback, model) == (if model in routes then routes[model] else fallback).targets
    ensures HasChain(routes, fallback, model) <==> ChainOf(routes, fallback, model) != []
  {}

  /** The result of a Chat: of a valid run over the model's chain, or an error when it has none. */
  ghost predicate ChatAnswers(routes: map<string, Route>, fallback: Route, cfg: Config, model: string,
                              run: ChatRun, result: ChatResult) {
    if HasChain(routes, fallback, model) then
      && ValidChat(cfg, ResolveIn(routes, fallback, model).value.targets, run) && AllValid(cfg, run.visits)
      && result == ResultOf(cfg, model, run)
    else run == ChatRun([], None) && result == Failed(NoRoute(model))
  }

  /** A Chat from one log and ledger to another: the run's own events, and the sections they note. */
  ghost predicate ChatDone(routes: map<string, Route>, fallback: Route, cfg: Config, request: ChatRequest,
                           run: ChatRun, result: ChatResult, log: Log, log': Log, limiters: map<Name, Limiter>,
                           ledger: map<Limiter, History>, ledger': map<Limiter, History>) {
    && ChatAnswers(routes, fallback, cfg, request.model, run, result)
    && AllValid(cfg, run.visits) && log' == log + ChatLog(cfg, request, run)
    && ledger' == Posted(limiters, ledger, ChatLog(cfg, request, run))
  }

  class Router {
    var providers: map<Name, Client>
    var limiters: map<Name, Limiter>
    var routes: map<string, Route>
    var fallback: Route
    const retry: Policy
    const failover: Err -> bool

    ghost predicate Valid()
      reads this, limiters.Values
    {
      && (forall n | n in providers :: providers[n].name == n)
      && (forall n | n in limiters :: limiters[n].Valid())
    }

    ghost function Snapshot(): Config
      reads this
    {
      Config(providers, limiters.Keys, retry, failover)
    }

    /** New, with the retry policy and the failover predicate its options left in place. */
    constructor (retry: Policy, failover: Err -> bool)
      ensures Valid() && providers == map[] && limiters == map[] && routes == map[] && fallback == Route([])
      ensures this.retry == retry && this.failover == failover
    {
      this.retry, this.failover := retry, failover;
      providers, limiters, routes, fallback := map[], map[], map[], Route([]);
    }

    method Register(p: Client)
      requires Valid()
      modifies this`providers
      ensures Valid() && providers == old(providers)[p.name := p]
    {
      providers := providers[p.name := p];
    }

    /** Attaching nil leaves the provider unlimited. */
    method SetLimiter(name: Name, l: Limiter?)
      requires Valid() && (l != null ==> l.Valid())
      modifies this`limiters
      ensures Valid() && limiters == if l == null then old(limiters) - {name} else old(limiters)[name := l]
    {
      if l == null {
        limiters := limiters - {name};
      } else {
        limiters := limiters[name := l];
      }
    }

    method AddRoute(logicalModel: string, route: Route)
      modifies this`routes
      ensures routes == old(routes)[logicalModel := route]
    {
      routes := routes[logicalModel := route];
    }

    method SetDefaultRoute(route: Route)
      modifies this`fallback
      ensures fallback == route
    {
      fallback := route;
    }

    method Resolve(logicalModel: string) returns (route: Option<Route>)
      ensures route == ResolveIn(routes, fallback, logicalModel)
    {
      if logicalModel in routes {
        return Some(routes[logicalModel]);
      }
      if |fallback.targets| > 0 {
        return Some(fallback);
      }
      return None;
    }

    method Lookup(name: Name) returns (p: Option<Client>, l: Limiter?)
      ensures p == if name in providers then Some(providers[name]) else None
      ensures l == if name in limiters then limiters[name] else null
    {
      p := if name in providers then Some(providers[name]) else None;
      l := if name in limiters then limiters[name] else null;
    }

    /** The call's own sections on every attached limiter. */
    ghost function Ledger(me: nat): map<Limiter, History>
      requires Valid()
      reads this, limiters.Values
    {
      map l | l in limiters.Values :: l.Mine(me)
    }

    /** Allow, with its section noted in this goroutine's log: the one section the call adds on any limiter. */
    method Admit(w: Environment, name: Name, l: Limiter, ghost me: nat) returns (ok: bool, ghost now: int)
      requires Valid() && name in limiters && limiters[name] == l
      modifies w, l
      ensures Valid() && w.log == old(w.log) + [Admitted(name, now, ok)] && w.done == old(w.done)
      ensures AllowDone(me, l.origin, old(l.history), old(l.owners), l.history, l.owners, now, ok)
      ensures Ledger(me) == Posted(limiters, old(Ledger(me)), [Admitted(name, now, ok)])
    {
      hide Greedy, Replay, Admissible, MineIn, TakenBy, SectionsOn;
      ok, now := l.Allow(me);
      w.Note(Admitted(name, now, ok));
      forall k | k in limiters.Values
        ensures k.Mine(me) == old(k.Mine(me)) + SectionsOn(NamesOf(limiters, k), [Admitted(name, now, ok)])
      {
        SectionsOfOne(NamesOf(limiters, k), name, now, ok);
      }
    }

    /** The retried call at an admitted target, and what its failure means for the chain. */
    method TryTarget(w: Environment, request: ChatRequest, target: Target, client: Client,
                     ghost admittedAt: Option<int>)
      returns (verdict: Verdict, ghost run: Run, ghost after: Option<Sentinel>)
      requires target.provider in providers && client == providers[target.provider]
      requires admittedAt.Some? <==> target.provider in limiters
      modifies w
      ensures VerdictOf(Snapshot(), target, Tried(target, client, admittedAt, run, after), verdict)
      ensures w.log == old(w.log) + TriedLog(request, target, client, run, after)
      ensures NothingAdmitted(TriedLog(request, target, client, run, after))
    {
      hide RunLog, RunError, IsRetryable, DelayAllowed, NewHTTPError;
      var err, response, attempts;
      err, response, attempts, run := Do(w, retry, client, CloneForTarget(request, target));
      RunAdmitsNothing(retry, client, CloneForTarget(request, target), run);
      after := None;
      if err.None? {
        return Answered(response.value, attempts), run, after;
      }
      var ctxErr := w.CtxErr();
      after := ctxErr;
      if ctxErr.Some? || Is(err.value, Canceled) || Is(err.value, DeadlineExceeded) {
        return Stop(err.value), run, after;
      }
      if !failover(err.value) {
        return Stop(err.value), run, after;
      }
      return FailOver(err.value), run, after;
    }

    /** One target of the chain: what Chat's loop does after its context check. */
    method VisitTarget(w: Environment, request: ChatRequest, target: Target, ghost me: nat)
      returns (verdict: Verdict, ghost v: Visit)
      requires Valid()
      modifies w, limiters.Values
      ensures Valid() && ValidVisit(Snapshot(), v.target, v) && VerdictOf(Snapshot(), target, v, verdict)
      ensures w.log == old(w.log) + VisitLog(Snapshot(), request, v)
      ensures Ledger(me) == Posted(limiters, old(Ledger(me)), VisitLog(Snapshot(), request, v))
    {
      hide Valid, Ledger, TriedLog, DelayAllowed, Decisive, RunError, NewHTTPError, IsContextError, AllowDone, Posted;
      ghost var ledger := Ledger(me);
      PostedNothing(limiters, ledger, []);
      var p, limiter := Lookup(target.provider);
      if p.None? {
        return FailOver(NotRegistered(target.provider)), Unregistered(target);
      }
      ghost var admittedAt: Option<int> := None;
      if limiter != null {
        var ok;
        ghost var now;
        ok, now := Admit(w, target.provider, limiter, me);
        if !ok {
          return FailOver(LocallyLimited(target.provider)), Limited(target, now);
        }
        admittedAt := Some(now);
      }
      assert Ledger(me) == Posted(limiters, ledger, AdmissionLog(target, admittedAt));
      ghost var run, after;
      verdict, run, after := TryTarget(w, request, target, p.value, admittedAt);
      v := Tried(target, p.value, admittedAt, run, after);
      ghost var tried := TriedLog(request, target, p.value, run, after);
      PostedConcat(limiters, ledger, AdmissionLog(target, admittedAt), tried);
      PostedNothing(limiters, Posted(limiters, ledger, AdmissionLog(target, admittedAt)), tried);
    }

    /**
      Whatever the world answers, Chat is a valid run over the resolved chain:
      its log is that run's log and its result that run's result, and its own
      sections on the limiters are exactly those its log notes.
     */
    method Chat(w: Environment, request: ChatRequest, ghost me: nat) returns (result: ChatResult, ghost run: ChatRun)
      requires Valid()
      modifies w, limiters.Values
      ensures Valid()
      ensures ChatDone(routes, fallback, Snapshot(), request, run, result, old(w.log), w.log,
                       limiters, old(Ledger(me)), Ledger(me))
      ensures old(w.done).Some? && HasChain(routes, fallback, request.model) ==> run == ChatRun([], old(w.done))
    {
      hide Valid, Ledger, Underway, Ended, ChatDone, ResolveIn, VisitLog, ValidVisit, VerdictOf, Posted;
      var route := Resolve(request.model);
      ghost var cfg, ledger, start := Snapshot(), Ledger(me), w.log;
      run := ChatRun([], None);
      if route.None? || |route.value.targets| == 0 {
        NoChain(routes, fallback, cfg, request, start, limiters, ledger);
        return Failed(NoRoute(request.model)), run;
      }
      var targets := route.value.targets;
      var failures: seq<TargetFailure> := [];
      ghost var visits: seq<Visit>, log: Log := [], [];
      Starts(cfg, request, targets, limiters, ledger);

      for i := 0 to |targets|
        invariant Valid() && |visits| == i && w.log == start + log
        invariant Underway(cfg, request, targets, visits, failures, log, limiters, ledger, Ledger(me))
        invariant old(w.done).Some? ==> i == 0 && visits == [] && w.done == old(w.done)
      {
        var ctxErr := w.CtxErr();
        if ctxErr.Some? {
          result, run := Failed(ContextError(ctxErr.value)), ChatRun(visits, ctxErr);
          Interrupts(cfg, request, targets, visits, failures, log, limiters, ledger, Ledger(me), ctxErr.value);
          log := log + [Polled(ctxErr)];
          assert w.log == start + log;
          EndedAnswers(routes, fallback, cfg, request, targets, run, result, start, log, limiters, ledger, Ledger(me));
          return;
        }
        ghost var before := Ledger(me);
        var verdict;
        ghost var v;
        verdict, v := VisitTarget(w, request, targets[i], me);
        Visits(cfg, request, targets, visits, failures, log, limiters, ledger, before, Ledger(me), v, verdict);
        log := log + [Polled(None)] + VisitLog(cfg, request, v);
        assert w.log == start + log;
        visits := visits + [v];
        if verdict.Answered? {
          result, run := Served(verdict.response, targets[i], verdict.attempts), ChatRun(visits, None);
          EndedAnswers(routes, fallback, cfg, request, targets, run, result, start, log, limiters, ledger, Ledger(me));
          return;
        }
        failures := failures + [TargetFailure(targets[i], verdict.error)];
        if verdict.Stop? {
          result, run := Failed(RouteError(request.model, failures)), ChatRun(visits, None);
          EndedAnswers(routes, fallback, cfg, request, targets, run, result, start, log, limiters, ledger, Ledger(me));
          return;
        }
      }
      result, run := Failed(RouteError(request.model, failures)), ChatRun(visits, None);
      Exhausts(cfg, request, targets, visits, failures, log, limiters, ledger, Ledger(me));
      EndedAnswers(routes, fallback, cfg, request, targets, run, result, start, log, limiters, ledger, Ledger(me));
    }
  }

  // Chat's loop, on values: how far it is, and the ways it goes on or ends.

  ghost predicate Underway(cfg: Config, request: ChatRequest, targets: seq<Target>, visits: seq<Visit>,
                           failures: seq<TargetFailure>, log: Log, limiters: map<Name, Limiter>,
                           ledger: map<Limiter, History>, ledger': map<Limiter, History>) {
    && PassedOver(cfg, targets, visits) && AllValid(cfg, visits)
    && failures == Failures(cfg, visits) && log == VisitsLog(cfg, request, visits)
    && ledger' == Posted(limiters, ledger, log)
  }

  ghost predicate Ended(cfg: Config, request: ChatRequest, targets: seq<Target>, run: ChatRun, result: ChatResult,
                        log: Log, limiters: map<Name, Limiter>,
                        ledger: map<Limiter, History>, ledger': map<Limiter, History>) {
    && ValidChat(cfg, targets, run) && AllValid(cfg, run.visits)
    && result == ResultOf(cfg, request.model, run) && log == ChatLog(cfg, request, run)
    && ledger' == Posted(limiters, ledger, log)
  }

  lemma EndedAnswers(routes: map<string, Route>, fallback: Route, cfg: Config, request: ChatRequest,
                     targets: seq<Target>, run: ChatRun, result: ChatResult, start: Log, log: Log,
                     limiters: map<Name, Limiter>, ledger: map<Limiter, History>, ledger': map<Limiter, History>)
    requires ResolveIn(routes, fallback, request.model) == Some(Route(targets)) && targets != []
    requires Ended(cfg, request, targets, run, result, log, limiters, ledger, ledger')
    ensures ChatDone(routes, fallback, cfg, request, run, result, start, start + log, limiters, ledger, ledger')
  {
    hide ValidChat, AllValid, ResultOf, ChatLog, Posted;
  }

  lemma NoChain(routes: map<string, Route>, fallback: Route, cfg: Config, request: ChatRequest, start: Log,
                limiters: map<Name, Limiter>, ledger: map<Limiter, History>)
    requires !HasChain(routes, fallback, request.model)
    ensures ChatDone(routes, fallback, cfg, request, ChatRun([], None), Failed(NoRoute(request.model)),
                     start, start, limiters, ledger, ledger)
  {
    NoVisits(cfg, request, []);
    PostedNothing(limiters, ledger, []);
    assert start + [] == start;
  }

  lemma Starts(cfg: Config, request: ChatRequest, targets: seq<Target>,
               limiters: map<Name, Limiter>, ledger: map<Limiter, History>)
    ensures Underway(cfg, request, targets, [], [], [], limiters, ledger, ledger)
  {
    NoVisits(cfg, request, targets);
    PostedNothing(limiters, ledger, []);
  }

  lemma Interrupts(cfg: Config, request: ChatRequest, targets: seq<Target>, visits: seq<Visit>,
                   failures: seq<TargetFailure>, log: Log, limiters: map<Name, Limiter>,
                   ledger: map<Limiter, History>, ledger': map<Limiter, History>, e: Sentinel)
    requires Underway(cfg, request, targets, visits, failures, log, limiters, ledger, ledger')
    requires |visits| < |targets|
    ensures Ended(cfg, request, targets, ChatRun(visits, Some(e)), Failed(ContextError(e)),
                  log + [Polled(Some(e))], limiters, ledger, ledger')
  {
    hide Posted, VisitsLog, PassedOver, Failures;
    PollPosts(limiters, ledger, log, Some(e));
  }

  lemma Visits(cfg: Config, request: ChatRequest, targets: seq<Target>, visits: seq<Visit>,
               failures: seq<TargetFailure>, log: Log, limiters: map<Name, Limiter>,
               ledger: map<Limiter, History>, before: map<Limiter, History>, after: map<Limiter, History>,
               v: Visit, verdict: Verdict)
    requires Underway(cfg, request, targets, visits, failures, log, limiters, ledger, before)
    requires |visits| < |targets| && VerdictOf(cfg, targets[|visits|], v, verdict)
    requires after == Posted(limiters, before, VisitLog(cfg, request, v))
    ensures var log' := log + [Polled(None)] + VisitLog(cfg, request, v);
      var visits' := visits + [v];
      match verdict
      case Answered(response, attempts) =>
        Ended(cfg, request, targets, ChatRun(visits', None), Served(response, targets[|visits|], attempts),
              log', limiters, ledger, after)
      case FailOver(e) =>
        Underway(cfg, request, targets, visits', failures + [TargetFailure(targets[|visits|], e)],
                 log', limiters, ledger, after)
      case Stop(e) =>
        Ended(cfg, request, targets, ChatRun(visits', None),
              Failed(RouteError(request.model, failures + [TargetFailure(targets[|visits|], e)])),
              log', limiters, ledger, after)
  {
    hide Posted, VisitsLog, VisitLog, ValidVisit, Decides, PassedOver, DecidedLast, Failures, VisitError;
    OneMoreVisit(cfg, request, targets, visits, v);
    PollPosts(limiters, ledger, log, None);
    PostedConcat(limiters, ledger, log + [Polled(None)], VisitLog(cfg, request, v));
  }

  lemma Exhausts(cfg: Config, request: ChatRequest, targets: seq<Target>, visits: seq<Visit>,
                 failures: seq<TargetFailure>, log: Log, limiters: map<Name, Limiter>,
                 ledger: map<Limiter, History>, ledger': map<Limiter, History>)
    requires Underway(cfg, request, targets, visits, failures, log, limiters, ledger, ledger')
    requires |visits| == |targets|
    ensures Ended(cfg, request, targets, ChatRun(visits, None), Failed(RouteError(request.model, failures)),
                  log, limiters, ledger, ledger')
  {
    hide Posted, VisitsLog, Failures, VisitError;
    AllFailed(cfg, targets, visits);
  }

  lemma PollPosts(limiters: map<Name, Limiter>, ledger: map<Limiter, History>, log: Log, seen: Option<Sentinel>)
    ensures Posted(limiters, ledger, log + [Polled(seen)]) == Posted(limiters, ledger, log)
  {
    hide Posted;
    PostedConcat(limiters, ledger, log, [Polled(seen)]);
    PostedNothing(limiters, Posted(limiters, ledger, log), [Polled(seen)]);
  }

  lemma AllFailed(cfg: Config, targets: seq<Target>, visits: seq<Visit>)
    requires PassedOver(cfg, targets, visits)
    ensures AllValid(cfg, visits) && forall v | v in visits :: VisitError(cfg, v).Some?
  {}
}
