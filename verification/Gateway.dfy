/**
  internal/gateway.Build: registering a client per configured backend and
  installing the routing table; and what that means for every later Chat.
 */
module Gateway {
  import opened Wrappers
  import opened Provider
  import opened Backoff
  import opened Retry
  import opened Routing
  import opened RoutingTheorems
  import opened Server

  /** The part of config.Config that Build reads; `pricesValid` is the verdict of the merged price table. */
  datatype Settings = Settings(
    anthropicAPIKey: string, openAIAPIKey: string,
    awsRegion: string, awsAccessKeyID: string, awsSecretAccessKey: string,
    routes: map<string, seq<Target>>, pricesValid: bool)

  datatype BuildError =
    | NoProvider
    | RouteTo(route: string, unregistered: Name)
    | BadPrices

  predicate HasBedrock(cfg: Settings) {
    cfg.awsRegion != "" && cfg.awsAccessKeyID != "" && cfg.awsSecretAccessKey != ""
  }

  /** The backends with credentials. */
  function Configured(cfg: Settings): set<Name> {
    (if cfg.anthropicAPIKey != "" then {ANTHROPIC} else {})
    + (if cfg.openAIAPIKey != "" then {OPENAI} else {})
    + (if HasBedrock(cfg) then {BEDROCK} else {})
  }

  /** The keys and secrets that a backend of this name needs are set. */
  predicate HasCredentials(cfg: Settings, p: Name) {
    || (p == "anthropic" && |cfg.anthropicAPIKey| > 0)
    || (p == "openai" && |cfg.openAIAPIKey| > 0)
    || (p == "bedrock" && |cfg.awsRegion| > 0 && |cfg.awsAccessKeyID| > 0 && |cfg.awsSecretAccessKey| > 0)
  }

  lemma ConfiguredIsCredentials(cfg: Settings)
    ensures forall p :: p in Configured(cfg) <==> HasCredentials(cfg, p)
    ensures Buildable(cfg) <==>
      && cfg.pricesValid && (exists p :: HasCredentials(cfg, p))
      && forall name, t | name in cfg.routes && t in cfg.routes[name] :: HasCredentials(cfg, t.provider)
  {
    forall p ensures p in Configured(cfg) <==> HasCredentials(cfg, p) {}
    if Configured(cfg) != {} {
      var p :| p in Configured(cfg);
      assert HasCredentials(cfg, p);
    }
    if Buildable(cfg) {
      forall name, t | name in cfg.routes && t in cfg.routes[name] ensures HasCredentials(cfg, t.provider) {
        assert RouteIsServed(cfg, name);
      }
    }
  }

  /** config.validate's rule for routes. */
  predicate Validated(cfg: Settings) {
    forall name | name in cfg.routes ::
      |cfg.routes[name]| > 0 && forall t | t in cfg.routes[name] :: t.provider != "" && t.model != ""
  }

  ghost predicate RouteIsServed(cfg: Settings, name: string)
    requires name in cfg.routes
  {
    forall t | t in cfg.routes[name] :: t.provider in Configured(cfg)
  }

  ghost predicate Buildable(cfg: Settings) {
    && Configured(cfg) != {} && cfg.pricesValid
    && forall name | name in cfg.routes :: RouteIsServed(cfg, name)
  }

  /** The routing table and the registrations Build leaves behind. */
  ghost predicate BuiltFrom(cfg: Settings, routes: map<string, Route>, fallback: Route, built: Config) {
    && routes.Keys == cfg.routes.Keys && (forall name | name in routes :: routes[name] == Route(cfg.routes[name]))
    && fallback == Route([])
    && built.providers.Keys == Configured(cfg) && built.limited == {}
    && built.policy == DEFAULT_POLICY && (forall e :: built.failover(e) == IsRetryable(e))
  }

  method RegisterConfigured(cfg: Settings, r: Router) returns (registered: set<Name>)
    requires r.Valid() && r.providers == map[]
    modifies r`providers
    ensures r.Valid() && registered == r.providers.Keys == Configured(cfg)
  {
    registered := {};
    if cfg.anthropicAPIKey != "" {
      r.Register(Client(ANTHROPIC, 0));
      registered := registered + {ANTHROPIC};
    }
    if cfg.openAIAPIKey != "" {
      r.Register(Client(OPENAI, 0));
      registered := registered + {OPENAI};
    }
    if cfg.awsRegion != "" && cfg.awsAccessKeyID != "" && cfg.awsSecretAccessKey != "" {
      r.Register(Client(BEDROCK, 0));
      registered := registered + {BEDROCK};
    }
  }

  /** One entry of the routing table, target by target. */
  method InstallRoute(r: Router, name: string, targets: seq<Target>, registered: set<Name>)
    returns (missing: Option<Name>)
    modifies r`routes
    ensures missing.None? ==>
      r.routes == old(r.routes)[name := Route(targets)] && forall t | t in targets :: t.provider in registered
    ensures missing.Some? ==>
      r.routes == old(r.routes) && missing.value !in registered
      && exists t | t in targets :: t.provider == missing.value
  {
    var chain := new Target[|targets|];
    for i := 0 to |targets|
      invariant r.routes == old(r.routes) && chain[..i] == targets[..i]
      invariant forall k | 0 <= k < i :: targets[k].provider in registered
    {
      if targets[i].provider !in registered {
        return Some(targets[i].provider);
      }
      chain[i] := targets[i];
    }
    assert chain[..] == targets;
    r.AddRoute(name, Route(chain[..]));
    return None;
  }

  /** Build succeeds exactly when some backend is configured, every route target is, and the prices are valid. */
  method Build(cfg: Settings) returns (r: Router, error: Option<BuildError>)
    ensures fresh(r) && r.Valid()
    ensures error.None? <==> Buildable(cfg)
    ensures error.None? ==> BuiltFrom(cfg, r.routes, r.fallback, r.Snapshot())
    ensures match error
      case None => true
      case Some(NoProvider) => Configured(cfg) == {}
      case Some(RouteTo(name, p)) =>
        name in cfg.routes && p !in Configured(cfg) && exists t | t in cfg.routes[name] :: t.provider == p
      case Some(BadPrices) => !cfg.pricesValid
    ensures error.None? <==>
      && cfg.pricesValid && (exists p :: HasCredentials(cfg, p))
      && forall name, t | name in cfg.routes && t in cfg.routes[name] :: HasCredentials(cfg, t.provider)
    ensures error.None? ==>
      && (forall p :: p in r.providers <==> HasCredentials(cfg, p))
      && r.retry == Policy(3, 200_000_000, 5_000_000_000, true) && r.limiters == map[] && r.fallback.targets == []
      && (forall name :: name in r.routes <==> name in cfg.routes)
      && (forall name | name in cfg.routes :: r.routes[name].targets == cfg.routes[name])
  {
    hide Configured, HasCredentials, IsRetryable;
    ConfiguredIsCredentials(cfg);
    r := new Router(DEFAULT_POLICY, e => IsRetryable(e));
    var registered := RegisterConfigured(cfg, r);
    if registered == {} {
      return r, Some(NoProvider);
    }
    var left := cfg.routes.Keys;
    while left != {}
      invariant left <= cfg.routes.Keys
      invariant r.routes.Keys == cfg.routes.Keys - left
      invariant forall name | name in r.routes :: r.routes[name] == Route(cfg.routes[name]) && RouteIsServed(cfg, name)
      invariant r.providers.Keys == Configured(cfg) && r.limiters == map[] && r.fallback == Route([]) && r.Valid()
      decreases left
    {
      var name :| name in left;   // map iteration order
      var missing := InstallRoute(r, name, cfg.routes[name], registered);
      if missing.Some? {
        assert !RouteIsServed(cfg, name);
        return r, Some(RouteTo(name, missing.value));
      }
      left := left - {name};
    }
    if !cfg.pricesValid {
      return r, Some(BadPrices);
    }
    assert forall name | name in cfg.routes :: name in r.routes;
    return r, None;
  }

  // ------------------------------------------------------------ the theorems

  /** A Chat failure that comes from a real run of provider attempts. */
  ghost predicate RealRun(cfg: Config, v: Visit) {
    && v.Tried? && v.admittedAt.None? && ValidRun(cfg.policy, v.run)
    && (v.run.outcomes == [] ==> v.run.ending.AtHead?)
  }

  /** The recorded failure is the error that retry.Do returned for that target. */
  ghost predicate RealFailure(cfg: Config, target: Target, v: Visit, failure: TargetFailure) {
    RealRun(cfg, v) && failure.target == target && RunError(v.run) == Some(failure.err)
  }

  /**
    On a freshly built router, a configured model resolves to its own non-empty
    chain, and whatever happens, no target is ever skipped as unregistered or
    locally rate limited: every recorded failure is that of a real retry run.
   */
  lemma BuiltRouterTriesEveryTarget(s: Settings, routes: map<string, Route>, fallback: Route, cfg: Config,
                                    model: string, run: ChatRun)
    requires Buildable(s) && Validated(s) && BuiltFrom(s, routes, fallback, cfg) && model in s.routes
    requires ValidChat(cfg, s.routes[model], run)
    ensures ResolveIn(routes, fallback, model) == Some(Route(s.routes[model])) && s.routes[model] != []
    ensures AllValid(cfg, run.visits)
    ensures forall i | 0 <= i < |run.visits| :: RealRun(cfg, run.visits[i])
    ensures match ResultOf(cfg, model, run)
      case Failed(RouteError(_, fs)) =>
        && |fs| == |run.visits| <= |s.routes[model]|
        && forall i | 0 <= i < |fs| :: RealFailure(cfg, s.routes[model][i], run.visits[i], fs[i])
      case _ => true
  {
    hide ValidVisit, ValidRun, RealRun, RealFailure, RunError, VisitError, Failures, ValidChat, Decides, IsRetryable;
    var targets := s.routes[model];
    ValidChatIsAllValid(cfg, targets, run);
    assert RouteIsServed(s, model);
    RouteErrorIsExact(cfg, targets, model, run);
    forall i | 0 <= i < |run.visits|
      ensures RealRun(cfg, run.visits[i]) && ValidVisit(cfg, targets[i], run.visits[i])
      ensures VisitError(cfg, run.visits[i]).Some? ==>
        RealFailure(cfg, targets[i], run.visits[i], TargetFailure(targets[i], VisitError(cfg, run.visits[i]).value))
    {
      assert targets[i] in targets;
      ServedByRealRun(cfg, targets[i], run.visits[i]);
    }
  }

  lemma ServedByRealRun(cfg: Config, target: Target, v: Visit)
    requires ValidVisit(cfg, target, v) && target.provider in cfg.providers && cfg.limited == {}
    ensures RealRun(cfg, v) && v.target == target
    ensures VisitError(cfg, v).Some? ==> RealFailure(cfg, target, v, TargetFailure(target, VisitError(cfg, v).value))
  {}

  /** A model without an entry of its own has no chain: a built router has no fallback. */
  lemma UnroutedHasNoChain(s: Settings, routes: map<string, Route>, fallback: Route, cfg: Config, model: string)
    requires BuiltFrom(s, routes, fallback, cfg) && Validated(s)
    ensures HasChain(routes, fallback, model) <==> model in s.routes
    ensures model in s.routes ==> ResolveIn(routes, fallback, model) == Some(Route(s.routes[model]))
  {}

  /**
    End to end on a built gateway: a failed Chat is answered "unknown_model"
    exactly when the model is not configured, and then nothing was contacted; and
    an exhausted chain answers "upstream_error" with the status of its last
    provider's own transient failure, or 502 where that had none.
   */
  lemma BuiltGatewayAnswers(s: Settings, routes: map<string, Route>, fallback: Route, cfg: Config,
                            model: string, run: ChatRun, result: ChatResult)
    requires Buildable(s) && Validated(s) && BuiltFrom(s, routes, fallback, cfg)
    requires ChatAnswers(routes, fallback, cfg, model, run, result) && AllValid(cfg, run.visits) && result.Failed?
    requires ProvidersConform(run.visits)
    ensures var answer := WriteChatError(result.error);
      && (answer.code.UnknownModel? <==> model !in s.routes)
      && (model !in s.routes ==> answer.status == 400 && run == ChatRun([], None))
      && (model in s.routes && run.interrupted.None? && !Decides(cfg, run.visits[|run.visits| - 1]) ==>
            answer.code.UpstreamError? && answer.status in {429, 500, 502, 503, 504, 529}
            && var last := run.visits[|run.visits| - 1];
               last.Tried? && RunError(last.run).Some? && IsRetryable(RunError(last.run).value)
               && var own := AsProviderError(RunError(last.run).value).value.status;
                  answer.status == if own != 0 then own else 502)
  {
    hide ValidVisit, ValidRun, RealFailure, Failures, ValidChat, Decides, BuiltFrom, Buildable, Validated;
    UnroutedHasNoChain(s, routes, fallback, cfg, model);
    if model !in s.routes {
      NoRouteIsUnknownModel(model);
    } else {
      ConfiguredAnswers(s, routes, fallback, cfg, model, run);
    }
  }

  lemma ConfiguredAnswers(s: Settings, routes: map<string, Route>, fallback: Route, cfg: Config,
                          model: string, run: ChatRun)
    requires Buildable(s) && Validated(s) && BuiltFrom(s, routes, fallback, cfg) && model in s.routes
    requires ValidChat(cfg, s.routes[model], run) && ResultOfFailed(cfg, model, run)
    requires ProvidersConform(run.visits)
    ensures s.routes[model] != [] && (run.interrupted.None? ==> run.visits != [])
    ensures var answer := WriteChatError(ResultOf(cfg, model, run).error);
      && !answer.code.UnknownModel?
      && (run.interrupted.None? && !Decides(cfg, run.visits[|run.visits| - 1]) ==>
            answer.code.UpstreamError? && answer.status in {429, 500, 502, 503, 504, 529}
            && var last := run.visits[|run.visits| - 1];
               last.Tried? && RunError(last.run).Some? && IsRetryable(RunError(last.run).value)
               && var own := AsProviderError(RunError(last.run).value).value.status;
                  answer.status == if own != 0 then own else 502)
  {
    hide ValidVisit, ValidRun, RealFailure, Failures, ValidChat, Decides, BuiltFrom, Buildable, Validated,
      ProvidersConform, ResolveIn, EndedByContext, IsRetryable, AsProviderError, WriteChatError, VisitError, RunError,
      IsContextError;
    BuiltRouterTriesEveryTarget(s, routes, fallback, cfg, model, run);
    var targets := s.routes[model];
    ContextCodesMeanContext(cfg, targets, model, run);
    RouteErrorIsExact(cfg, targets, model, run);
    if run.interrupted.None? && !Decides(cfg, run.visits[|run.visits| - 1]) {
      var last := run.visits[|run.visits| - 1];
      BuiltFailsOver(s, routes, fallback, cfg);
      TriedError(cfg, last);
      UndecidedIsTransient(cfg, last);
      UndecidedIsNoContextError(cfg, last);
      ExhaustionAnswersUpstream(cfg, targets, model, run);
      TransientStatus(model, Failures(cfg, run.visits));
    }
  }

  lemma TriedError(cfg: Config, v: Visit)
    requires ValidVisit(cfg, v.target, v) && v.Tried?
    ensures VisitError(cfg, v) == RunError(v.run)
  {}

  ghost predicate ResultOfFailed(cfg: Config, model: string, run: ChatRun) {
    AllValid(cfg, run.visits) && ResultOf(cfg, model, run).Failed?
  }

  lemma BuiltFailsOver(s: Settings, routes: map<string, Route>, fallback: Route, cfg: Config)
    requires BuiltFrom(s, routes, fallback, cfg)
    ensures forall e :: cfg.failover(e) == IsRetryable(e)
  {}
}
