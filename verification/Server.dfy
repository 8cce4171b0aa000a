/** How internal/server answers a failed Chat: writeChatError over error chains. */
module Server {
  import opened Wrappers
  import opened Provider
  import opened Retry
  import opened Routing
  import opened RoutingTheorems

  datatype Code = UpstreamTimeout | RequestCanceled | UpstreamError | UnknownModel

  datatype Answer = Answer(status: int, code: Code)

  function WriteChatError(err: Err): Answer {
    if Is(err, DeadlineExceeded) then Answer(504, UpstreamTimeout)
    else if Is(err, Canceled) then Answer(408, RequestCanceled)
    else if HasRouteError(err) then
      var found := AsProviderError(err);
      Answer(if found.Some? && found.value.status != 0 then found.value.status else 502, UpstreamError)
    else Answer(400, UnknownModel)
  }

  /**
    The answer to any error, from the errors of its tree: a deadline before a
    cancellation, either before anything else; for a failed chain, the status of
    the first provider error if it had a response, and 502 if not.
   */
  lemma AnswerIsExact(err: Err)
    ensures var all := Chain(err);
      WriteChatError(err) ==
        if SomeIs(all, DeadlineExceeded) then Answer(504, UpstreamTimeout)
        else if SomeIs(all, Canceled) then Answer(408, RequestCanceled)
        else if !SomeRoute(all) then Answer(400, UnknownModel)
        else match FirstOf(all)
             case Some(ProviderError(_, status, _, _, _, _)) =>
               Answer(if status == 0 then 502 else status, UpstreamError)
             case _ => Answer(502, UpstreamError)
  {
    FoundInChain(err, DeadlineExceeded);
    FoundInChain(err, Canceled);
  }

  /** A provider's own status is answered as it is, transient or not. */
  lemma OwnStatusIsAnswered(model: string, failures: seq<TargetFailure>, p: Name, status: int, code: string,
                            message: string)
    requires failures != [] && failures[|failures| - 1].err == NewHTTPError(p, status, code, message) && status != 0
    ensures WriteChatError(RouteError(model, failures)) == Answer(status, UpstreamError)
  {
    assert Unwrap(failures[|failures| - 1].err) == [];
    RouteErrorUnwraps(model, failures);
  }

  /** A RouteError answers as its last failure does, under its own name. */
  lemma RouteErrorUnwraps(model: string, failures: seq<TargetFailure>)
    requires failures != []
    ensures var e, last := RouteError(model, failures), failures[|failures| - 1].err;
      && (forall s :: Is(e, s) <==> Is(last, s))
      && AsProviderError(e) == AsProviderError(last)
      && HasRouteError(e)
  {
    var e, last := RouteError(model, failures), failures[|failures| - 1].err;
    assert Unwrap(e) == [last] && last in Unwrap(e);
    assert FirstProviderError(e, [last]) == AsProviderError(last) by {
      assert [last][0] == last && [last][1..] == [];
    }
  }

  /** The status of a RouteError whose last failure is transient. */
  lemma TransientStatus(model: string, failures: seq<TargetFailure>)
    requires failures != [] && IsRetryable(failures[|failures| - 1].err)
    requires !IsContextError(failures[|failures| - 1].err)
    ensures var found := AsProviderError(failures[|failures| - 1].err);
      && found.Some?
      && WriteChatError(RouteError(model, failures))
         == Answer(if found.value.status != 0 then found.value.status else 502, UpstreamError)
  {
    hide AsProviderError;
    RouteErrorUnwraps(model, failures);
  }

  /** Every failure that ends a chain before its last target, or without deciding, is no context error. */
  lemma UndecidedIsNoContextError(cfg: Config, v: Visit)
    requires ValidVisit(cfg, v.target, v) && !Decides(cfg, v)
    ensures VisitError(cfg, v).Some? && !IsContextError(VisitError(cfg, v).value)
  {
    if !v.Tried? {
      assert Unwrap(VisitError(cfg, v).value) == [];
    }
  }

  /** The providers' own errors come from the two constructors, however the adapters wrap them. */
  ghost predicate ProvidersConform(visits: seq<Visit>) {
    forall v, o | v in visits && v.Tried? && o in v.run.outcomes && o.Fault? :: FromConstructors(o.error)
  }

  lemma UndecidedIsConstructed(cfg: Config, visits: seq<Visit>, v: Visit)
    requires v in visits && ProvidersConform(visits)
    requires ValidVisit(cfg, v.target, v) && !Decides(cfg, v) && VisitError(cfg, v).Some?
    ensures FromConstructors(VisitError(cfg, v).value)
  {
    if v.Limited? {
      ConstructorsBuild(v.target.provider, 429, "rate_limited", "local rate limit exceeded", None);
    }
  }

  /**
    After a chain is exhausted under the default failover predicate, the answer
    is "upstream_error" with a transient status: 429 when the last target was
    rate limited here, 502 when it was not registered.
   */
  lemma ExhaustionAnswersUpstream(cfg: Config, targets: seq<Target>, model: string, run: ChatRun)
    requires ValidChat(cfg, targets, run) && AllValid(cfg, run.visits) && targets != []
    requires run.interrupted.None? && !Decides(cfg, run.visits[|run.visits| - 1])
    requires forall e :: cfg.failover(e) == IsRetryable(e)
    requires ProvidersConform(run.visits)
    ensures ResultOf(cfg, model, run).Failed?
    ensures var answer := WriteChatError(ResultOf(cfg, model, run).error);
      && answer.code == UpstreamError && answer.status in {429, 500, 502, 503, 504, 529}
      && var v := run.visits[|run.visits| - 1];
         (v.Limited? ==> answer.status == 429) && (v.Unregistered? ==> answer.status == 502)
  {
    RouteErrorIsExact(cfg, targets, model, run);
    var v := run.visits[|run.visits| - 1];
    UndecidedIsNoContextError(cfg, v);
    var err := VisitError(cfg, v).value;
    RouteErrorUnwraps(model, Failures(cfg, run.visits));
    UndecidedIsConstructed(cfg, run.visits, v);
    FoundIsConstructed(err);
    UndecidedIsTransient(cfg, v);
  }

  /** A target that failed with a context error is one that was given up for the context. */
  lemma EndsOnContextError(cfg: Config, v: Visit)
    requires ValidVisit(cfg, v.target, v) && VisitError(cfg, v).Some?
    ensures IsContextError(VisitError(cfg, v).value)
      <==> v.Tried? && Decides(cfg, v) && RunError(v.run).Some? && IsContextError(RunError(v.run).value)
  {
    if !v.Tried? {
      UndecidedIsNoContextError(cfg, v);
    }
  }

  lemma UndecidedIsTransient(cfg: Config, v: Visit)
    requires ValidVisit(cfg, v.target, v) && !Decides(cfg, v)
    requires forall e :: cfg.failover(e) == IsRetryable(e)
    ensures VisitError(cfg, v).Some?
    ensures IsRetryable(VisitError(cfg, v).value)
      || (v.Unregistered? && AsProviderError(VisitError(cfg, v).value).None?)
  {
    if v.Unregistered? {
      assert Unwrap(VisitError(cfg, v).value) == [];
    }
  }

  /** The last target was given up for the context: its error is a context error. */
  ghost predicate EndedByContext(cfg: Config, run: ChatRun)
    requires AllValid(cfg, run.visits)
  {
    || run.interrupted.Some?
    || (run.visits != []
        && var v := run.visits[|run.visits| - 1];
           v.Tried? && Decides(cfg, v) && RunError(v.run).Some? && IsContextError(RunError(v.run).value))
  }

  /**
    "upstream_timeout" and "request_canceled" answer exactly the runs that ended
    early on a context error, and "upstream_error" every other failed run;
    "unknown_model" is left to requests without a route.
   */
  lemma ContextCodesMeanContext(cfg: Config, targets: seq<Target>, model: string, run: ChatRun)
    requires ValidChat(cfg, targets, run) && AllValid(cfg, run.visits) && targets != []
    requires ResultOf(cfg, model, run).Failed?
    ensures var code := WriteChatError(ResultOf(cfg, model, run).error).code;
      if EndedByContext(cfg, run) then code.UpstreamTimeout? || code.RequestCanceled? else code.UpstreamError?
    ensures run.interrupted.Some? ==>
      WriteChatError(ResultOf(cfg, model, run).error)
        == if run.interrupted.value.Canceled? then Answer(408, RequestCanceled) else Answer(504, UpstreamTimeout)
  {
    hide ValidChat, Failures, ValidVisit, ValidRun, AsProviderError, Is, RunError, Decides;
    RouteErrorIsExact(cfg, targets, model, run);
    if run.interrupted.Some? {
      ContextErrorIs(run.interrupted.value, Canceled);
      ContextErrorIs(run.interrupted.value, DeadlineExceeded);
    } else {
      var v := run.visits[|run.visits| - 1];
      RouteErrorUnwraps(model, Failures(cfg, run.visits));
      EndsOnContextError(cfg, v);
    }
  }

  lemma NoRouteIsUnknownModel(model: string)
    ensures WriteChatError(NoRoute(model)) == Answer(400, UnknownModel)
  {
    assert Unwrap(NoRoute(model)) == [];
  }
}
