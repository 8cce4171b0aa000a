/**
  What every Chat run guarantees, whatever the providers, limiters, clock and
  context answered.
 */
module RoutingTheorems {
  import opened Wrappers
  import opened Provider
  import opened World
  import opened Backoff
  import opened Retry
  import opened Routing

  // ------------------------------------------- the first decisive target

  /** The failure log is order-exact: entry i is target i of the chain and why it did not serve. */
  lemma {:induction false} FailuresInChainOrder(cfg: Config, targets: seq<Target>, visits: seq<Visit>)
    requires AllValid(cfg, visits) && |visits| <= |targets|
    requires forall i | 0 <= i < |visits| :: ValidVisit(cfg, targets[i], visits[i]) && VisitError(cfg, visits[i]).Some?
    ensures var fs := Failures(cfg, visits);
      && |fs| == |visits|
      && forall i | 0 <= i < |fs| :: fs[i] == TargetFailure(targets[i], VisitError(cfg, visits[i]).value)
  {
    hide ValidVisit, VisitError;
    if visits != [] {
      assert visits[|visits| - 1].target == targets[|visits| - 1] by {
        SameTarget(cfg, targets[|visits| - 1], visits[|visits| - 1]);
      }
      FailuresInChainOrder(cfg, targets, visits[..|visits| - 1]);
    }
  }

  lemma SameTarget(cfg: Config, target: Target, v: Visit)
    requires ValidVisit(cfg, target, v)
    ensures v.target == target
  {}

  /**
    A RouteError names each visited target exactly once, in chain order; when
    none decided, every target of the chain.
   */
  lemma RouteErrorIsExact(cfg: Config, targets: seq<Target>, model: string, run: ChatRun)
    requires ValidChat(cfg, targets, run) && AllValid(cfg, run.visits) && targets != []
    ensures match ResultOf(cfg, model, run)
      case Failed(RouteError(m, fs)) =>
        && m == model && run.interrupted.None? && |fs| == |run.visits| && fs != []
        && (forall i | 0 <= i < |fs| ::
              && VisitError(cfg, run.visits[i]).Some?
              && fs[i] == TargetFailure(targets[i], VisitError(cfg, run.visits[i]).value))
        && (!Decides(cfg, run.visits[|fs| - 1]) ==> |fs| == |targets|)
      case Failed(e) => run.interrupted.Some? && e == ContextError(run.interrupted.value)
      case Served(response, t, attempts) =>
        && run.interrupted.None? && run.visits != [] && t == targets[|run.visits| - 1]
        && var last := run.visits[|run.visits| - 1];
           last.Tried? && 1 <= attempts == |last.run.outcomes| <= Max(1, cfg.policy.maxAttempts)
           && last.run.outcomes[attempts - 1] == Reply(response)
  {
    hide ValidVisit, Failures, VisitError, Decides, PassedOver;
    ValidChatIsAllValid(cfg, targets, run);
    var n := |run.visits|;
    if run.interrupted.None? {
      forall i | 0 <= i < n && (i < n - 1 || VisitError(cfg, run.visits[i]).Some?)
        ensures VisitError(cfg, run.visits[i]).Some?
      {
        if i < n - 1 {
          PassedOverFails(cfg, targets[i], run.visits[i]);
        }
      }
      PassedOverEnds(cfg, targets, run);
      if VisitError(cfg, run.visits[n - 1]).Some? {
        FailuresInChainOrder(cfg, targets, run.visits);
      } else {
        ServedAttempts(cfg, targets[n - 1], run.visits[n - 1]);
      }
    }
  }

  lemma PassedOverFails(cfg: Config, target: Target, v: Visit)
    requires ValidVisit(cfg, target, v) && !Decides(cfg, v)
    ensures VisitError(cfg, v).Some?
  {}

  lemma PassedOverEnds(cfg: Config, targets: seq<Target>, run: ChatRun)
    requires ValidChat(cfg, targets, run) && AllValid(cfg, run.visits) && targets != [] && run.interrupted.None?
    ensures run.visits != [] && |run.visits| <= |targets|
    ensures Decides(cfg, run.visits[|run.visits| - 1]) || |run.visits| == |targets|
  {}

  lemma ServedAttempts(cfg: Config, target: Target, v: Visit)
    requires ValidVisit(cfg, target, v) && VisitError(cfg, v).None?
    ensures v.Tried? && v.target == target && 1 <= |v.run.outcomes| <= Attempts(cfg.policy)
    ensures v.run.outcomes[|v.run.outcomes| - 1].Reply?
  {}

  // ------------------------------------------------- one target, exactly

  /** What a visit means, case by case, with its error and everything it does. */
  lemma VisitIsExact(cfg: Config, request: ChatRequest, target: Target, v: Visit)
    requires ValidVisit(cfg, target, v)
    ensures var p, log, err := target.provider, VisitLog(cfg, request, v), VisitError(cfg, v);
      match v
      case Unregistered(t) =>
        && t == target && p !in cfg.providers && log == []
        && err == Some(Plain("provider \"" + p + "\" is not registered", {}))
      case Limited(t, now) =>
        && t == target && p in cfg.providers && p in cfg.limited && log == [Admitted(p, now, false)]
        && err == Some(ProviderError(p, 429, "rate_limited", "local rate limit exceeded", true, None))
      case Tried(t, client, at, run, after) =>
        && t == target && p in cfg.providers && client == cfg.providers[p] && (at.Some? <==> p in cfg.limited)
        && ValidRun(cfg.policy, run) && err == RunError(run)
        && log == (if at.Some? then [Admitted(p, at.value, true)] else [])
                  + RunLog(client, request.(model := target.model), run)
                  + (if err.Some? then [Polled(after)] else [])
  {
    hide RunLog, DelayAllowed, Decisive;
  }

  /**
    The failures that the next target may mend: the target was not there, was
    rate limited here, or failed with an error that the failover predicate
    accepts, that is no context error, while the context was alive.
   */
  ghost predicate PassesOn(cfg: Config, v: Visit)
    requires ValidVisit(cfg, v.target, v)
  {
    v.Tried? ==>
      && RunError(v.run).Some? && v.after.None?
      && var e := RunError(v.run).value;
         !Is(e, Canceled) && !Is(e, DeadlineExceeded) && cfg.failover(e)
  }

  /** Chat goes on to the next target after exactly these failures, and stops after everything else. */
  lemma ChatGoesOnExactly(cfg: Config, targets: seq<Target>, run: ChatRun)
    requires ValidChat(cfg, targets, run) && AllValid(cfg, run.visits)
    ensures forall i | 0 <= i < |run.visits| - 1 :: PassesOn(cfg, run.visits[i])
    ensures run.interrupted.None? && |run.visits| < |targets| ==>
      run.visits != [] && !PassesOn(cfg, run.visits[|run.visits| - 1])
    ensures run.interrupted.Some? ==>
      |run.visits| < |targets| && forall v | v in run.visits :: PassesOn(cfg, v)
  {
    hide ValidVisit, Decides, PassesOn;
    ValidChatIsAllValid(cfg, targets, run);
    forall v | v in run.visits ensures Decides(cfg, v) <==> !PassesOn(cfg, v) {
      DecidesIsNotPassing(cfg, v);
    }
  }

  lemma DecidesIsNotPassing(cfg: Config, v: Visit)
    requires ValidVisit(cfg, v.target, v)
    ensures Decides(cfg, v) <==> !PassesOn(cfg, v)
  {
    hide RunError, DelayAllowed, Decisive;
  }

  /** What each target of the chain would come to, were it reached. */
  ghost predicate ValidPlan(cfg: Config, targets: seq<Target>, plan: seq<Visit>) {
    |plan| == |targets| && forall i | 0 <= i < |plan| :: ValidVisit(cfg, targets[i], plan[i])
  }

  /** How many targets the "first decisive target" rule visits, from target k on. */
  ghost function VisitedFrom(cfg: Config, targets: seq<Target>, plan: seq<Visit>, k: nat): nat
    requires ValidPlan(cfg, targets, plan) && k <= |plan|
    decreases |plan| - k
  {
    if k == |plan| then k
    else if Decides(cfg, plan[k]) then k + 1
    else VisitedFrom(cfg, targets, plan, k + 1)
  }

  lemma {:induction false} VisitedFromPassesOver(cfg: Config, targets: seq<Target>, plan: seq<Visit>, k: nat, n: nat)
    requires ValidPlan(cfg, targets, plan) && k <= n <= |plan|
    requires forall i | k <= i < n :: !Decides(cfg, plan[i])
    ensures n <= VisitedFrom(cfg, targets, plan, k) <= |plan|
    ensures n == |plan| || (n < |plan| && Decides(cfg, plan[n]))
      ==> VisitedFrom(cfg, targets, plan, k) == if n == |plan| then n else n + 1
    decreases |plan| - k
  {
    if k < n {
      VisitedFromPassesOver(cfg, targets, plan, k + 1, n);
    } else if k < |plan| && !Decides(cfg, plan[k]) {
      VisitedFromPassesOver(cfg, targets, plan, k + 1, k + 1);
    }
  }

  /**
    Chat is the "first decisive target" rule: of any plan, an uninterrupted run
    is exactly the part up to the first decisive target, and an interrupted one
    ends before it.
   */
  lemma ChatStopsAtFirstDecisive(cfg: Config, targets: seq<Target>, plan: seq<Visit>, run: ChatRun)
    requires ValidPlan(cfg, targets, plan) && ValidChat(cfg, targets, run)
    requires run.visits <= plan
    ensures var visited := VisitedFrom(cfg, targets, plan, 0);
      visited <= |plan| &&
      if run.interrupted.None? then run.visits == plan[..visited]
      else |run.visits| <= visited && forall i | 0 <= i < |run.visits| :: !Decides(cfg, plan[i])
  {
    ValidChatIsAllValid(cfg, targets, run);
    var n := |run.visits|;
    assert forall i | 0 <= i < n :: run.visits[i] == plan[i];
    if run.interrupted.None? && DecidedLast(cfg, targets, run.visits) {
      VisitedFromPassesOver(cfg, targets, plan, 0, n - 1);
    } else {
      VisitedFromPassesOver(cfg, targets, plan, 0, n);
    }
  }

  /**
    A target that would serve is reached and serves the request, when each one
    before it fails in a way that the next may mend.
   */
  lemma FirstHealthyServes(cfg: Config, targets: seq<Target>, plan: seq<Visit>, run: ChatRun, model: string, k: nat)
    requires ValidPlan(cfg, targets, plan) && ValidChat(cfg, targets, run) && AllValid(cfg, run.visits)
    requires run.visits <= plan && run.interrupted.None?
    requires k < |plan| && forall i | 0 <= i < k :: ValidVisit(cfg, plan[i].target, plan[i]) && PassesOn(cfg, plan[i])
    requires plan[k].Tried? && plan[k].run.ending.Finished? && plan[k].run.outcomes != []
    requires plan[k].run.outcomes[|plan[k].run.outcomes| - 1].Reply?
    ensures run.visits == plan[..k + 1]
    ensures var outcomes := plan[k].run.outcomes;
      ResultOf(cfg, model, run) == Served(outcomes[|outcomes| - 1].response, targets[k], |outcomes|)
  {
    hide PassesOn, PassedOver, DecidedLast, IsContextError;
    forall i | 0 <= i < k ensures !Decides(cfg, plan[i]) {
      DecidesIsNotPassing(cfg, plan[i]);
    }
    VisitedFromPassesOver(cfg, targets, plan, 0, k);
    ChatStopsAtFirstDecisive(cfg, targets, plan, run);
    assert Decides(cfg, plan[k]);
  }

  // ---------------------------------------------------- counting in a log

  predicate IsCall(ps: set<Name>, e: Event) {
    e.Called? && e.client.name in ps
  }

  predicate IsAdmission(ps: set<Name>, e: Event) {
    e.Admitted? && e.limited in ps && e.granted
  }

  /** Calls made to providers of these names. */
  function Calls(ps: set<Name>, log: Log): nat {
    if log == [] then 0 else Calls(ps, log[..|log| - 1]) + (if IsCall(ps, log[|log| - 1]) then 1 else 0)
  }

  /** Tokens taken under these names. */
  function Admissions(ps: set<Name>, log: Log): nat {
    if log == [] then 0 else Admissions(ps, log[..|log| - 1]) + (if IsAdmission(ps, log[|log| - 1]) then 1 else 0)
  }

  lemma {:induction false} CountsConcat(ps: set<Name>, a: Log, b: Log)
    ensures Calls(ps, a + b) == Calls(ps, a) + Calls(ps, b)
    ensures Admissions(ps, a + b) == Admissions(ps, a) + Admissions(ps, b)
  {
    if b == [] {
      assert a + b == a;
    } else {
      assert (a + b)[..|a + b| - 1] == a + b[..|b| - 1];
      CountsConcat(ps, a, b[..|b| - 1]);
    }
  }

  lemma CountsOfPrefix(ps: set<Name>, log: Log, j: nat)
    requires j <= |log|
    ensures Calls(ps, log[..j]) <= Calls(ps, log)
  {
    assert log == log[..j] + log[j..];
    CountsConcat(ps, log[..j], log[j..]);
  }

  lemma CountOne(ps: set<Name>, e: Event)
    ensures Calls(ps, [e]) == if IsCall(ps, e) then 1 else 0
    ensures Admissions(ps, [e]) == if IsAdmission(ps, e) then 1 else 0
  {
    assert [e][..0] == [];
  }

  lemma AttemptCounts(ps: set<Name>, client: Client, request: ChatRequest, o: Outcome)
    ensures Calls(ps, AttemptLog(client, request, o)) == if client.name in ps then 1 else 0
    ensures Admissions(ps, AttemptLog(client, request, o)) == 0
  {
    CountOne(ps, Polled(None));
    CountOne(ps, Called(client, request));
    CountOne(ps, Returned(o));
    CountsConcat(ps, [Polled(None)], [Called(client, request)]);
    CountsConcat(ps, [Polled(None)] + [Called(client, request)], [Returned(o)]);
    assert AttemptLog(client, request, o) == [Polled(None)] + [Called(client, request)] + [Returned(o)];
  }

  lemma {:induction false} TurnsCounts(ps: set<Name>, client: Client, request: ChatRequest,
                                       outcomes: seq<Outcome>, delays: seq<int>)
    requires |outcomes| == |delays|
    ensures Calls(ps, TurnsLog(client, request, outcomes, delays)) == if client.name in ps then |outcomes| else 0
    ensures Admissions(ps, TurnsLog(client, request, outcomes, delays)) == 0
  {
    hide Calls, Admissions, AttemptLog;
    if outcomes == [] {
      NoEvents(ps);
    } else {
      var n := |outcomes| - 1;
      var before := TurnsLog(client, request, outcomes[..n], delays[..n]);
      var attempt := AttemptLog(client, request, outcomes[n]);
      TurnsCounts(ps, client, request, outcomes[..n], delays[..n]);
      AttemptCounts(ps, client, request, outcomes[n]);
      CountsConcat(ps, before, attempt);
      CountsConcat(ps, before + attempt, NapLog(delays[n]));
      CountOne(ps, Slept(delays[n], None));
      NoEvents(ps);
    }
  }

  lemma NoEvents(ps: set<Name>)
    ensures Calls(ps, []) == 0 && Admissions(ps, []) == 0
  {}

  /** A retry run calls its own client once per outcome, and no limiter. */
  lemma RunCounts(ps: set<Name>, client: Client, request: ChatRequest, policy: Policy, run: Run)
    requires ValidRun(policy, run)
    ensures Calls(ps, RunLog(client, request, run)) == if client.name in ps then |run.outcomes| else 0
    ensures Admissions(ps, RunLog(client, request, run)) == 0
  {
    hide Calls, Admissions, AttemptLog, TurnsLog;
    var n := |run.outcomes| - 1;
    match run.ending {
      case AtHead(e) =>
        TurnsCounts(ps, client, request, run.outcomes, run.delays);
        CountOne(ps, Polled(Some(e)));
        CountsConcat(ps, TurnsLog(client, request, run.outcomes, run.delays), [Polled(Some(e))]);
      case Finished =>
        var turns := TurnsLog(client, request, run.outcomes[..n], run.delays);
        TurnsCounts(ps, client, request, run.outcomes[..n], run.delays);
        AttemptCounts(ps, client, request, run.outcomes[n]);
        CountsConcat(ps, turns, AttemptLog(client, request, run.outcomes[n]));
      case InSleep(e) =>
        var turns := TurnsLog(client, request, run.outcomes[..n], run.delays[..n]);
        TurnsCounts(ps, client, request, run.outcomes[..n], run.delays[..n]);
        AttemptCounts(ps, client, request, run.outcomes[n]);
        CountsConcat(ps, turns, AttemptLog(client, request, run.outcomes[n]));
        CountOne(ps, Slept(run.delays[n], Some(e)));
        CountsConcat(ps, turns + AttemptLog(client, request, run.outcomes[n]), [Slept(run.delays[n], Some(e))]);
    }
  }

  /** The counts of one visit: at most a full retry run, behind one token when its provider is limited. */
  lemma VisitCounts(cfg: Config, request: ChatRequest, ps: set<Name>, v: Visit)
    requires ValidVisit(cfg, v.target, v)
    requires forall n | n in cfg.providers :: cfg.providers[n].name == n
    ensures var log := VisitLog(cfg, request, v);
      && Calls(ps, log) <= (if v.Tried? && v.target.provider in ps then Max(1, cfg.policy.maxAttempts) else 0)
      && Admissions(ps, log) == if v.Tried? && v.target.provider in ps && v.target.provider in cfg.limited then 1 else 0
  {
    hide Calls, Admissions, RunLog;
    NoEvents(ps);
    match v {
      case Unregistered(_) =>
      case Limited(t, now) => CountOne(ps, Admitted(t.provider, now, false));
      case Tried(t, client, admittedAt, run, after) =>
        TriedCounts(cfg, request, ps, v);
        CountsConcat(ps, AdmissionLog(t, admittedAt), TriedLog(request, t, client, run, after));
        if admittedAt.Some? {
          CountOne(ps, Admitted(t.provider, admittedAt.value, true));
        }
    }
  }

  lemma TriedCounts(cfg: Config, request: ChatRequest, ps: set<Name>, v: Visit)
    requires ValidVisit(cfg, v.target, v) && v.Tried?
    requires forall n | n in cfg.providers :: cfg.providers[n].name == n
    ensures var log := TriedLog(request, v.target, v.client, v.run, v.after);
      && Calls(ps, log) <= (if v.target.provider in ps then Attempts(cfg.policy) else 0)
      && Admissions(ps, log) == 0
  {
    hide Calls, Admissions, RunLog;
    NoEvents(ps);
    RunCounts(ps, v.client, CloneForTarget(request, v.target), cfg.policy, v.run);
    CountOne(ps, Polled(v.after));
    CountsConcat(ps, RunLog(v.client, CloneForTarget(request, v.target), v.run), [Polled(v.after)]);
    CountsConcat(ps, RunLog(v.client, CloneForTarget(request, v.target), v.run), []);
  }

  // -------------------------------------------- one token, one retry run

  ghost predicate Metered(cfg: Config, ps: set<Name>, log: Log) {
    Calls(ps, log) <= Max(1, cfg.policy.maxAttempts) * Admissions(ps, log)
  }

  /** At every point of a visit, the calls to a limited provider are covered by the tokens taken. */
  lemma VisitIsMetered(cfg: Config, request: ChatRequest, ps: set<Name>, v: Visit, j: nat)
    requires ValidVisit(cfg, v.target, v) && ps <= cfg.limited
    requires forall n | n in cfg.providers :: cfg.providers[n].name == n
    requires j <= |VisitLog(cfg, request, v)|
    ensures Metered(cfg, ps, VisitLog(cfg, request, v)[..j])
  {
    hide Calls, Admissions, ValidVisit, VisitLog, Max;
    var log := VisitLog(cfg, request, v);
    VisitCounts(cfg, request, ps, v);
    CountsOfPrefix(ps, log, j);
    NoEvents(ps);
    if j == 0 {
      assert log[..j] == [];
    } else if v.Tried? && v.target.provider in ps {
      LimitedIsAdmittedFirst(cfg, request, v);
      assert log[..j] == [log[0]] + log[1..j];
      CountOne(ps, log[0]);
      CountsConcat(ps, [log[0]], log[1..j]);
      Covers(Attempts(cfg.policy), Admissions(ps, log[..j]));
    } else {
      assert 0 <= Attempts(cfg.policy) * Admissions(ps, log[..j]);
    }
  }

  lemma Covers(attempts: nat, tokens: nat)
    requires 1 <= tokens
    ensures attempts <= attempts * tokens
  {}

  lemma LimitedIsAdmittedFirst(cfg: Config, request: ChatRequest, v: Visit)
    requires ValidVisit(cfg, v.target, v) && v.Tried? && v.target.provider in cfg.limited
    ensures var log := VisitLog(cfg, request, v); log != [] && IsAdmission({v.target.provider}, log[0])
  {}

  lemma MeteredConcat(cfg: Config, ps: set<Name>, a: Log, b: Log)
    requires Metered(cfg, ps, a) && Metered(cfg, ps, b)
    ensures Metered(cfg, ps, a + b)
  {
    hide Calls, Admissions;
    CountsConcat(ps, a, b);
  }

  lemma PollIsMetered(cfg: Config, ps: set<Name>, seen: Option<Sentinel>)
    ensures Metered(cfg, ps, [Polled(seen)]) && Metered(cfg, ps, [])
  {
    CountOne(ps, Polled(seen));
  }

  lemma {:induction false} VisitsAreMetered(cfg: Config, request: ChatRequest, ps: set<Name>,
                                            visits: seq<Visit>, j: nat)
    requires AllValid(cfg, visits) && ps <= cfg.limited
    requires forall n | n in cfg.providers :: cfg.providers[n].name == n
    requires j <= |VisitsLog(cfg, request, visits)|
    ensures Metered(cfg, ps, VisitsLog(cfg, request, visits)[..j])
  {
    hide Metered, VisitLog, ValidVisit;
    PollIsMetered(cfg, ps, None);
    var log := VisitsLog(cfg, request, visits);
    if visits == [] {
      assert log[..j] == [];
    } else {
      var v := visits[|visits| - 1];
      var before := VisitsLog(cfg, request, visits[..|visits| - 1]);
      if j <= |before| {
        VisitsAreMetered(cfg, request, ps, visits[..|visits| - 1], j);
        assert log[..j] == before[..j];
      } else {
        VisitsAreMetered(cfg, request, ps, visits[..|visits| - 1], |before|);
        assert before[..|before|] == before;
        var rest := j - |before| - 1;
        assert log[..j] == before + [Polled(None)] + VisitLog(cfg, request, v)[..rest];
        VisitIsMetered(cfg, request, ps, v, rest);
        MeteredConcat(cfg, ps, before, [Polled(None)]);
        MeteredConcat(cfg, ps, before + [Polled(None)], VisitLog(cfg, request, v)[..rest]);
      }
    }
  }

  /** At every point of a Chat, one token bounds the whole retry run behind it. */
  lemma ChatIsMetered(cfg: Config, request: ChatRequest, ps: set<Name>, run: ChatRun, j: nat)
    requires AllValid(cfg, run.visits) && ps <= cfg.limited
    requires forall n | n in cfg.providers :: cfg.providers[n].name == n
    requires j <= |ChatLog(cfg, request, run)|
    ensures Metered(cfg, ps, ChatLog(cfg, request, run)[..j])
  {
    hide Metered;
    var log, before := ChatLog(cfg, request, run), VisitsLog(cfg, request, run.visits);
    if j <= |before| {
      assert log[..j] == before[..j];
      VisitsAreMetered(cfg, request, ps, run.visits, j);
    } else {
      assert log[..j] == before + [Polled(run.interrupted)] && before == before[..|before|];
      VisitsAreMetered(cfg, request, ps, run.visits, |before|);
      PollIsMetered(cfg, ps, run.interrupted);
      MeteredConcat(cfg, ps, before, [Polled(run.interrupted)]);
    }
  }

  /** The calls of a window: covered by its tokens, but for what one visit under way still owes. */
  ghost predicate Covered(cfg: Config, ps: set<Name>, owed: nat, log: Log) {
    Calls(ps, log) <= Attempts(cfg.policy) * (owed + Admissions(ps, log))
  }

  lemma CoveredThenMetered(cfg: Config, ps: set<Name>, owed: nat, a: Log, b: Log)
    requires Covered(cfg, ps, owed, a) && Metered(cfg, ps, b)
    ensures Covered(cfg, ps, owed, a + b)
  {
    hide Calls, Admissions, Attempts;
    CountsConcat(ps, a, b);
    Distributes(Attempts(cfg.policy), owed, Admissions(ps, a), Admissions(ps, b));
  }

  lemma Distributes(n: nat, x: nat, y: nat, z: nat)
    ensures n * (x + y) + n * z == n * (x + (y + z))
  {}

  lemma MeteredIsCovered(cfg: Config, ps: set<Name>, log: Log)
    ensures Metered(cfg, ps, log) <==> Covered(cfg, ps, 0, log)
  {}

  lemma VisitWindow(cfg: Config, request: ChatRequest, ps: set<Name>, v: Visit, i: nat, j: nat)
    requires ValidVisit(cfg, v.target, v)
    requires forall n | n in cfg.providers :: cfg.providers[n].name == n
    requires i <= j <= |[Polled(None)] + VisitLog(cfg, request, v)|
    ensures Covered(cfg, ps, 1, ([Polled(None)] + VisitLog(cfg, request, v))[i..j])
  {
    hide Calls, Admissions, ValidVisit, VisitLog, Attempts;
    var log := [Polled(None)] + VisitLog(cfg, request, v);
    VisitCounts(cfg, request, ps, v);
    CountOne(ps, Polled(None));
    CountsConcat(ps, [Polled(None)], VisitLog(cfg, request, v));
    CountsOfPrefix(ps, log, j);
    assert log[..j] == log[..i] + log[i..j];
    CountsConcat(ps, log[..i], log[i..j]);
    Covers(Attempts(cfg.policy), 1 + Admissions(ps, log[i..j]));
  }

  lemma {:induction false} VisitsWindow(cfg: Config, request: ChatRequest, ps: set<Name>, visits: seq<Visit>,
                                        i: nat, j: nat)
    requires AllValid(cfg, visits) && ps <= cfg.limited
    requires forall n | n in cfg.providers :: cfg.providers[n].name == n
    requires i <= j <= |VisitsLog(cfg, request, visits)|
    ensures Covered(cfg, ps, 1, VisitsLog(cfg, request, visits)[i..j])
  {
    hide Metered, Covered, VisitLog, ValidVisit;
    var log := VisitsLog(cfg, request, visits);
    if visits == [] {
      assert log[i..j] == [];
      NothingIsCovered(cfg, ps);
    } else {
      var n := |visits| - 1;
      var before, part := VisitsLog(cfg, request, visits[..n]), [Polled(None)] + VisitLog(cfg, request, visits[n]);
      assert log == before + part;
      if j <= |before| {
        VisitsWindow(cfg, request, ps, visits[..n], i, j);
        assert log[i..j] == before[i..j];
      } else if |before| <= i {
        VisitWindow(cfg, request, ps, visits[n], i - |before|, j - |before|);
        assert log[i..j] == part[i - |before|..j - |before|];
      } else {
        VisitsWindow(cfg, request, ps, visits[..n], i, |before|);
        VisitIsMetered(cfg, request, ps, visits[n], j - |before| - 1);
        PollIsMetered(cfg, ps, None);
        var rest := VisitLog(cfg, request, visits[n])[..j - |before| - 1];
        MeteredConcat(cfg, ps, [Polled(None)], rest);
        assert before[i..|before|] == before[i..];
        CoveredThenMetered(cfg, ps, 1, before[i..], [Polled(None)] + rest);
        assert log[i..j] == before[i..] + ([Polled(None)] + rest);
      }
    }
  }

  lemma NothingIsCovered(cfg: Config, ps: set<Name>)
    ensures Covered(cfg, ps, 0, []) && Covered(cfg, ps, 1, [])
  {
    NoEvents(ps);
  }

  /**
    Any window of a Chat: its calls are covered by the tokens taken in it, but
    for one retry run when the window starts in the middle of the Chat.
   */
  lemma ChatWindow(cfg: Config, request: ChatRequest, ps: set<Name>, run: ChatRun, i: nat, j: nat)
    requires AllValid(cfg, run.visits) && ps <= cfg.limited
    requires forall n | n in cfg.providers :: cfg.providers[n].name == n
    requires i <= j <= |ChatLog(cfg, request, run)|
    ensures var log := ChatLog(cfg, request, run);
      Covered(cfg, ps, if 0 < i < |log| then 1 else 0, log[i..j])
  {
    hide Metered, Covered, VisitsLog;
    var log, before := ChatLog(cfg, request, run), VisitsLog(cfg, request, run.visits);
    if i == 0 {
      ChatIsMetered(cfg, request, ps, run, j);
      MeteredIsCovered(cfg, ps, log[..j]);
      assert log[i..j] == log[..j];
    } else if i == |log| {
      NothingIsCovered(cfg, ps);
      assert log[i..j] == [];
    } else if j <= |before| {
      VisitsWindow(cfg, request, ps, run.visits, i, j);
      assert log[i..j] == before[i..j];
    } else {
      VisitsWindow(cfg, request, ps, run.visits, i, |before|);
      PollIsMetered(cfg, ps, run.interrupted);
      assert before[i..|before|] == before[i..];
      CoveredThenMetered(cfg, ps, 1, before[i..], [Polled(run.interrupted)]);
      assert log[i..j] == before[i..] + [Polled(run.interrupted)];
    }
  }

  // ---------------------------------------------- nothing after the end

  function Sees(e: Event): Option<Sentinel> {
    match e
    case Polled(seen) => seen
    case Slept(_, woken) => woken
    case _ => None
  }

  /** Once the context was seen done, nothing but further looks at it follows. */
  ghost predicate Quiet(log: Log) {
    forall i, j | 0 <= i < j < |log| && Sees(log[i]).Some? :: log[j].Polled?
  }

  ghost predicate Unseen(log: Log) {
    forall i | 0 <= i < |log| :: Sees(log[i]).None?
  }

  lemma {:induction false} TurnsUnseen(client: Client, request: ChatRequest, outcomes: seq<Outcome>, delays: seq<int>)
    requires |outcomes| == |delays|
    ensures Unseen(TurnsLog(client, request, outcomes, delays))
  {
    if outcomes != [] {
      var n := |outcomes| - 1;
      TurnsUnseen(client, request, outcomes[..n], delays[..n]);
    }
  }

  lemma RunQuiet(client: Client, request: ChatRequest, policy: Policy, run: Run)
    requires ValidRun(policy, run)
    ensures var log := RunLog(client, request, run);
      log != [] && Unseen(log[..|log| - 1]) && (run.ending.Finished? ==> Unseen(log))
  {
    var n := |run.outcomes| - 1;
    match run.ending {
      case AtHead(e) =>
        TurnsUnseen(client, request, run.outcomes, run.delays);
      case Finished =>
        TurnsUnseen(client, request, run.outcomes[..n], run.delays);
      case InSleep(e) =>
        TurnsUnseen(client, request, run.outcomes[..n], run.delays[..n]);
    }
  }

  lemma NothingSeen(log: Log)
    requires Unseen(log)
    ensures Quiet(log)
  {}

  lemma QuietEnd(log: Log, tail: Log, seen: Option<Sentinel>)
    requires log != [] && Unseen(log[..|log| - 1])
    requires tail == [] || tail == [Polled(seen)]
    ensures Quiet(log + tail)
    ensures Unseen(log) && seen.None? ==> Unseen(log + tail)
  {}

  lemma QuietAfter(log: Log, tail: Log)
    requires Unseen(log) && Quiet(tail)
    ensures Quiet(log + tail)
    ensures Unseen(tail) ==> Unseen(log + tail)
  {}

  lemma VisitQuiet(cfg: Config, request: ChatRequest, v: Visit)
    requires ValidVisit(cfg, v.target, v)
    ensures Quiet(VisitLog(cfg, request, v))
    ensures !Decides(cfg, v) ==> Unseen(VisitLog(cfg, request, v))
  {
    hide RunLog, DelayAllowed, Decisive, IsContextError, Quiet;
    if !v.Tried? {
      NothingSeen(VisitLog(cfg, request, v));
    } else {
      var log := RunLog(v.client, CloneForTarget(request, v.target), v.run);
      var tail := if RunError(v.run).Some? then [Polled(v.after)] else [];
      RunQuiet(v.client, CloneForTarget(request, v.target), cfg.policy, v.run);
      QuietEnd(log, tail, v.after);
      QuietAfter(AdmissionLog(v.target, v.admittedAt), log + tail);
    }
  }

  lemma {:induction false} VisitsUnseen(cfg: Config, request: ChatRequest, targets: seq<Target>, visits: seq<Visit>)
    requires PassedOver(cfg, targets, visits) && AllValid(cfg, visits)
    ensures Unseen(VisitsLog(cfg, request, visits))
  {
    hide ValidVisit, Decides, VisitLog;
    if visits != [] {
      var n := |visits| - 1;
      VisitsUnseen(cfg, request, targets, visits[..n]);
      SameTarget(cfg, targets[n], visits[n]);
      VisitQuiet(cfg, request, visits[n]);
    }
  }

  /** No provider is called and no token taken once Chat, its retries or its sleeps saw the context done. */
  lemma NothingAfterDone(cfg: Config, request: ChatRequest, targets: seq<Target>, run: ChatRun)
    requires ValidChat(cfg, targets, run) && AllValid(cfg, run.visits)
    ensures Quiet(ChatLog(cfg, request, run))
  {
    hide ValidVisit, Decides, VisitLog;
    var log := ChatLog(cfg, request, run);
    if run.interrupted.Some? {
      VisitsUnseen(cfg, request, targets, run.visits);
    } else if DecidedLast(cfg, targets, run.visits) {
      var n := |run.visits| - 1;
      VisitsUnseen(cfg, request, targets, run.visits[..n]);
      VisitQuiet(cfg, request, run.visits[n]);
      assert log == VisitsLog(cfg, request, run.visits[..n]) + [Polled(None)] + VisitLog(cfg, request, run.visits[n]);
    } else {
      VisitsUnseen(cfg, request, targets, run.visits);
    }
  }

  // ------------------------------------------- a look before every act

  /** Straight before every call and every token, the context was looked at and alive. */
  ghost predicate LooksFirst(log: Log) {
    forall i | 0 <= i < |log| && (log[i].Called? || log[i].Admitted?) :: 0 < i && log[i - 1] == Polled(None)
  }

  lemma VisitLooksFirst(cfg: Config, request: ChatRequest, v: Visit)
    requires ValidVisit(cfg, v.target, v)
    ensures LooksFirst([Polled(None)] + VisitLog(cfg, request, v))
  {
    hide RunLog, DelayAllowed, Decisive;
    VisitIsExact(cfg, request, v.target, v);
    if v.Tried? {
      var sent := request.(model := v.target.model);
      RunInItsLog(cfg.policy, v.client, sent, v.run);
      RunAdmitsNothing(cfg.policy, v.client, sent, v.run);
      LooksAround(v.target.provider, v.admittedAt, v.client, sent, RunLog(v.client, sent, v.run),
                  if RunError(v.run).Some? then [Polled(v.after)] else []);
    }
  }

  lemma LooksAround(p: Name, at: Option<int>, client: Client, request: ChatRequest, log: Log, tail: Log)
    requires LooksBeforeCalls(client, request, log) && NothingAdmitted(log)
    requires forall i | 0 <= i < |tail| :: tail[i].Polled?
    ensures LooksFirst([Polled(None)] + ((if at.Some? then [Admitted(p, at.value, true)] else []) + log + tail))
  {
    var head := [Polled(None)] + if at.Some? then [Admitted(p, at.value, true)] else [];
    var all := head + log + tail;
    assert all == [Polled(None)] + ((if at.Some? then [Admitted(p, at.value, true)] else []) + log + tail);
    forall i | 0 <= i < |all| && (all[i].Called? || all[i].Admitted?) ensures 0 < i && all[i - 1] == Polled(None) {
      if |head| <= i < |head| + |log| {
        assert all[i] == log[i - |head|];
      }
    }
  }

  lemma LooksFirstConcat(a: Log, b: Log)
    requires LooksFirst(a) && LooksFirst(b)
    ensures LooksFirst(a + b)
  {}

  lemma {:induction false} VisitsLookFirst(cfg: Config, request: ChatRequest, visits: seq<Visit>)
    requires AllValid(cfg, visits)
    ensures LooksFirst(VisitsLog(cfg, request, visits))
  {
    hide LooksFirst, ValidVisit, VisitLog;
    if visits == [] {
      NoActs(None);
    } else {
      var n := |visits| - 1;
      VisitsLookFirst(cfg, request, visits[..n]);
      VisitLooksFirst(cfg, request, visits[n]);
      LooksFirstConcat(VisitsLog(cfg, request, visits[..n]), [Polled(None)] + VisitLog(cfg, request, visits[n]));
      assert VisitsLog(cfg, request, visits)
        == VisitsLog(cfg, request, visits[..n]) + ([Polled(None)] + VisitLog(cfg, request, visits[n]));
    }
  }

  lemma NoActs(seen: Option<Sentinel>)
    ensures LooksFirst([]) && LooksFirst([Polled(seen)])
  {}

  /** A whole Chat looks at its context straight before every token it takes and every call it makes. */
  lemma ChatLooksFirst(cfg: Config, request: ChatRequest, run: ChatRun)
    requires AllValid(cfg, run.visits)
    ensures LooksFirst(ChatLog(cfg, request, run))
  {
    hide LooksFirst, VisitsLog;
    VisitsLookFirst(cfg, request, run.visits);
    NoActs(run.interrupted);
    if run.interrupted.Some? {
      LooksFirstConcat(VisitsLog(cfg, request, run.visits), [Polled(run.interrupted)]);
    }
  }

  // ------------------------------------------------- who is asked what

  /** Every call goes to the client registered for its target, with the target's model and nothing else changed. */
  ghost predicate Addressed(client: Client, request: ChatRequest, model: string, log: Log) {
    forall i | 0 <= i < |log| && log[i].Called? ::
      && log[i].client == client && log[i].request.model == model
      && log[i].request.system == request.system && log[i].request.messages == request.messages
      && log[i].request.maxTokens == request.maxTokens && log[i].request.temperature == request.temperature
      && log[i].request.metadata == request.metadata
  }

  lemma {:induction false} TurnsAddressed(client: Client, request: ChatRequest, t: Target,
                                          outcomes: seq<Outcome>, delays: seq<int>)
    requires |outcomes| == |delays|
    ensures Addressed(client, request, t.model, TurnsLog(client, CloneForTarget(request, t), outcomes, delays))
  {
    if outcomes != [] {
      var n := |outcomes| - 1;
      TurnsAddressed(client, request, t, outcomes[..n], delays[..n]);
    }
  }

  lemma RunAddressed(client: Client, request: ChatRequest, t: Target, policy: Policy, run: Run)
    requires ValidRun(policy, run)
    ensures Addressed(client, request, t.model, RunLog(client, CloneForTarget(request, t), run))
  {
    hide DelayAllowed, Decisive, TurnsLog;
    var n := |run.outcomes| - 1;
    match run.ending {
      case AtHead(e) => TurnsAddressed(client, request, t, run.outcomes, run.delays);
      case Finished => TurnsAddressed(client, request, t, run.outcomes[..n], run.delays);
      case InSleep(e) => TurnsAddressed(client, request, t, run.outcomes[..n], run.delays[..n]);
    }
  }

  lemma CallsGoToTheirTarget(cfg: Config, request: ChatRequest, target: Target, v: Visit)
    requires ValidVisit(cfg, target, v)
    ensures if v.Tried?
      then target.provider in cfg.providers
           && Addressed(cfg.providers[target.provider], request, target.model, VisitLog(cfg, request, v))
      else forall e | e in VisitLog(cfg, request, v) :: !e.Called?
  {
    hide RunLog, ValidRun, CloneForTarget;
    if v.Tried? {
      RunAddressed(v.client, request, target, cfg.policy, v.run);
    }
  }

  // ------------------------------------------------ whose event it is

  /** The event, if it is a call or an admission, is one that belongs to the target. */
  ghost predicate BelongsTo(cfg: Config, request: ChatRequest, t: Target, e: Event) {
    && (e.Called? ==> t.provider in cfg.providers && e.client == cfg.providers[t.provider]
                      && e.request == CloneForTarget(request, t))
    && (e.Admitted? ==> e.limited == t.provider)
  }

  /** The call is behind a granted admission of the same target. */
  ghost predicate Paid(log: Log, at: seq<nat>, i: nat)
    requires |at| == |log| && i < |log|
  {
    exists j | 0 <= j < i :: log[j].Admitted? && log[j].granted && at[j] == at[i]
  }

  /**
    `at` places every event of a log at an entry of the chain, never going back.
    Calls and admissions belong to one of the first n entries; no entry is
    admitted twice, and each call at a limited one is behind its admission.
   */
  ghost predicate InChainOrder(cfg: Config, request: ChatRequest, targets: seq<Target>, n: nat,
                               log: Log, at: seq<nat>) {
    && |at| == |log|
    && (forall i | 0 <= i < |log| && (log[i].Called? || log[i].Admitted?) ::
          at[i] < n <= |targets| && BelongsTo(cfg, request, targets[at[i]], log[i]))
    && (forall i, j | 0 <= i < j < |log| :: at[i] <= at[j])
    && (forall i, j | 0 <= i < j < |log| && log[i].Admitted? && log[j].Admitted? :: at[i] < at[j])
    && forall i | 0 <= i < |log| && log[i].Called? && targets[at[i]].provider in cfg.limited :: Paid(log, at, i)
  }

  /** The part of a log that one target is answerable for: its admission, if any, comes first. */
  ghost predicate OwnPart(cfg: Config, request: ChatRequest, t: Target, part: Log) {
    && (forall e | e in part :: BelongsTo(cfg, request, t, e))
    && (forall i | 1 <= i < |part| :: !part[i].Admitted?)
    && (t.provider in cfg.limited && (exists e | e in part :: e.Called?) ==> part[0].Admitted? && part[0].granted)
  }

  lemma VisitIsOwnPart(cfg: Config, request: ChatRequest, target: Target, v: Visit)
    requires ValidVisit(cfg, target, v)
    ensures OwnPart(cfg, request, target, VisitLog(cfg, request, v))
  {
    hide RunLog, DelayAllowed, Decisive;
    if v.Tried? {
      CallsGoToTheirTarget(cfg, request, target, v);
      RunAdmitsNothing(cfg.policy, v.client, CloneForTarget(request, target), v.run);
      var log := VisitLog(cfg, request, v);
      forall i | 0 <= i < |log| ensures BelongsTo(cfg, request, target, log[i]) && (1 <= i ==> !log[i].Admitted?) {
        assert log[i].Called? ==> log[i].request == CloneForTarget(request, target);
      }
    }
  }

  lemma InOrderThenPart(cfg: Config, request: ChatRequest, targets: seq<Target>, n: nat,
                        log: Log, at: seq<nat>, part: Log, more: seq<nat>)
    requires n < |targets| && InChainOrder(cfg, request, targets, n, log, at)
    requires forall i | 0 <= i < |at| :: at[i] <= n
    requires OwnPart(cfg, request, targets[n], part)
    requires |more| == |part| && forall i | 0 <= i < |more| :: more[i] == n
    ensures InChainOrder(cfg, request, targets, n + 1, log + part, at + more)
  {
    hide BelongsTo;
    var all, ats := log + part, at + more;
    forall i | 0 <= i < |all| && all[i].Called? && targets[ats[i]].provider in cfg.limited
      ensures Paid(all, ats, i)
    {
      if i < |log| {
        assert Paid(log, at, i);
        var j :| 0 <= j < i && log[j].Admitted? && log[j].granted && at[j] == at[i];
        assert all[j] == log[j] && ats[j] == at[j];
      } else {
        assert part[i - |log|] in part;
        assert all[|log|] == part[0] && ats[|log|] == n;
      }
    }
  }

  lemma QuietStep(cfg: Config, request: ChatRequest, targets: seq<Target>, n: nat,
                  log: Log, at: seq<nat>, seen: Option<Sentinel>)
    requires InChainOrder(cfg, request, targets, n, log, at)
    requires forall i | 0 <= i < |at| :: at[i] <= n
    ensures InChainOrder(cfg, request, targets, n, log + [Polled(seen)], at + [n])
  {
    hide BelongsTo;
    var all, ats := log + [Polled(seen)], at + [n];
    forall i | 0 <= i < |all| && all[i].Called? && targets[ats[i]].provider in cfg.limited
      ensures Paid(all, ats, i)
    {
      assert Paid(log, at, i);
      var j :| 0 <= j < i && log[j].Admitted? && log[j].granted && at[j] == at[i];
      assert all[j] == log[j] && ats[j] == at[j];
    }
  }

  lemma {:induction false} VisitsInChainOrder(cfg: Config, request: ChatRequest, targets: seq<Target>,
                                              visits: seq<Visit>)
      returns (at: seq<nat>)
    requires AllValid(cfg, visits) && |visits| <= |targets|
    requires forall i | 0 <= i < |visits| :: ValidVisit(cfg, targets[i], visits[i])
    ensures InChainOrder(cfg, request, targets, |visits|, VisitsLog(cfg, request, visits), at)
    ensures forall i | 0 <= i < |at| :: at[i] < |visits|
  {
    hide ValidVisit, VisitLog, OwnPart, InChainOrder;
    if visits == [] {
      at := [];
      NothingInOrder(cfg, request, targets);
    } else {
      var n := |visits| - 1;
      at := VisitsInChainOrder(cfg, request, targets, visits[..n]);
      var log, part := VisitsLog(cfg, request, visits[..n]), VisitLog(cfg, request, visits[n]);
      QuietStep(cfg, request, targets, n, log, at, None);
      VisitIsOwnPart(cfg, request, targets[n], visits[n]);
      var more := seq(|part|, _ => n);
      InOrderThenPart(cfg, request, targets, n, log + [Polled(None)], at + [n], part, more);
      at := at + [n] + more;
    }
  }

  lemma NothingInOrder(cfg: Config, request: ChatRequest, targets: seq<Target>)
    ensures InChainOrder(cfg, request, targets, 0, [], [])
  {}

  /**
    A whole Chat walks its chain: every call and every token belongs to one of
    the targets visited, entry by entry and in chain order, one admission for
    each entry at most, and none after the entry that decided.
   */
  lemma ChatInChainOrder(cfg: Config, request: ChatRequest, targets: seq<Target>, run: ChatRun)
      returns (at: seq<nat>)
    requires ValidChat(cfg, targets, run) && AllValid(cfg, run.visits)
    ensures InChainOrder(cfg, request, targets, |run.visits|, ChatLog(cfg, request, run), at)
    ensures forall k | 0 <= k < |run.visits| && Decides(cfg, run.visits[k]) :: k == |run.visits| - 1
  {
    hide ValidVisit, VisitLog, InChainOrder, Decides, ValidChat;
    ValidChatIsAllValid(cfg, targets, run);
    at := VisitsInChainOrder(cfg, request, targets, run.visits);
    if run.interrupted.Some? {
      QuietStep(cfg, request, targets, |run.visits|, VisitsLog(cfg, request, run.visits), at, run.interrupted);
      at := at + [|run.visits|];
    }
  }

  /** A served response is the provider's reply to the last call Chat made: nothing happens after it. */
  lemma ServedIsLastReply(cfg: Config, request: ChatRequest, targets: seq<Target>, run: ChatRun)
    requires ValidChat(cfg, targets, run) && AllValid(cfg, run.visits) && targets != []
    requires ResultOf(cfg, request.model, run).Served?
    ensures var log := ChatLog(cfg, request, run);
      log != [] && log[|log| - 1] == Returned(Reply(ResultOf(cfg, request.model, run).response))
  {
    hide Decides, IsContextError;
    var v := run.visits[|run.visits| - 1];
    ServedVisitEnds(cfg, request, v);
  }

  lemma ServedVisitEnds(cfg: Config, request: ChatRequest, v: Visit)
    requires ValidVisit(cfg, v.target, v) && VisitError(cfg, v).None?
    ensures var log := VisitLog(cfg, request, v);
      && log != [] && v.Tried? && v.run.outcomes != []
      && log[|log| - 1] == Returned(v.run.outcomes[|v.run.outcomes| - 1])
      && v.run.outcomes[|v.run.outcomes| - 1].Reply?
  {}
}
