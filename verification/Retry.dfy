/**
  retry.Do: a bounded loop over whatever the provider answers, with the context
  ending at any point. `Run` is one whole execution as its outcomes, delays and
  ending; the method's log is exactly the log of a valid run.
 */
module Retry {
  import opened Wrappers
  import opened Provider
  import opened World
  import opened Backoff

  datatype Ending =
    | Finished               // with the last call's outcome
    | AtHead(e: Sentinel)    // the check before an attempt saw the context done
    | InSleep(e: Sentinel)   // the context ended the last sleep

  datatype Run = Run(outcomes: seq<Outcome>, delays: seq<int>, ending: Ending)

  predicate Transient(o: Outcome) {
    o.Fault? && IsRetryable(o.error)
  }

  /** The error Do returns. */
  function RunError(run: Run): Option<Err>
    requires run.ending.Finished? ==> run.outcomes != []
  {
    match run.ending
    case Finished =>
      var last := run.outcomes[|run.outcomes| - 1];
      if last.Fault? then Some(last.error) else None
    case AtHead(e) => Some(ContextError(e))
    case InSleep(e) => Some(ContextError(e))
  }

  /** Outcome k, counting from 1, is the one Do stops at. */
  predicate Decisive(p: Policy, o: Outcome, k: nat) {
    !Transient(o) || k == Attempts(p)
  }

  ghost predicate ValidRun(p: Policy, run: Run) {
    var n := |run.outcomes|;
    && n <= Attempts(p)
    && |run.delays| == (if run.ending.Finished? then n - 1 else n)
    && (forall i | 0 <= i < |run.delays| ::
          !Decisive(p, run.outcomes[i], i + 1) && DelayAllowed(p, i + 1, run.delays[i]))
    && (run.ending.Finished? ==> n > 0 && Decisive(p, run.outcomes[n - 1], n))
    && (run.ending.InSleep? ==> n > 0 && 0 < run.delays[n - 1])
  }

  // --------------------------------------------------------------- the log

  function AttemptLog(client: Client, request: ChatRequest, o: Outcome): Log {
    [Polled(None), Called(client, request), Returned(o)]
  }

  function NapLog(delay: int): Log {
    if delay <= 0 then [] else [Slept(delay, None)]
  }

  /** Attempts each followed by its full sleep. */
  function TurnsLog(client: Client, request: ChatRequest, outcomes: seq<Outcome>, delays: seq<int>): Log
    requires |outcomes| == |delays|
  {
    if outcomes == [] then []
    else
      var n := |outcomes| - 1;
      TurnsLog(client, request, outcomes[..n], delays[..n])
      + AttemptLog(client, request, outcomes[n]) + NapLog(delays[n])
  }

  function RunLog(client: Client, request: ChatRequest, run: Run): Log
    requires |run.delays| == (if run.ending.Finished? then |run.outcomes| - 1 else |run.outcomes|)
    requires run.ending.InSleep? ==> run.outcomes != []
  {
    var n := |run.outcomes| - 1;
    match run.ending
    case Finished =>
      TurnsLog(client, request, run.outcomes[..n], run.delays) + AttemptLog(client, request, run.outcomes[n])
    case AtHead(e) =>
      TurnsLog(client, request, run.outcomes, run.delays) + [Polled(Some(e))]
    case InSleep(e) =>
      TurnsLog(client, request, run.outcomes[..n], run.delays[..n])
      + AttemptLog(client, request, run.outcomes[n]) + [Slept(run.delays[n], Some(e))]
  }

  /** The attempts so far: each outcome asked for another try, after an allowed delay. */
  ghost predicate Turns(p: Policy, outcomes: seq<Outcome>, delays: seq<int>) {
    && |outcomes| == |delays|
    && forall i | 0 <= i < |delays| :: !Decisive(p, outcomes[i], i + 1) && DelayAllowed(p, i + 1, delays[i])
  }

  lemma NoTurns(p: Policy, client: Client, request: ChatRequest)
    ensures TurnsLog(client, request, [], []) == [] && Turns(p, [], [])
  {}

  lemma OneMoreTurn(p: Policy, client: Client, request: ChatRequest, outcomes: seq<Outcome>, delays: seq<int>,
                    o: Outcome, d: int)
    requires Turns(p, outcomes, delays)
    requires !Decisive(p, o, |outcomes| + 1) && DelayAllowed(p, |outcomes| + 1, d)
    ensures Turns(p, outcomes + [o], delays + [d])
    ensures TurnsLog(client, request, outcomes + [o], delays + [d])
      == TurnsLog(client, request, outcomes, delays) + AttemptLog(client, request, o) + NapLog(d)
  {
    assert (outcomes + [o])[..|outcomes|] == outcomes && (delays + [d])[..|outcomes|] == delays;
  }

  lemma EndsAtHead(p: Policy, client: Client, request: ChatRequest, outcomes: seq<Outcome>, delays: seq<int>,
                   e: Sentinel)
    requires Turns(p, outcomes, delays) && |outcomes| < Attempts(p)
    ensures var run := Run(outcomes, delays, AtHead(e));
      && ValidRun(p, run) && RunError(run) == Some(ContextError(e))
      && RunLog(client, request, run) == TurnsLog(client, request, outcomes, delays) + [Polled(Some(e))]
  {}

  lemma EndsFinished(p: Policy, client: Client, request: ChatRequest, outcomes: seq<Outcome>, delays: seq<int>,
                     o: Outcome)
    requires Turns(p, outcomes, delays) && |outcomes| < Attempts(p) && Decisive(p, o, |outcomes| + 1)
    ensures var run := Run(outcomes + [o], delays, Finished);
      && ValidRun(p, run)
      && RunLog(client, request, run) == TurnsLog(client, request, outcomes, delays) + AttemptLog(client, request, o)
      && RunError(run) == if o.Fault? then Some(o.error) else None
  {
    assert (outcomes + [o])[..|outcomes|] == outcomes;
  }

  lemma EndsInSleep(p: Policy, client: Client, request: ChatRequest, outcomes: seq<Outcome>, delays: seq<int>,
                    o: Outcome, d: int, e: Sentinel)
    requires Turns(p, outcomes, delays) && |outcomes| < Attempts(p) && 0 < d
    requires !Decisive(p, o, |outcomes| + 1) && DelayAllowed(p, |outcomes| + 1, d)
    ensures var run := Run(outcomes + [o], delays + [d], InSleep(e));
      && ValidRun(p, run) && RunError(run) == Some(ContextError(e))
      && RunLog(client, request, run)
         == TurnsLog(client, request, outcomes, delays) + AttemptLog(client, request, o) + [Slept(d, Some(e))]
  {
    assert (outcomes + [o])[..|outcomes|] == outcomes && (delays + [d])[..|outcomes|] == delays;
  }

  /** sleep: no wait at all for a delay that is not positive. */
  method Sleep(w: Environment, d: int) returns (woken: Option<Sentinel>)
    modifies w
    ensures d <= 0 ==> woken == None
    ensures woken.Some? ==> woken == w.done
    ensures w.log == old(w.log) + (if woken.Some? then [Slept(d, woken)] else NapLog(d))
  {
    if d <= 0 {
      return None;
    }
    woken := w.Sleep(d);
  }

  /** Do around one provider call; `response` and `attempts` are what the call's closure leaves behind. */
  method Do(w: Environment, p: Policy, client: Client, request: ChatRequest)
    returns (err: Option<Err>, response: Option<ChatResponse>, attempts: nat, ghost run: Run)
    modifies w
    ensures ValidRun(p, run)
    ensures w.log == old(w.log) + RunLog(client, request, run)
    ensures err == RunError(run) && attempts == |run.outcomes|
    ensures err.None? ==> run.ending.Finished? && response.Some? && 0 < attempts
    ensures err.None? ==> run.outcomes[attempts - 1] == Reply(response.value)
    ensures attempts <= Max(1, p.maxAttempts)
    ensures run.ending.Finished? && err.Some? && IsRetryable(err.value) ==> attempts == Max(1, p.maxAttempts)
    ensures !run.ending.Finished? ==> w.done == Some(run.ending.e)
    ensures old(w.done).Some? ==> run == Run([], [], AtHead(old(w.done).value))
  {
    hide DelayAllowed, TurnsLog, RunLog, RunError, ValidRun, Turns;
    var limit := p.maxAttempts;
    if limit < 1 {
      limit := 1;
    }
    attempts, response := 0, None;
    ghost var outcomes: seq<Outcome>, delays: seq<int> := [], [];
    NoTurns(p, client, request);
    var attempt := 1;
    while attempt <= limit
      invariant 1 <= attempt <= limit && attempts == |outcomes| == |delays| == attempt - 1
      invariant Turns(p, outcomes, delays)
      invariant w.log == old(w.log) + TurnsLog(client, request, outcomes, delays)
      invariant old(w.done).Some? ==> attempt == 1 && w.done == old(w.done)
    {
      var ctxErr := w.CtxErr();
      if ctxErr.Some? {
        EndsAtHead(p, client, request, outcomes, delays, ctxErr.value);
        return Some(ContextError(ctxErr.value)), response, attempts, Run(outcomes, delays, AtHead(ctxErr.value));
      }
      attempts := attempts + 1;
      var outcome := w.Call(client, request);
      assert w.log == old(w.log) + (TurnsLog(client, request, outcomes, delays) + AttemptLog(client, request, outcome));
      if outcome.Reply? {
        EndsFinished(p, client, request, outcomes, delays, outcome);
        return None, Some(outcome.response), attempts, Run(outcomes + [outcome], delays, Finished);
      }
      if !IsRetryable(outcome.error) || attempt == limit {
        EndsFinished(p, client, request, outcomes, delays, outcome);
        return Some(outcome.error), response, attempts, Run(outcomes + [outcome], delays, Finished);
      }
      var delay := Backoff.Backoff(p, attempt);
      var waitErr := Sleep(w, delay);
      if waitErr.Some? {
        EndsInSleep(p, client, request, outcomes, delays, outcome, delay, waitErr.value);
        return Some(ContextError(waitErr.value)), response, attempts,
          Run(outcomes + [outcome], delays + [delay], InSleep(waitErr.value));
      }
      OneMoreTurn(p, client, request, outcomes, delays, outcome, delay);
      outcomes, delays := outcomes + [outcome], delays + [delay];
      attempt := attempt + 1;
    }
    // The last attempt always returns from inside the loop.
    assert false;
  }

  // ------------------------------------------------------------ the theorems

  type Script = nat -> Outcome    // what the k-th call, counting from 1, would come back with

  /** Calls made by an uncancelled run: up to the first decisive outcome from k on. */
  function CallsFrom(p: Policy, script: Script, k: nat): nat
    requires 1 <= k <= Attempts(p)
    decreases Attempts(p) - k
  {
    if Decisive(p, script(k), k) then k else CallsFrom(p, script, k + 1)
  }

  ghost predicate Follows(run: Run, script: Script) {
    forall i: nat | i < |run.outcomes| :: run.outcomes[i] == script(i + 1)
  }

  lemma {:induction false} NoDecisiveBefore(p: Policy, script: Script, k: nat, n: nat)
    requires 1 <= k <= n <= Attempts(p)
    requires forall i: nat | k <= i < n :: !Decisive(p, script(i), i)
    ensures n <= CallsFrom(p, script, k)
    ensures Decisive(p, script(n), n) ==> CallsFrom(p, script, k) == n
    decreases n - k
  {
    if k < n {
      NoDecisiveBefore(p, script, k + 1, n);
    } else if !Decisive(p, script(n), n) {
      CallsGrow(p, script, n + 1);
    }
  }

  lemma {:induction false} CallsGrow(p: Policy, script: Script, k: nat)
    requires 1 <= k <= Attempts(p)
    ensures k <= CallsFrom(p, script, k) <= Attempts(p)
    decreases Attempts(p) - k
  {
    if !Decisive(p, script(k), k) {
      CallsGrow(p, script, k + 1);
    }
  }

  /**
    A run in the policy's own terms: never more than max(1, MaxAttempts) calls,
    every one but the last a retryable failure; a run that was not cut short
    ends at the first success, the first other failure or the last attempt, and
    with that outcome's error.
   */
  lemma RunIsExact(p: Policy, run: Run)
    requires ValidRun(p, run)
    ensures var n, most := |run.outcomes|, Max(1, p.maxAttempts);
      && n <= most
      && (forall i | 0 <= i < n - 1 :: run.outcomes[i].Fault? && IsRetryable(run.outcomes[i].error))
      && if run.ending.Finished? then
           && n > 0
           && match run.outcomes[n - 1]
              case Reply(_) => RunError(run) == None
              case Fault(e) => RunError(run) == Some(e) && (IsRetryable(e) ==> n == most)
         else
           && RunError(run) == Some(ContextError(run.ending.e))
           && (n > 0 ==> n < most && run.outcomes[n - 1].Fault? && IsRetryable(run.outcomes[n - 1].error))
  {
    var n := |run.outcomes|;
    assert !run.ending.Finished? && n > 0 ==> !Decisive(p, run.outcomes[n - 1], n);
  }

  /**
    Against any script of outcomes, a run the context does not end calls exactly
    up to the first success, the first failure that is not retryable or attempt
    max(1, MaxAttempts), and returns that outcome; one the context ends made no
    such call.
   */
  lemma DoFollowsScript(p: Policy, script: Script, run: Run)
    requires ValidRun(p, run) && Follows(run, script)
    ensures var calls, most := CallsFrom(p, script, 1), Max(1, p.maxAttempts);
      && 1 <= calls <= most
      && (forall i: nat | 1 <= i < calls :: script(i).Fault? && IsRetryable(script(i).error))
      && (script(calls).Fault? && IsRetryable(script(calls).error) ==> calls == most)
      && if run.ending.Finished? then
           && |run.outcomes| == calls
           && RunError(run) == (if script(calls).Fault? then Some(script(calls).error) else None)
         else
           && |run.outcomes| < calls
           && RunError(run) == Some(ContextError(run.ending.e))
  {
    var n := |run.outcomes|;
    CallsGrow(p, script, 1);
    NothingDecisiveBefore(p, script, 1);
    RunIsExact(p, run);
    if run.ending.Finished? {
      forall i: nat | 1 <= i < n ensures !Decisive(p, script(i), i) {
        assert run.outcomes[i - 1] == script(i - 1 + 1);
      }
      assert run.outcomes[n - 1] == script(n - 1 + 1);
      NoDecisiveBefore(p, script, 1, n);
    } else if n > 0 {
      forall i: nat | 1 <= i <= n ensures !Decisive(p, script(i), i) {
        assert run.outcomes[i - 1] == script(i - 1 + 1);
      }
      assert !Decisive(p, script(n), n);
      NoDecisiveBefore(p, script, 1, n);
    }
  }

  /** What the stopping call is, from call k on. */
  lemma {:induction false} NothingDecisiveBefore(p: Policy, script: Script, k: nat)
    requires 1 <= k <= Attempts(p)
    ensures var calls := CallsFrom(p, script, k);
      && k <= calls <= Attempts(p) && Decisive(p, script(calls), calls)
      && forall i: nat | k <= i < calls :: !Decisive(p, script(i), i)
    decreases Attempts(p) - k
  {
    if !Decisive(p, script(k), k) {
      NothingDecisiveBefore(p, script, k + 1);
    }
  }

  /** No call at all is made exactly when the context was done on entry. */
  lemma NoCallIffDoneOnEntry(p: Policy, client: Client, request: ChatRequest, run: Run)
    requires ValidRun(p, run)
    ensures var log := RunLog(client, request, run);
      log != [] && log[0].Polled? && (run.outcomes == [] <==> log[0].seen.Some?)
  {
    hide TurnsLog, DelayAllowed, Decisive;
    if run.outcomes == [] || run.ending.AtHead? {
      FirstTurn(client, request, run.outcomes, run.delays);
    } else {
      var n := |run.outcomes| - 1;
      assert run.ending.Finished? ==> run.delays[..n] == run.delays;
      FirstTurn(client, request, run.outcomes[..n], run.delays[..n]);
    }
  }

  lemma {:induction false} FirstTurn(client: Client, request: ChatRequest, outcomes: seq<Outcome>, delays: seq<int>)
    requires |outcomes| == |delays|
    ensures var log := TurnsLog(client, request, outcomes, delays);
      if outcomes == [] then log == [] else log != [] && log[0] == Polled(None)
  {
    if outcomes != [] {
      FirstTurn(client, request, outcomes[..|outcomes| - 1], delays[..|outcomes| - 1]);
    }
  }

  // ----------------------------------------------------- a run in its log

  /** What the calls of a log came back with, in order. */
  function ReturnedIn(log: Log): seq<Outcome> {
    if log == [] then []
    else ReturnedIn(log[..|log| - 1]) + (if log[|log| - 1].Returned? then [log[|log| - 1].outcome] else [])
  }

  /** The timers of a log, in order. */
  function TimersIn(log: Log): seq<int> {
    if log == [] then []
    else TimersIn(log[..|log| - 1]) + (if log[|log| - 1].Slept? then [log[|log| - 1].delay] else [])
  }

  function Positive(delays: seq<int>): seq<int> {
    if delays == [] then []
    else Positive(delays[..|delays| - 1]) + (if 0 < delays[|delays| - 1] then [delays[|delays| - 1]] else [])
  }

  /** Each call comes straight after a look that saw the context alive, and its answer straight after it. */
  ghost predicate LooksBeforeCalls(client: Client, request: ChatRequest, log: Log) {
    forall i | 0 <= i < |log| && log[i].Called? ::
      log[i] == Called(client, request) && 0 < i && log[i - 1] == Polled(None)
      && i + 1 < |log| && log[i + 1].Returned?
  }

  lemma {:induction false} ReadingsConcat(a: Log, b: Log)
    ensures ReturnedIn(a + b) == ReturnedIn(a) + ReturnedIn(b)
    ensures TimersIn(a + b) == TimersIn(a) + TimersIn(b)
  {
    if b == [] {
      assert a + b == a;
    } else {
      assert (a + b)[..|a + b| - 1] == a + b[..|b| - 1];
      ReadingsConcat(a, b[..|b| - 1]);
    }
  }

  lemma LooksConcat(client: Client, request: ChatRequest, a: Log, b: Log)
    requires LooksBeforeCalls(client, request, a) && LooksBeforeCalls(client, request, b)
    ensures LooksBeforeCalls(client, request, a + b)
  {}

  lemma AttemptReadings(client: Client, request: ChatRequest, o: Outcome)
    ensures var log := AttemptLog(client, request, o);
      ReturnedIn(log) == [o] && TimersIn(log) == [] && LooksBeforeCalls(client, request, log)
  {
    OneReading(Polled(None));
    OneReading(Called(client, request));
    OneReading(Returned(o));
    ReadingsConcat([Polled(None)], [Called(client, request)]);
    ReadingsConcat([Polled(None)] + [Called(client, request)], [Returned(o)]);
    assert AttemptLog(client, request, o) == [Polled(None)] + [Called(client, request)] + [Returned(o)];
  }

  lemma OneReading(e: Event)
    ensures ReturnedIn([e]) == if e.Returned? then [e.outcome] else []
    ensures TimersIn([e]) == if e.Slept? then [e.delay] else []
  {
    assert [e][..0] == [];
  }

  lemma EventReadings(client: Client, request: ChatRequest, e: Event)
    requires e.Polled? || e.Slept?
    ensures ReturnedIn([e]) == [] && TimersIn([e]) == (if e.Slept? then [e.delay] else [])
    ensures LooksBeforeCalls(client, request, [e]) && LooksBeforeCalls(client, request, [])
    ensures ReturnedIn([]) == [] && TimersIn([]) == []
  {
    assert [e][..0] == [];
  }

  lemma {:induction false} TurnsReadings(client: Client, request: ChatRequest, outcomes: seq<Outcome>, delays: seq<int>)
    requires |outcomes| == |delays|
    ensures var log := TurnsLog(client, request, outcomes, delays);
      ReturnedIn(log) == outcomes && TimersIn(log) == Positive(delays) && LooksBeforeCalls(client, request, log)
  {
    hide ReturnedIn, TimersIn, LooksBeforeCalls, AttemptLog;
    EventReadings(client, request, Polled(None));
    if outcomes != [] {
      var n := |outcomes| - 1;
      var turns := TurnsLog(client, request, outcomes[..n], delays[..n]);
      var attempt := AttemptLog(client, request, outcomes[n]);
      TurnsReadings(client, request, outcomes[..n], delays[..n]);
      AttemptReadings(client, request, outcomes[n]);
      EventReadings(client, request, Slept(delays[n], None));
      ReadingsConcat(turns, attempt);
      ReadingsConcat(turns + attempt, NapLog(delays[n]));
      LooksConcat(client, request, turns, attempt);
      LooksConcat(client, request, turns + attempt, NapLog(delays[n]));
    }
  }

  /**
    What a run is, anyone can read off its log: the outcomes are what its calls
    came back with, its timers are its positive delays, and before every call
    the context was looked at.
   */
  lemma RunInItsLog(p: Policy, client: Client, request: ChatRequest, run: Run)
    requires ValidRun(p, run)
    ensures var log := RunLog(client, request, run);
      && ReturnedIn(log) == run.outcomes && TimersIn(log) == Positive(run.delays)
      && LooksBeforeCalls(client, request, log)
  {
    hide ReturnedIn, TimersIn, LooksBeforeCalls, AttemptLog, TurnsLog, DelayAllowed, Decisive;
    var n := |run.outcomes| - 1;
    match run.ending {
      case AtHead(e) =>
        TurnsReadings(client, request, run.outcomes, run.delays);
        EventReadings(client, request, Polled(Some(e)));
        ReadingsConcat(TurnsLog(client, request, run.outcomes, run.delays), [Polled(Some(e))]);
        LooksConcat(client, request, TurnsLog(client, request, run.outcomes, run.delays), [Polled(Some(e))]);
      case Finished =>
        var turns := TurnsLog(client, request, run.outcomes[..n], run.delays);
        TurnsReadings(client, request, run.outcomes[..n], run.delays);
        AttemptReadings(client, request, run.outcomes[n]);
        ReadingsConcat(turns, AttemptLog(client, request, run.outcomes[n]));
        LooksConcat(client, request, turns, AttemptLog(client, request, run.outcomes[n]));
      case InSleep(e) =>
        var turns := TurnsLog(client, request, run.outcomes[..n], run.delays[..n]);
        var attempt, nap := AttemptLog(client, request, run.outcomes[n]), Slept(run.delays[n], Some(e));
        TurnsReadings(client, request, run.outcomes[..n], run.delays[..n]);
        AttemptReadings(client, request, run.outcomes[n]);
        EventReadings(client, request, nap);
        ReadingsConcat(turns, attempt);
        ReadingsConcat(turns + attempt, [nap]);
        LooksConcat(client, request, turns, attempt);
        LooksConcat(client, request, turns + attempt, [nap]);
    }
  }

  /** The sleep one run asks for, under the bounds of its policy. */
  lemma RunSleepBound(p: Policy, run: Run)
    requires ValidRun(p, run) && 0 <= p.baseDelay && Fits(p, |run.delays|)
    ensures 0 <= Total(run.delays) <= Scaled(p.baseDelay, |run.delays|) - p.baseDelay
    ensures 0 < p.maxDelay ==> Total(run.delays) <= |run.delays| * p.maxDelay
    ensures |run.delays| < Attempts(p)
  {
    TotalSleepBound(p, run.delays);
  }
}
