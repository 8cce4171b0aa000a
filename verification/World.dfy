/**
  What one goroutine meets outside its own code: its context, the timers and
  the providers. Every answer is chosen freely, within what the Go runtime
  promises, and recorded in order; the theorems hold for all answers.
 */
module World {
  import opened Wrappers
  import opened Provider

  datatype Event =
    | Polled(seen: Option<Sentinel>)                        // ctx.Err()
    | Admitted(limited: Name, now: int, granted: bool)      // one lock-held section of Limiter.Allow
    | Called(client: Client, request: ChatRequest)          // a provider call starts
    | Returned(outcome: Outcome)                            // and comes back
    | Slept(delay: int, woken: Option<Sentinel>)            // a timer raced against ctx.Done()

  type Log = seq<Event>

  class Environment {
    var done: Option<Sentinel>   // the context's state: once done it stays so, with the same error
    ghost var log: Log

    constructor ()
      ensures log == []
    {
      done, log := *, [];
    }

    /** The context may be cancelled, or time out, between any two steps. */
    method Elapse()
      modifies this`done
      ensures old(done).Some? ==> done == old(done)
    {
      if done.None? {
        done := *;
      }
    }

    method CtxErr() returns (seen: Option<Sentinel>)
      modifies this
      ensures old(done).Some? ==> seen == old(done)
      ensures done == seen && log == old(log) + [Polled(seen)]
    {
      Elapse();
      seen := done;
      log := log + [Polled(seen)];
    }

    method Call(client: Client, request: ChatRequest) returns (outcome: Outcome)
      modifies this
      ensures old(done).Some? ==> done == old(done)
      ensures log == old(log) + [Called(client, request), Returned(outcome)]
    {
      Elapse();
      outcome := *;
      log := log + [Called(client, request), Returned(outcome)];
    }

    /** A timer of `delay` against ctx.Done(): either may win once the context is done. */
    method Sleep(delay: int) returns (woken: Option<Sentinel>)
      requires 0 < delay
      modifies this
      ensures old(done).Some? ==> done == old(done)
      ensures woken.Some? ==> woken == done
      ensures log == old(log) + [Slept(delay, woken)]
    {
      Elapse();
      woken := None;
      if * {
        woken := done;
      }
      log := log + [Slept(delay, woken)];
    }

    ghost method Note(e: Event)
      modifies this`log
      ensures log == old(log) + [e]
    {
      log := log + [e];
    }
  }
}
