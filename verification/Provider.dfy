/**
  The provider contract (pkg/provider): requests, outcomes, and the error chain
  on which retry, failover and the HTTP status all rest.
 */
module Provider {
  import opened Wrappers

  type Name = string

  const ANTHROPIC: Name := "anthropic"
  const OPENAI: Name := "openai"
  const BEDROCK: Name := "bedrock"

  type Role = string

  const ROLE_SYSTEM: Role := "system"

  datatype Message = Message(role: Role, content: string)

  datatype ChatRequest = ChatRequest(
    model: string, system: string, messages: seq<Message>, maxTokens: int,
    temperature: Option<real>, metadata: map<string, string>)

  datatype ChatResponse = ChatResponse(
    provider: Name, model: string, content: string, finishReason: string,
    inputTokens: int, outputTokens: int)

  /** A registered backend: the name it reports, and which instance it is. */
  datatype Client = Client(name: Name, id: nat)

  /** One place a request may go: a backend by name, and what to ask it for. */
  datatype Target = Target(provider: Name, model: string)

  /** What a provider call, and a retried provider call, comes back with. */
  datatype Outcome = Reply(response: ChatResponse) | Fault(error: Err)

  // ------------------------------------------------------------ error chains

  /** The two context errors that `errors.Is` looks for. */
  datatype Sentinel = Canceled | DeadlineExceeded

  /**
    Errors as trees. `Plain` is a leaf, carrying the sentinels it is or reports
    to be; `Wrapped` is fmt.Errorf with %w; `Joined` has several causes;
    `ProviderError` is *provider.Error; `RouteError` is *router.RouteError.
   */
  datatype Err =
    | Plain(text: string, sentinels: set<Sentinel>)
    | Wrapped(text: string, cause: Err)
    | Joined(causes: seq<Err>)
    | ProviderError(provider: Name, status: int, code: string, message: string,
                    retryable: bool, wrapped: Option<Err>)
    | RouteError(logicalModel: string, failures: seq<TargetFailure>)

  datatype TargetFailure = TargetFailure(target: Target, err: Err)

  function ContextError(s: Sentinel): Err {
    Plain(if s.Canceled? then "context canceled" else "context deadline exceeded", {s})
  }

  /** The errors one Unwrap step away, in the order they are visited. */
  function Unwrap(e: Err): (causes: seq<Err>)
    ensures forall c | c in causes :: c < e
  {
    match e
    case Plain(_, _) => []
    case Wrapped(_, cause) => [cause]
    case Joined(causes) => causes
    case ProviderError(_, _, _, _, _, None) => []
    case ProviderError(_, _, _, _, _, Some(cause)) => [cause]
    case RouteError(_, failures) =>
      if |failures| == 0 then [] else [failures[|failures| - 1].err]
  }

  /** errors.Is(e, s): some error of the chain is the sentinel. */
  predicate Is(e: Err, s: Sentinel)
    decreases e
  {
    (e.Plain? && s in e.sentinels) || exists c | c in Unwrap(e) :: Is(c, s)
  }

  predicate IsContextError(e: Err) {
    Is(e, Canceled) || Is(e, DeadlineExceeded)
  }

  /** errors.As(e, *provider.Error): the first provider error, outermost first, depth first. */
  function AsProviderError(e: Err): (found: Option<Err>)
    ensures found.Some? ==> found.value.ProviderError?
    decreases e, 1
  {
    if e.ProviderError? then Some(e) else FirstProviderError(e, Unwrap(e))
  }

  function FirstProviderError(ghost e: Err, causes: seq<Err>): (found: Option<Err>)
    requires forall c | c in causes :: c < e
    ensures found.Some? ==> found.value.ProviderError?
    decreases e, 0, |causes|
  {
    if causes == [] then None
    else
      assert causes[0] in causes && forall c | c in causes[1..] :: c in causes;
      var found := AsProviderError(causes[0]);
      if found.Some? then found else FirstProviderError(e, causes[1..])
  }

  /** errors.As(e, *router.RouteError) succeeds. */
  predicate HasRouteError(e: Err)
    decreases e
  {
    e.RouteError? || exists c | c in Unwrap(e) :: HasRouteError(c)
  }

  predicate IsRetryable(e: Err) {
    var found := AsProviderError(e);
    found.Some? && found.value.retryable
  }

  predicate RetryableStatus(status: int) {
    status in {429, 500, 502, 503, 504, 529}
  }

  function NewHTTPError(p: Name, status: int, code: string, message: string): Err {
    ProviderError(p, status, code, message, RetryableStatus(status), None)
  }

  /** `rendered` is the text of the cause, which only the message carries. */
  function NewTransportError(p: Name, cause: Option<Err>, rendered: string): Err {
    ProviderError(p, 0, "", "transport error: " + rendered, true, cause)
  }

  /** Every provider error of the tree is what one of the two constructors builds. */
  ghost predicate FromConstructors(e: Err)
    decreases e
  {
    && (e.ProviderError? ==> e.retryable == (e.status == 0 || RetryableStatus(e.status)))
    && forall c | c in Unwrap(e) :: FromConstructors(c)
  }

  // NewHTTPError never sees status 0: callers pass the status of a response
  // they received, or 429.
  lemma ConstructorsBuild(p: Name, status: int, code: string, message: string, cause: Option<Err>)
    requires status != 0 && (cause.Some? ==> FromConstructors(cause.value))
    ensures FromConstructors(NewHTTPError(p, status, code, message))
    ensures FromConstructors(NewTransportError(p, cause, message))
  {}

  /** What errors.As finds in a tree of constructed errors is itself constructed. */
  lemma {:induction false} FoundIsConstructed(e: Err)
    requires FromConstructors(e)
    ensures AsProviderError(e).Some? ==> FromConstructors(AsProviderError(e).value)
    decreases e, 1
  {
    if !e.ProviderError? {
      FirstIsConstructed(e, Unwrap(e));
    }
  }

  lemma {:induction false} FirstIsConstructed(e: Err, causes: seq<Err>)
    requires forall c | c in causes :: c < e && FromConstructors(c)
    ensures FirstProviderError(e, causes).Some? ==> FromConstructors(FirstProviderError(e, causes).value)
    decreases e, 0, |causes|
  {
    if causes != [] {
      assert causes[0] in causes && forall c | c in causes[1..] :: c in causes;
      FoundIsConstructed(causes[0]);
      FirstIsConstructed(e, causes[1..]);
    }
  }

  // ------------------------------------- what errors.Is and errors.As find

  /** Every error of a tree, each before its causes, a RouteError's last failure being its cause. */
  function Chain(e: Err): seq<Err>
    decreases e, 1
  {
    [e] + match e
          case Plain(_, _) => []
          case Wrapped(_, cause) => Chain(cause)
          case Joined(causes) => Chains(e, causes)
          case ProviderError(_, _, _, _, _, cause) => if cause.None? then [] else Chain(cause.value)
          case RouteError(_, failures) => if failures == [] then [] else Chain(failures[|failures| - 1].err)
  }

  function Chains(ghost e: Err, causes: seq<Err>): seq<Err>
    requires forall c | c in causes :: c < e
    decreases e, 0, |causes|
  {
    if causes == [] then []
    else
      assert causes[0] in causes && forall c | c in causes[1..] :: c in causes;
      Chain(causes[0]) + Chains(e, causes[1..])
  }

  function FirstOf(errs: seq<Err>): Option<Err> {
    if errs == [] then None else if errs[0].ProviderError? then Some(errs[0]) else FirstOf(errs[1..])
  }

  lemma {:induction false} FirstOfConcat(a: seq<Err>, b: seq<Err>)
    ensures FirstOf(a + b) == if FirstOf(a).Some? then FirstOf(a) else FirstOf(b)
  {
    if a == [] {
      assert a + b == b;
    } else {
      assert (a + b)[1..] == a[1..] + b;
      FirstOfConcat(a[1..], b);
    }
  }

  ghost predicate SomeIs(errs: seq<Err>, s: Sentinel) {
    exists x | x in errs :: x.Plain? && s in x.sentinels
  }

  ghost predicate SomeRoute(errs: seq<Err>) {
    exists x | x in errs :: x.RouteError?
  }

  /**
    errors.Is and errors.As over the whole tree: a sentinel is found when any
    error is it, and the provider error found is the first in the order.
   */
  lemma {:induction false} FoundInChain(e: Err, s: Sentinel)
    ensures Is(e, s) <==> SomeIs(Chain(e), s)
    ensures HasRouteError(e) <==> SomeRoute(Chain(e))
    ensures AsProviderError(e) == FirstOf(Chain(e))
    decreases e, 1
  {
    var causes := Unwrap(e);
    FoundInChains(e, causes, s);
    assert causes == [] ==> Chains(e, causes) == [];
    assert |causes| == 1 ==> Chains(e, causes) == Chain(causes[0]) + [];
    assert Chain(e) == [e] + Chains(e, causes);
    assert [e][1..] == [];
    FirstOfConcat([e], Chains(e, causes));
  }

  lemma {:induction false} FoundInChains(e: Err, causes: seq<Err>, s: Sentinel)
    requires forall c | c in causes :: c < e
    ensures (exists c | c in causes :: Is(c, s)) <==> SomeIs(Chains(e, causes), s)
    ensures (exists c | c in causes :: HasRouteError(c)) <==> SomeRoute(Chains(e, causes))
    ensures FirstProviderError(e, causes) == FirstOf(Chains(e, causes))
    decreases e, 0, |causes|
  {
    if causes != [] {
      var rest := causes[1..];
      assert causes == [causes[0]] + rest;
      assert causes[0] in causes && forall c | c in rest :: c in causes;
      FoundInChain(causes[0], s);
      FoundInChains(e, rest, s);
      FirstOfConcat(Chain(causes[0]), Chains(e, rest));
    }
  }

  /** Which of the errors that adapters build ask for another try. */
  lemma TransientErrors(p: Name, status: int, code: string, message: string, cause: Option<Err>)
    ensures IsRetryable(NewHTTPError(p, status, code, message))
      <==> status == 429 || status == 500 || status == 502 || status == 503 || status == 504 || status == 529
    ensures IsRetryable(NewTransportError(p, cause, message))
    ensures AsProviderError(NewHTTPError(p, status, code, message)).value.status == status
    ensures AsProviderError(NewTransportError(p, cause, message)).value.status == 0
  {}

  /** A context error is its own sentinel and no other, and no provider's. */
  lemma ContextErrorIs(e: Sentinel, s: Sentinel)
    ensures Is(ContextError(e), s) <==> s == e
    ensures AsProviderError(ContextError(e)).None? && !HasRouteError(ContextError(e))
  {
    assert Unwrap(ContextError(e)) == [];
  }
}
