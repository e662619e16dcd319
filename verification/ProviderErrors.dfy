/** The provider's error type (src/error.rs) and the classifiers that live with its consumer (src/provider.rs). */
module ProviderErrors {
  import opened Wrappers
  import opened Durations

  datatype AbandonReason =
    | RetryAfterTooLong(requested: Duration, cap: Duration)
    | RetryAfterUnintelligible(raw: string)
    | OperationBudgetExhausted(elapsed: Duration, budget: Duration)

  datatype ExternalErrorKind = ExternalNetwork | ExternalTimeout | ExternalAuth | RateLimit | ServerError | OtherKind

  datatype ResponseContractCause = Unreadable | NoMessage | RedirectRefused

  /** `receivedAt` is the instant the response headers arrived, on the same clock as the run. */
  datatype ProviderError =
    | Http(status: nat, body: string, retryAfterRaw: seq<string>, receivedAt: Option<nat>)
    | Network(message: string)
    | Timeout(message: string)
    | Auth(message: string)
    | Process(exitCode: Option<int>, stderr: string)
    | NestedSession
    | ResponseTooLarge(limit: nat)
    | RetryAbandoned(reason: AbandonReason, attempts: u32)
    | External(message: string, kind: ExternalErrorKind)
    | ResponseContract(cause: ResponseContractCause, detail: string)
    | EmptyCompletion(outputCap: u32)
    | NoGeneration

  datatype RetryClass =
    | TimeoutClass | NetworkClass | HttpClass | AuthClass | ProcessClass | NestedSessionClass
    | RetryAbandonedClass | ResponseTooLargeClass | ResponseContractClass | EmptyCompletionClass
    | NoGenerationClass | ExternalClass

  const TRANSIENT_STATUSES: seq<nat> := [408, 429, 500, 502, 503, 504, 529]

  function Classify(e: ProviderError): RetryClass {
    match e
    case Timeout(_) => TimeoutClass
    case Network(_) => NetworkClass
    case Http(_, _, _, _) => HttpClass
    case Auth(_) => AuthClass
    case Process(_, _) => ProcessClass
    case NestedSession => NestedSessionClass
    case RetryAbandoned(_, _) => RetryAbandonedClass
    case ResponseTooLarge(_) => ResponseTooLargeClass
    case External(_, _) => ExternalClass
    case ResponseContract(_, _) => ResponseContractClass
    case EmptyCompletion(_) => EmptyCompletionClass
    case NoGeneration => NoGenerationClass
  }

  predicate IsRetryable(e: ProviderError) {
    match e
    case Timeout(_) => true
    case Network(_) => true
    case Http(status, _, _, _) => status in TRANSIENT_STATUSES
    case External(_, kind) => kind in {ExternalNetwork, ExternalTimeout, RateLimit, ServerError}
    case ResponseContract(cause, _) => cause == Unreadable
    case _ => false
  }

  /** Whether the failure condemns only the seat that saw it. */
  predicate IsMageLocal(e: ProviderError) {
    e.External? || e.ResponseContract? || e.ResponseTooLarge? || e.EmptyCompletion?
  }

  /** The one place that builds `RetryAbandoned`: a mage-local error comes back unwrapped. */
  function Abandon(original: Option<ProviderError>, reason: AbandonReason, attempts: u32): ProviderError {
    match original
    case Some(e) => if IsMageLocal(e) then e else RetryAbandoned(reason, attempts)
    case None => RetryAbandoned(reason, attempts)
  }

  /**
   The retry loop abandons only retryable errors. Of those, exactly an external failure with a
   retryable kind and an unreadable response keep their own identity.
   */
  lemma UnwrappedWhenAbandoned(e: ProviderError, reason: AbandonReason, attempts: u32)
    requires IsRetryable(e)
    ensures Abandon(Some(e), reason, attempts) == e <==> e.External? || e.ResponseContract?
    ensures e.External? ==> e.kind != OtherKind && e.kind != ExternalAuth
    ensures e.ResponseContract? ==> e.cause == Unreadable
    ensures Abandon(Some(e), reason, attempts) != e ==>
              Abandon(Some(e), reason, attempts) == RetryAbandoned(reason, attempts)
              && (e.Timeout? || e.Network? || e.Http?)
  {
  }
}
