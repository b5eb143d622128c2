/** The exceptions the resilience layer tells apart. */
module Errors {
  import opened Options
  import opened BreakerCore

  datatype Exc =
    | StatusError(code: int, retryAfter: Option<Wait>)
    | NetworkError
    | TimeoutError
    | RetryBudgetExhausted(last: Option<Exc>, attempts: nat)
    | Other

  /** A parsed Retry-After: seconds, or more than any float. */
  datatype Wait = Seconds(s: real) | Forever

  /** `codes` is the caller's `failure_status_codes`; without it every 5xx is a failure. */
  predicate IsFailureCode(codes: Option<set<int>>, code: int) {
    if codes.Some? then code in codes.value else 500 <= code < 600
  }

  /** `classify`: one unwrap of a budget refusal, then the breaker's view of the exception. */
  function Classify(codes: Option<set<int>>, exc: Exc): Outcome {
    var inner := if exc.RetryBudgetExhausted? then exc.last else Some(exc);
    match inner
    case Some(StatusError(code, _)) => if IsFailureCode(codes, code) then FAILURE else SUCCESS
    case Some(NetworkError) => FAILURE
    case Some(TimeoutError) => FAILURE
    case _ => FOREIGN
  }

  /**
    A failure is a network error, a timeout, or a status error with one of the caller's codes,
    or one from 500 to 599 if the caller gave none; any other status error is a success. A
    budget's refusal stands for the exception it followed, once; all else is foreign.
   */
  lemma ClassifiesExactly(codes: Option<set<int>>, exc: Exc)
    requires !exc.RetryBudgetExhausted?
    ensures var failing := exc.StatusError? && if codes.Some? then exc.code in codes.value else 500 <= exc.code <= 599;
            && (Classify(codes, exc) == FAILURE <==> exc.NetworkError? || exc.TimeoutError? || failing)
            && (Classify(codes, exc) == SUCCESS <==> exc.StatusError? && !failing)
    ensures forall attempts: nat :: Classify(codes, RetryBudgetExhausted(Some(exc), attempts)) == Classify(codes, exc)
    ensures forall attempts: nat :: Classify(codes, RetryBudgetExhausted(None, attempts)) == FOREIGN
    ensures forall last: Option<Exc>, m: nat, n: nat ::
              Classify(codes, RetryBudgetExhausted(Some(RetryBudgetExhausted(last, m)), n)) == FOREIGN
  {
  }
}
