/**
  The retry policy: the backoff before each attempt, and what a failed attempt leads to.
 */
module Retry {
  import opened Options
  import opened Errors
  import B = RetryBudget

  datatype RawPolicy = Policy(
    maxAttempts: int,
    baseDelay: real,
    maxDelay: real,
    retryStatusCodes: set<int>,
    retryMethods: set<string>,
    respectRetryAfter: bool
  ) {
    predicate Valid() { maxAttempts >= 1 && baseDelay >= 0.0 && maxDelay >= 0.0 }
  }

  type Policy = p: RawPolicy | p.Valid() witness Policy(3, 0.1, 5.0, {408, 429, 502, 503, 504},
      {"GET", "HEAD", "OPTIONS", "PUT", "DELETE"}, true)

  datatype Request = Request(verb: string, streaming: bool)

  /** What one try of the rest of the chain gives back. */
  datatype Reply = Ok(response: int) | Raised(exc: Exc)

  // ---- backoff ----

  /** `2.0 ** attempt` overflows a float from this exponent on. */
  const FLOAT_EXPONENTS: nat := 1024

  function Pow2(n: nat): real {
    if n == 0 then 1.0 else 2.0 * Pow2(n - 1)
  }

  function Min(x: real, y: real): real {
    if x < y then x else y
  }

  function Exponential(p: Policy, attempt: nat): real {
    p.baseDelay * Pow2(attempt)
  }

  function BackoffCeiling(p: Policy, attempt: nat): real {
    if attempt >= FLOAT_EXPONENTS then p.maxDelay else Min(p.maxDelay, Exponential(p, attempt))
  }

  function Fraction(draw: real, whole: real): real {
    draw * whole
  }

  /** `uniform(0, ceiling)`, with `draw` the random number in [0, 1]. */
  function FullJitterDelay(p: Policy, attempt: nat, draw: real): real {
    Fraction(draw, BackoffCeiling(p, attempt))
  }

  lemma {:induction false} Pow2Positive(n: nat)
    ensures Pow2(n) > 0.0
  {
    if n > 0 {
      Pow2Positive(n - 1);
    }
  }

  lemma ExponentialNonNegative(p: Policy, attempt: nat)
    ensures Exponential(p, attempt) >= 0.0
  {
    Pow2Positive(attempt);
    Product(p.baseDelay, Pow2(attempt));
  }

  lemma Product(x: real, y: real)
    requires x >= 0.0 && y >= 0.0
    ensures x * y >= 0.0
  {
  }

  lemma JitterBounded(p: Policy, attempt: nat, draw: real)
    requires 0.0 <= draw <= 1.0
    ensures 0.0 <= FullJitterDelay(p, attempt, draw) <= p.maxDelay
  {
    hide BackoffCeiling, Fraction;
    CeilingBounded(p, attempt);
    Proportion(draw, BackoffCeiling(p, attempt));
  }

  lemma CeilingBounded(p: Policy, attempt: nat)
    ensures 0.0 <= BackoffCeiling(p, attempt) <= p.maxDelay
  {
    hide Exponential;
    ExponentialNonNegative(p, attempt);
  }

  lemma Proportion(draw: real, ceiling: real)
    requires 0.0 <= draw <= 1.0 && ceiling >= 0.0
    ensures 0.0 <= Fraction(draw, ceiling) <= ceiling
  {
    Product(draw, ceiling);
    Product(1.0 - draw, ceiling);
    Minus(draw, ceiling);
  }

  lemma Minus(draw: real, ceiling: real)
    ensures (1.0 - draw) * ceiling == ceiling - draw * ceiling
  {
  }

  /** The clamp past the float range is the promised minimum exactly when the product has really reached `max_delay`. */
  lemma ClampIsMinimumExactly(p: Policy, attempt: nat)
    ensures BackoffCeiling(p, attempt) == Min(p.maxDelay, Exponential(p, attempt))
       <==> attempt < FLOAT_EXPONENTS || Exponential(p, attempt) >= p.maxDelay
  {
    hide Exponential;
  }

  /** With no base delay it never is: the clamp waits up to `max_delay` where the minimum is 0. */
  lemma ClampMissesZeroBase(p: Policy)
    requires p.baseDelay == 0.0 && p.maxDelay > 0.0
    ensures BackoffCeiling(p, FLOAT_EXPONENTS) > Min(p.maxDelay, Exponential(p, FLOAT_EXPONENTS))
  {
    hide Pow2;
  }

  /**
    The ceiling starts at `base_delay` and doubles with each attempt, `max_delay` being the most,
    up to exponent 1023; from 1024 on it is `max_delay`.
   */
  lemma CeilingDoubles(p: Policy, attempt: nat)
    ensures BackoffCeiling(p, 0) == if p.maxDelay < p.baseDelay then p.maxDelay else p.baseDelay
    ensures attempt < 1023 ==>
              var twice := 2.0 * BackoffCeiling(p, attempt);
              BackoffCeiling(p, attempt + 1) == if p.maxDelay < twice then p.maxDelay else twice
    ensures attempt >= 1024 ==> BackoffCeiling(p, attempt) == p.maxDelay
  {
    ExponentialDoubles(p, attempt);
    ExponentialNonNegative(p, attempt);
    hide Exponential;
  }

  lemma ExponentialDoubles(p: Policy, attempt: nat)
    ensures Exponential(p, 0) == p.baseDelay && Exponential(p, attempt + 1) == 2.0 * Exponential(p, attempt)
  {
  }

  /** The delay is the same fraction of the ceiling as the draw is of 1. */
  lemma JitterIsProportional(p: Policy, attempt: nat, draw: real)
    ensures FullJitterDelay(p, attempt, draw) == draw * BackoffCeiling(p, attempt)
  {
    hide BackoffCeiling;
  }

  // ---- one decision ----

  predicate Retryable(exc: Exc) {
    exc.StatusError? || exc.NetworkError? || exc.TimeoutError?
  }

  /** What `decide` settles before it asks the budget: give up with the exception, or ask; a wait is the server's Retry-After. */
  datatype Verdict = GiveUp | AskBudget(wait: Option<real>)

  function Weigh(p: Policy, attempt: nat, request: Request, exc: Exc): Verdict
    requires Retryable(exc)
  {
    var eligible := request.verb in p.retryMethods && (exc.StatusError? ==> exc.code in p.retryStatusCodes);
    if !eligible || request.streaming || attempt + 1 >= p.maxAttempts then GiveUp
    else
      var retryAfter := if p.respectRetryAfter && exc.StatusError? then exc.retryAfter else None;
      match retryAfter
      case None => AskBudget(None)
      case Some(Forever) => GiveUp
      case Some(Seconds(s)) => if s > p.maxDelay then GiveUp else AskBudget(Some(s))
  }

  /** Retry-After values are parsed to non-negative waits. */
  predicate WellParsed(exc: Exc) {
    exc.StatusError? && exc.retryAfter.Some? && exc.retryAfter.value.Seconds? ==> exc.retryAfter.value.s >= 0.0
  }

  // ---- the decision, condition by condition ----

  /**
    The budget is asked if and only if the method is a retryable one, so is a status error's
    code, the body can be sent again, an attempt is left, and no heeded Retry-After is longer
    than `max_delay`.
   */
  lemma AskedExactly(p: Policy, attempt: nat, request: Request, exc: Exc)
    requires exc.StatusError? || exc.NetworkError? || exc.TimeoutError?
    ensures Weigh(p, attempt, request, exc).AskBudget?
       <==> && request.verb in p.retryMethods
            && (exc.StatusError? ==> exc.code in p.retryStatusCodes)
            && !request.streaming
            && attempt + 1 < p.maxAttempts
            && (p.respectRetryAfter && exc.StatusError? && exc.retryAfter.Some? ==>
                  exc.retryAfter.value.Seconds? && exc.retryAfter.value.s <= p.maxDelay)
  {
  }

  /** A heeded Retry-After is slept as it is; else the delay is the random fraction of the backoff ceiling. */
  lemma WaitExactly(p: Policy, attempt: nat, request: Request, exc: Exc)
    requires Retryable(exc) && Weigh(p, attempt, request, exc).AskBudget?
    ensures Weigh(p, attempt, request, exc).wait
         == if p.respectRetryAfter && exc.StatusError? && exc.retryAfter.Some? then Some(exc.retryAfter.value.s) else None
  {
  }

  /** Network errors, timeouts and status errors may be retried; nothing else is. */
  lemma RetryableExactly(exc: Exc)
    ensures Retryable(exc) <==> exc != Other && !exc.RetryBudgetExhausted?
  {
  }

  datatype Decision = Sleep(delay: real) | Raise(exc: Exc)

  method Decide(p: Policy, budget: B.Budget, attempt: nat, request: Request, exc: Exc, now: real, draw: real)
    returns (d: Decision)
    requires Retryable(exc) && WellParsed(exc) && 0.0 <= draw <= 1.0 && budget.Valid()
    modifies budget.Repr()
    ensures budget.Valid()
    ensures var verdict := Weigh(p, attempt, request, exc);
            var slot := B.SlotAt(budget.config, now);
            match verdict
            case GiveUp => d == Raise(exc) && budget.calls == old(budget.calls)
            case AskBudget(wait) =>
              if B.Permits(budget.config, old(budget.calls), slot) then
                && d.Sleep? && 0.0 <= d.delay <= p.maxDelay
                && d.delay == (if wait.Some? then wait.value else FullJitterDelay(p, attempt, draw))
                && budget.calls == old(budget.calls) + [B.Grant(slot)]
              else
                && d == Raise(RetryBudgetExhausted(Some(exc), attempt + 1))
                && budget.calls == old(budget.calls) + [B.Refusal(slot)]
    ensures attempt + 1 >= p.maxAttempts ==> d.Raise?
  {
    hide FullJitterDelay, B.Permits, B.SlotAt;
    var methodEligible := request.verb in p.retryMethods;
    if exc.StatusError? {
      if !methodEligible || exc.code !in p.retryStatusCodes {
        return Raise(exc);
      }
    } else if !methodEligible {
      return Raise(exc);
    }
    if request.streaming {
      return Raise(exc);
    }
    if attempt + 1 >= p.maxAttempts {
      return Raise(exc);
    }
    var retryAfter: Option<Wait> := None;
    if p.respectRetryAfter && exc.StatusError? {
      retryAfter := exc.retryAfter;
    }
    if retryAfter.Some? && (retryAfter.value.Forever? || retryAfter.value.s > p.maxDelay) {
      return Raise(exc);
    }
    var granted := budget.TryWithdraw(now);
    if !granted {
      return Raise(RetryBudgetExhausted(Some(exc), attempt + 1));
    }
    if retryAfter.Some? {
      return Sleep(retryAfter.value.s);
    }
    JitterBounded(p, attempt, draw);
    return Sleep(FullJitterDelay(p, attempt, draw));
  }
}
