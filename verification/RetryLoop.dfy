/**
  Retry loops: one layer as the library drives it, any stack of layers under a breaker,
  and any number of calls sharing a budget.
 */
module RetryLoop {
  import opened Options
  import opened Errors
  import opened Retry
  import B = RetryBudget
  import S = StormBound
  import BreakerCore

  /** The network and the budget as arbitrary scripts: the n-th send's reply and the n-th withdrawal's answer. */
  datatype Env = Env(network: nat -> Reply, granted: nat -> bool)

  datatype Progress = Progress(sent: nat, asked: nat)

  /** A request through `layers`, the first outermost, down to the network. */
  function Stack(layers: seq<Policy>, request: Request, env: Env, at: Progress): (Reply, Progress)
    decreases |layers|, 1, 0
  {
    if layers == [] then (env.network(at.sent), Progress(at.sent + 1, at.asked))
    else Attempt(layers[0], 0, layers[1..], request, env, at)
  }

  /** The rest of a layer's loop from `attempt` on. */
  function Attempt(p: Policy, attempt: nat, inner: seq<Policy>, request: Request, env: Env, at: Progress): (Reply, Progress)
    requires attempt < p.maxAttempts
    decreases |inner| + 1, 0, p.maxAttempts - attempt
  {
    var (reply, at) := Stack(inner, request, env, at);
    if reply.Ok? || !Retryable(reply.exc) then (reply, at)
    else
      match Weigh(p, attempt, request, reply.exc)
      case GiveUp => (reply, at)
      case AskBudget(_) =>
        var asked := Progress(at.sent, at.asked + 1);
        if env.granted(at.asked) then Attempt(p, attempt + 1, inner, request, env, asked)
        else (Raised(RetryBudgetExhausted(Some(reply.exc), attempt + 1)), asked)
  }

  // ---- transparency to a breaker ----

  /** `reply` is what the last send gave, perhaps wrapped once by a refusing budget. */
  predicate LastReply(reply: Reply, last: Reply) {
    || reply == last
    || (last.Raised? && Retryable(last.exc)
        && reply.Raised? && reply.exc.RetryBudgetExhausted? && reply.exc.last == Some(last.exc))
  }

  lemma {:induction false} StackEndsInLast(layers: seq<Policy>, request: Request, env: Env, at: Progress)
    ensures var (reply, end) := Stack(layers, request, env, at);
            end.sent > at.sent && LastReply(reply, env.network(end.sent - 1))
    decreases |layers|, 1, 0
  {
    if layers != [] {
      AttemptEndsInLast(layers[0], 0, layers[1..], request, env, at);
    }
  }

  lemma {:induction false} AttemptEndsInLast(p: Policy, attempt: nat, inner: seq<Policy>, request: Request, env: Env,
      at: Progress)
    requires attempt < p.maxAttempts
    ensures var (reply, end) := Attempt(p, attempt, inner, request, env, at);
            end.sent > at.sent && LastReply(reply, env.network(end.sent - 1))
    decreases |inner| + 1, 0, p.maxAttempts - attempt
  {
    StackEndsInLast(inner, request, env, at);
    var (reply, after) := Stack(inner, request, env, at);
    if reply.Raised? && Retryable(reply.exc) && Weigh(p, attempt, request, reply.exc).AskBudget? && env.granted(after.asked) {
      AttemptEndsInLast(p, attempt + 1, inner, request, env, Progress(after.sent, after.asked + 1));
    }
  }

  function OutcomeOf(codes: Option<set<int>>, reply: Reply): BreakerCore.Outcome {
    if reply.Ok? then BreakerCore.SUCCESS else Classify(codes, reply.exc)
  }

  /** A breaker outside any stack of retry layers sees the outcome of the last send, however the layers gave up. */
  lemma RetryIsTransparent(layers: seq<Policy>, codes: Option<set<int>>, request: Request, env: Env, at: Progress)
    ensures var (reply, end) := Stack(layers, request, env, at);
            end.sent > at.sent && OutcomeOf(codes, reply) == OutcomeOf(codes, env.network(end.sent - 1))
  {
    StackEndsInLast(layers, request, env, at);
  }

  /** An admitted call through a breaker records once: `_call_async` and `_call_sync` around the stack. */
  function ThroughBreaker(c: BreakerCore.Config, codes: Option<set<int>>, layers: seq<Policy>, request: Request, env: Env,
                          s: BreakerCore.Core, now: real, slot: int, openedAt: real): BreakerCore.Core
  {
    var reply := BreakerCore.Admit(c, s, now);
    if reply.answer.Admitted? then
      var (result, _) := Stack(layers, request, env, Progress(0, 0));
      BreakerCore.Record(c, reply.core, reply.answer.ticket, OutcomeOf(codes, result), slot, openedAt).core
    else reply.core
  }

  function LastSend(layers: seq<Policy>, request: Request, env: Env): nat {
    var sent := Stack(layers, request, env, Progress(0, 0)).1.sent;
    if sent == 0 then 0 else sent - 1
  }

  /** Adding retry layers under a breaker changes what it records only by letting a later send decide. */
  lemma BreakerRecordsLastSend(c: BreakerCore.Config, codes: Option<set<int>>, layers: seq<Policy>, request: Request, env: Env,
                               s: BreakerCore.Core, now: real, slot: int, openedAt: real)
    ensures var last := env.network(LastSend(layers, request, env));
            var direct := Env(_ => last, env.granted);
            ThroughBreaker(c, codes, layers, request, env, s, now, slot, openedAt)
            == ThroughBreaker(c, codes, [], request, direct, s, now, slot, openedAt)
  {
    RetryIsTransparent(layers, codes, request, env, Progress(0, 0));
  }

  // ---- one layer, as driven ----

  /** What happens at one attempt: the reply, and, should the budget be asked, the clock reading and the random draw. */
  datatype Try = Try(reply: Reply, now: real, draw: real)

  /** Retry-After waits are parsed to non-negative numbers, and random draws are in [0, 1]. */
  predicate Possible(t: Try) {
    0.0 <= t.draw <= 1.0 && (t.reply.Raised? ==> WellParsed(t.reply.exc))
  }

  /** Whether a reply to attempt `attempt` makes the loop ask the budget. */
  predicate Continues(p: Policy, request: Request, attempt: nat, reply: Reply) {
    reply.Raised? && Retryable(reply.exc) && Weigh(p, attempt, request, reply.exc).AskBudget?
  }

  /** `n` delays of at most `max_delay`. */
  function LongestSleep(p: Policy, n: nat): real {
    n as real * p.maxDelay
  }

  lemma OneMoreSleep(p: Policy, n: nat)
    ensures LongestSleep(p, 0) == 0.0 && LongestSleep(p, n + 1) == LongestSleep(p, n) + p.maxDelay
  {
  }

  /** The delay before the next attempt: the server's Retry-After if it is heeded, and full jitter otherwise. */
  function DelayOf(p: Policy, request: Request, attempt: nat, t: Try): real {
    if !Continues(p, request, attempt, t.reply) then 0.0
    else
      var wait := Weigh(p, attempt, request, t.reply.exc).wait;
      if wait.Some? then wait.value else FullJitterDelay(p, attempt, t.draw)
  }

  /** The delays after the first `n` attempts, added up. */
  function SleptAfter(p: Policy, request: Request, tries: seq<Try>, n: nat): real
    requires n <= |tries|
  {
    if n == 0 then 0.0 else SleptAfter(p, request, tries, n - 1) + DelayOf(p, request, n - 1, tries[n - 1])
  }

  /** The withdrawals of `n` retries. */
  function GrantsOf(c: B.Config, tries: seq<Try>, n: nat): seq<B.Call>
    requires n <= |tries|
  {
    if n == 0 then [] else GrantsOf(c, tries, n - 1) + [B.Grant(B.SlotAt(c, tries[n - 1].now))]
  }

  /** How one pass of the loop ends: the call is over, having asked the budget or not, or it sleeps and goes round. */
  datatype Turn = Over(result: Reply, asked: bool) | Again(delay: real)

  /** The pass ends by the reply: one worth a retry is either slept on, with an attempt left, or refused by the budget. */
  predicate Turned(p: Policy, attempt: nat, request: Request, t: Try, turn: Turn) {
    && (turn.Again? || turn.asked <==> Continues(p, request, attempt, t.reply))
    && (turn.Again? ==>
          && turn.delay == DelayOf(p, request, attempt, t)
          && 0.0 <= turn.delay <= p.maxDelay && attempt + 1 < p.maxAttempts)
    && (turn.Over? ==>
          turn.result == if turn.asked then Raised(RetryBudgetExhausted(Some(t.reply.exc), attempt + 1)) else t.reply)
  }

  /** What the pass adds to the budget's calls. */
  function AskedBy(c: B.Config, t: Try, turn: Turn): seq<B.Call> {
    if turn.Again? then [B.Grant(B.SlotAt(c, t.now))] else if turn.asked then [B.Refusal(B.SlotAt(c, t.now))] else []
  }

  method OneTurn(p: Policy, budget: B.Budget, attempt: nat, request: Request, t: Try) returns (turn: Turn)
    requires budget.Valid() && Possible(t)
    modifies budget.Repr()
    ensures budget.Valid()
    ensures Turned(p, attempt, request, t, turn)
    ensures budget.calls == old(budget.calls) + AskedBy(budget.config, t, turn)
  {
    hide Weigh, B.SlotAt, B.Permits, FullJitterDelay, B.Budget.Valid;
    if t.reply.Ok? || !Retryable(t.reply.exc) {
      return Over(t.reply, false);
    }
    var d := Decide(p, budget, attempt, request, t.reply.exc, t.now, t.draw);
    match d {
      case Raise(exc) => return Over(Raised(exc), exc != t.reply.exc);
      case Sleep(delay) => return Again(delay);
    }
  }

  /** Whether the budget refused the last attempt's retry. */
  predicate Refused(p: Policy, request: Request, tries: seq<Try>, sent: nat)
    requires 0 < sent <= |tries|
  {
    Continues(p, request, sent - 1, tries[sent - 1].reply)
  }

  /** The answer after `sent` attempts. */
  function Result(p: Policy, request: Request, tries: seq<Try>, sent: nat): Reply
    requires 0 < sent <= |tries|
  {
    if Refused(p, request, tries, sent) then Raised(RetryBudgetExhausted(Some(tries[sent - 1].reply.exc), sent))
    else tries[sent - 1].reply
  }

  /** What `sent` attempts ask of the budget: a grant after each but the last, and perhaps a refusal after that. */
  function Withdrawals(p: Policy, c: B.Config, request: Request, tries: seq<Try>, sent: nat): seq<B.Call>
    requires 0 < sent <= |tries|
  {
    GrantsOf(c, tries, sent - 1) + if Refused(p, request, tries, sent) then [B.Refusal(B.SlotAt(c, tries[sent - 1].now))] else []
  }

  /** The loop's `n` first replies were worth a retry, and it slept between them. */
  predicate Reached(p: Policy, request: Request, tries: seq<Try>, n: nat, slept: real) {
    && n < p.maxAttempts == |tries|
    && (forall k :: 0 <= k < n ==> Continues(p, request, k, tries[k].reply))
    && slept == SleptAfter(p, request, tries, n) && 0.0 <= slept <= LongestSleep(p, n)
  }

  /**
    The call ended with attempt `sent`: every reply but the last was worth a retry, and the
    last was returned as it is unless it was worth one too and the budget refused it.
   */
  predicate Ran(p: Policy, request: Request, tries: seq<Try>, result: Reply, sent: nat, slept: real) {
    0 < sent && Reached(p, request, tries, sent - 1, slept) && result == Result(p, request, tries, sent)
  }

  /** One possible `Try` per attempt the policy allows. */
  predicate Scripted(p: Policy, tries: seq<Try>) {
    |tries| == p.maxAttempts && forall k :: 0 <= k < |tries| ==> Possible(tries[k])
  }

  lemma ReachedStart(p: Policy, c: B.Config, request: Request, tries: seq<Try>)
    requires |tries| == p.maxAttempts
    ensures Reached(p, request, tries, 0, 0.0) && GrantsOf(c, tries, 0) == []
  {
    OneMoreSleep(p, 0);
  }

  lemma TurnCases(p: Policy, c: B.Config, request: Request, tries: seq<Try>, n: nat, slept: real, turn: Turn)
    requires Reached(p, request, tries, n, slept) && Turned(p, n, request, tries[n], turn)
    ensures turn.Again? ==> n + 1 < p.maxAttempts && Reached(p, request, tries, n + 1, slept + turn.delay)
    ensures turn.Again? ==> GrantsOf(c, tries, n + 1) == GrantsOf(c, tries, n) + AskedBy(c, tries[n], turn)
    ensures turn.Over? ==> Ran(p, request, tries, turn.result, n + 1, slept)
    ensures turn.Over? ==> Withdrawals(p, c, request, tries, n + 1) == GrantsOf(c, tries, n) + AskedBy(c, tries[n], turn)
  {
    OneMoreSleep(p, n);
    hide Continues, LongestSleep, B.SlotAt;
  }

  /** A reply that makes a retry worth asking for, to a request that may be sent again, condition by condition. */
  predicate WorthRetrying(p: Policy, request: Request, attempt: nat, reply: Reply) {
    && request.verb in p.retryMethods && !request.streaming && attempt + 1 < p.maxAttempts
    && reply.Raised?
    && match reply.exc
       case NetworkError => true
       case TimeoutError => true
       case StatusError(code, retryAfter) =>
         && code in p.retryStatusCodes
         && (p.respectRetryAfter && retryAfter.Some? ==> retryAfter.value.Seconds? && retryAfter.value.s <= p.maxDelay)
       case _ => false
  }

  lemma ContinuesExactly(p: Policy, request: Request, attempt: nat, reply: Reply)
    ensures Continues(p, request, attempt, reply) <==> WorthRetrying(p, request, attempt, reply)
  {
    hide Weigh;
    if reply.Raised? && Retryable(reply.exc) {
      AskedExactly(p, attempt, request, reply.exc);
    }
  }

  /** What is slept after such a reply: a heeded Retry-After, or else that fraction of the backoff ceiling. */
  lemma DelayExactly(p: Policy, request: Request, attempt: nat, t: Try)
    requires WorthRetrying(p, request, attempt, t.reply)
    ensures DelayOf(p, request, attempt, t)
         == if p.respectRetryAfter && t.reply.exc.StatusError? && t.reply.exc.retryAfter.Some? then t.reply.exc.retryAfter.value.s
            else t.draw * BackoffCeiling(p, attempt)
  {
    hide Weigh, FullJitterDelay, BackoffCeiling;
    ContinuesExactly(p, request, attempt, t.reply);
    WaitExactly(p, attempt, request, t.reply.exc);
    JitterIsProportional(p, attempt, t.draw);
  }

  /**
    In a call that ran, every attempt beyond the first followed a reply worth retrying; the
    call ended with one that was not, or with a refusal by the budget.
   */
  lemma RetriedExactly(p: Policy, request: Request, tries: seq<Try>, result: Reply, sent: nat, slept: real)
    requires Ran(p, request, tries, result, sent, slept)
    ensures forall k :: 0 <= k < sent - 1 ==> WorthRetrying(p, request, k, tries[k].reply)
    ensures var last := tries[sent - 1].reply;
            result == if WorthRetrying(p, request, sent - 1, last) then Raised(RetryBudgetExhausted(Some(last.exc), sent)) else last
  {
    hide Continues, LongestSleep, SleptAfter;
    forall k | 0 <= k < sent
      ensures Continues(p, request, k, tries[k].reply) <==> WorthRetrying(p, request, k, tries[k].reply)
    {
      ContinuesExactly(p, request, k, tries[k].reply);
    }
  }

  /**
    `Retry.__call__`: the call deposits once, and every attempt but the first has its own
    grant.
   */
  method Call(p: Policy, budget: B.Budget, request: Request, start: real, tries: seq<Try>)
    returns (result: Reply, sent: nat, slept: real)
    requires budget.Valid() && Scripted(p, tries)
    modifies budget.Repr()
    ensures budget.Valid()
    ensures Ran(p, request, tries, result, sent, slept)
    ensures budget.calls == old(budget.calls) + [B.Deposit(B.SlotAt(budget.config, start))]
        + Withdrawals(p, budget.config, request, tries, sent)
  {
    hide Ran, Withdrawals, B.SlotAt, B.Budget.Valid;
    budget.DepositOne(start);
    result, sent, slept := Attempts(p, budget, request, tries);
  }

  /** The loop of a call; it never falls through to its last line. */
  method Attempts(p: Policy, budget: B.Budget, request: Request, tries: seq<Try>) returns (result: Reply, sent: nat, slept: real)
    requires budget.Valid() && Scripted(p, tries)
    modifies budget.Repr()
    ensures budget.Valid()
    ensures Ran(p, request, tries, result, sent, slept)
    ensures budget.calls == old(budget.calls) + Withdrawals(p, budget.config, request, tries, sent)
  {
    hide Reached, Turned, Ran, AskedBy, GrantsOf, Withdrawals, SleptAfter, LongestSleep, Continues, Refused, Result,
        Possible, B.SlotAt, B.Budget.Valid;
    ReachedStart(p, budget.config, request, tries);
    slept := 0.0;
    for attempt := 0 to p.maxAttempts
      invariant budget.Valid() && attempt < p.maxAttempts
      invariant Reached(p, request, tries, attempt, slept)
      invariant budget.calls == old(budget.calls) + GrantsOf(budget.config, tries, attempt)
    {
      var turn := OneTurn(p, budget, attempt, request, tries[attempt]);
      TurnCases(p, budget.config, request, tries, attempt, slept, turn);
      if turn.Over? {
        return turn.result, attempt + 1, slept;
      }
      slept := slept + turn.delay;
    }
    assert false;
  }

  function Network(tries: seq<Try>): nat -> Reply {
    i => if 0 <= i < |tries| then tries[i].reply else Ok(0)
  }

  /** The budget's answers in a call that was granted `n` retries. */
  function GrantedFirst(n: nat): nat -> bool {
    i => i < n
  }

  /** Granted retries can be skipped over: the loop's answer is that of its `end`-th attempt. */
  lemma {:induction false} AttemptsSkipped(p: Policy, request: Request, env: Env, k: nat, end: nat)
    requires k <= end < p.maxAttempts
    requires forall i: nat :: k <= i < end ==> Continues(p, request, i, env.network(i)) && env.granted(i)
    ensures Attempt(p, k, [], request, env, Progress(k, k)) == Attempt(p, end, [], request, env, Progress(end, end))
    decreases end - k
  {
    if k < end {
      assert Continues(p, request, k, env.network(k));
      assert Stack([], request, env, Progress(k, k)) == (env.network(k), Progress(k + 1, k));
      AttemptsSkipped(p, request, env, k + 1, end);
    }
  }

  /** What `Call` returns is what a stack of this one layer means, with the budget answering as it did. */
  lemma CallIsStack(p: Policy, request: Request, tries: seq<Try>, sent: nat)
    requires 0 < sent <= |tries| == p.maxAttempts
    requires forall k :: 0 <= k < sent - 1 ==> Continues(p, request, k, tries[k].reply)
    ensures var env := Env(Network(tries), GrantedFirst(sent - 1));
            var asked := if Refused(p, request, tries, sent) then sent else sent - 1;
            Stack([p], request, env, Progress(0, 0)) == (Result(p, request, tries, sent), Progress(sent, asked))
  {
    var n, env := sent - 1, Env(Network(tries), GrantedFirst(sent - 1));
    AttemptsSkipped(p, request, env, 0, n);
    assert [p][1..] == [];
    assert Stack([], request, env, Progress(n, n)) == (env.network(n), Progress(n + 1, n));
  }

  // ---- many calls, one budget ----

  datatype Phase = Idle | InFlight(request: Request, attempt: nat) | Sleeping(request: Request, attempt: nat)

  /**
    `sent` counts every attempt of every call; `attempts[i]` and `slept[i]` are the attempts
    and the sleep of the present call of caller `i`, or of its last one.
   */
  datatype Shared = Shared(phases: seq<Phase>, calls: seq<B.Call>, sent: nat, attempts: seq<nat>, slept: seq<real>)

  /** Caller `i` starts a call; gets a reply and, if it wants to retry, asks the budget; wakes up; or is cancelled. */
  datatype Act =
    | Begin(i: nat, request: Request, slot: int)
    | Receive(i: nat, t: Try)
    | Wake(i: nat)
    | Cancel(i: nat)

  predicate CanAct(s: Shared, a: Act) {
    && a.i < |s.phases| == |s.attempts| == |s.slept|
    && match a
       case Begin(i, _, _) => s.phases[i].Idle?
       case Receive(i, t) => s.phases[i].InFlight? && Possible(t)
       case Wake(i) => s.phases[i].Sleeping?
       case Cancel(i) => true
  }

  function ActOn(c: B.Config, ps: seq<Policy>, s: Shared, a: Act): Shared
    requires CanAct(s, a) && |ps| == |s.phases|
  {
    var phase := s.phases[a.i];
    match a
    case Begin(i, request, slot) =>
      Shared(s.phases[i := InFlight(request, 0)], s.calls + [B.Deposit(slot)], s.sent + 1, s.attempts[i := 1], s.slept[i := 0.0])
    case Receive(i, t) =>
      var slot := B.SlotAt(c, t.now);
      if !Continues(ps[i], phase.request, phase.attempt, t.reply) then s.(phases := s.phases[i := Idle])
      else if B.Permits(c, s.calls, slot) then
        s.(phases := s.phases[i := Sleeping(phase.request, phase.attempt + 1)], calls := s.calls + [B.Grant(slot)],
           slept := s.slept[i := s.slept[i] + DelayOf(ps[i], phase.request, phase.attempt, t)])
      else s.(phases := s.phases[i := Idle], calls := s.calls + [B.Refusal(slot)])
    case Wake(i) =>
      s.(phases := s.phases[i := InFlight(phase.request, phase.attempt)], sent := s.sent + 1,
          attempts := s.attempts[i := s.attempts[i] + 1])
    case Cancel(i) => s.(phases := s.phases[i := Idle])
  }

  function Sleepers(phases: seq<Phase>): nat {
    if phases == [] then 0 else (if phases[0].Sleeping? then 1 else 0) + Sleepers(phases[1..])
  }

  lemma {:induction false} SleepersUpdate(phases: seq<Phase>, i: nat, t: Phase)
    requires i < |phases|
    ensures Sleepers(phases[i := t]) + (if phases[i].Sleeping? then 1 else 0) == Sleepers(phases) + if t.Sleeping? then 1 else 0
  {
    if i == 0 {
      assert phases[0 := t][1..] == phases[1..];
    } else {
      assert phases[i := t][1..] == phases[1..][i - 1 := t];
      SleepersUpdate(phases[1..], i - 1, t);
    }
  }

  /** A call has made `attempts` attempts and slept `slept`: no more than its policy's, at any time. */
  predicate WithinPolicy(p: Policy, attempts: nat, slept: real) {
    attempts <= p.maxAttempts && 0.0 <= slept <= LongestSleep(p, p.maxAttempts - 1)
  }

  /** The same, by how far the call is: one sleep before each attempt but the first. */
  predicate CallOk(p: Policy, phase: Phase, attempts: nat, slept: real) {
    && WithinPolicy(p, attempts, slept)
    && (!phase.Idle? ==> phase.attempt < p.maxAttempts && 0.0 <= slept <= LongestSleep(p, phase.attempt))
    && (phase.InFlight? ==> attempts == phase.attempt + 1)
    && (phase.Sleeping? ==> attempts == phase.attempt)
  }

  ghost predicate SharedOk(c: B.Config, ps: seq<Policy>, s: Shared) {
    && |ps| == |s.phases| == |s.attempts| == |s.slept|
    && B.Lawful(c, s.calls)
    && s.sent + Sleepers(s.phases) <= S.Deposits(s.calls) + S.Grants(s.calls)
    && forall i :: 0 <= i < |s.phases| ==> CallOk(ps[i], s.phases[i], s.attempts[i], s.slept[i])
  }

  lemma {:induction false} SleepsGrow(p: Policy, m: nat, n: nat)
    requires m <= n
    ensures 0.0 <= LongestSleep(p, m) <= LongestSleep(p, n)
  {
    hide LongestSleep;
    OneMoreSleep(p, 0);
    if m < n {
      SleepsGrow(p, m, n - 1);
      OneMoreSleep(p, n - 1);
    } else if n > 0 {
      SleepsGrow(p, n - 1, n - 1);
      OneMoreSleep(p, n - 1);
    }
  }

  /** A delay is at most `max_delay`, and there is an attempt left for it. */
  lemma DelayBounded(p: Policy, request: Request, attempt: nat, t: Try)
    requires Continues(p, request, attempt, t.reply) && Possible(t)
    ensures 0.0 <= DelayOf(p, request, attempt, t) <= p.maxDelay && attempt + 1 < p.maxAttempts
  {
    hide FullJitterDelay;
    JitterBounded(p, attempt, t.draw);
  }

  lemma CallKeeps(c: B.Config, ps: seq<Policy>, s: Shared, a: Act)
    requires CanAct(s, a) && |ps| == |s.phases| && CallOk(ps[a.i], s.phases[a.i], s.attempts[a.i], s.slept[a.i])
    ensures var s' := ActOn(c, ps, s, a);
            && |s'.phases| == |s'.attempts| == |s'.slept| == |s.phases|
            && CallOk(ps[a.i], s'.phases[a.i], s'.attempts[a.i], s'.slept[a.i])
            && forall i :: 0 <= i < |s.phases| && i != a.i ==>
                 s'.phases[i] == s.phases[i] && s'.attempts[i] == s.attempts[i] && s'.slept[i] == s.slept[i]
  {
    hide B.Permits, B.SlotAt, LongestSleep, Continues, DelayOf;
    var p, phase := ps[a.i], s.phases[a.i];
    OneMoreSleep(p, 0);
    SleepsGrow(p, 0, p.maxAttempts - 1);
    if a.Receive? && Continues(p, phase.request, phase.attempt, a.t.reply) {
      DelayBounded(p, phase.request, phase.attempt, a.t);
      OneMoreSleep(p, phase.attempt);
      SleepsGrow(p, phase.attempt + 1, p.maxAttempts - 1);
    }
  }

  /** Each attempt beyond a call's first was granted, and no call gets past its last one. */
  lemma ActKeeps(c: B.Config, ps: seq<Policy>, s: Shared, a: Act)
    requires SharedOk(c, ps, s) && CanAct(s, a)
    ensures SharedOk(c, ps, ActOn(c, ps, s, a))
  {
    hide B.Permits, B.SlotAt, S.Deposits, S.Grants, CallOk, Continues, DelayOf;
    var s' := ActOn(c, ps, s, a);
    CallKeeps(c, ps, s, a);
    SleepersUpdate(s.phases, a.i, s'.phases[a.i]);
    if |s'.calls| > |s.calls| {
      var call := s'.calls[|s.calls|];
      assert s'.calls == s.calls + [call];
      CountsAppend(s.calls, call);
      B.LawfulAppend(c, s.calls, call);
    }
  }

  lemma CountsAppend(calls: seq<B.Call>, call: B.Call)
    ensures S.Deposits(calls + [call]) == S.Deposits(calls) + if call.Deposit? then 1 else 0
    ensures S.Grants(calls + [call]) == S.Grants(calls) + if call.Grant? then 1 else 0
  {
    assert (calls + [call])[..|calls|] == calls;
  }

  ghost predicate SharedRun(c: B.Config, ps: seq<Policy>, states: seq<Shared>, acts: seq<Act>) {
    && |states| == |acts| + 1
    && |states[0].phases| == |ps| && states[0].calls == [] && states[0].sent == 0
    && |states[0].attempts| == |states[0].slept| == |ps|
    && (forall i :: 0 <= i < |ps| ==> states[0].phases[i] == Idle && states[0].attempts[i] == 0 && states[0].slept[i] == 0.0)
    && forall k :: 0 <= k < |acts| ==>
         && CanAct(states[k], acts[k]) && |states[k].phases| == |ps|
         && states[k + 1] == ActOn(c, ps, states[k], acts[k])
  }

  lemma {:induction false} NoSleepers(phases: seq<Phase>)
    requires forall i :: 0 <= i < |phases| ==> phases[i] == Idle
    ensures Sleepers(phases) == 0
  {
    if phases != [] {
      NoSleepers(phases[1..]);
    }
  }

  lemma IdleOk(p: Policy)
    ensures CallOk(p, Idle, 0, 0.0)
  {
    hide LongestSleep;
    SleepsGrow(p, 0, p.maxAttempts - 1);
  }

  lemma {:induction false} SharedRunOk(c: B.Config, ps: seq<Policy>, states: seq<Shared>, acts: seq<Act>)
    requires SharedRun(c, ps, states, acts)
    ensures SharedOk(c, ps, states[|acts|])
  {
    hide CallOk, CanAct, ActOn;
    if acts == [] {
      NoSleepers(states[0].phases);
      forall i | 0 <= i < |ps|
        ensures CallOk(ps[i], Idle, 0, 0.0)
      {
        IdleOk(ps[i]);
      }
    } else {
      var n := |acts| - 1;
      SharedRunOk(c, ps, states[..n + 1], acts[..n]);
      ActKeeps(c, ps, states[n], acts[n]);
    }
  }

  /** The calls started, and the attempts sent: the first of each call, and one after each sleep. */
  function Started(acts: seq<Act>): nat {
    if acts == [] then 0 else Started(acts[..|acts| - 1]) + if acts[|acts| - 1].Begin? then 1 else 0
  }

  function Sent(acts: seq<Act>): nat {
    if acts == [] then 0
    else Sent(acts[..|acts| - 1]) + if acts[|acts| - 1].Begin? || acts[|acts| - 1].Wake? then 1 else 0
  }

  lemma ActCounts(c: B.Config, ps: seq<Policy>, s: Shared, a: Act)
    requires CanAct(s, a) && |ps| == |s.phases|
    ensures var s' := ActOn(c, ps, s, a);
            && s'.sent == s.sent + (if a.Begin? || a.Wake? then 1 else 0)
            && S.Deposits(s'.calls) == S.Deposits(s.calls) + if a.Begin? then 1 else 0
  {
    hide Continues, DelayOf, B.Permits, B.SlotAt, S.Deposits;
    var s' := ActOn(c, ps, s, a);
    if |s'.calls| > |s.calls| {
      CountsAppend(s.calls, s'.calls[|s.calls|]);
      assert s'.calls == s.calls + [s'.calls[|s.calls|]];
    }
  }

  /** `sent` counts the attempts, and deposits count the calls. */
  lemma {:induction false} SharedCounts(c: B.Config, ps: seq<Policy>, states: seq<Shared>, acts: seq<Act>)
    requires SharedRun(c, ps, states, acts)
    ensures states[|acts|].sent == Sent(acts) && S.Deposits(states[|acts|].calls) == Started(acts)
  {
    hide CanAct, ActOn, S.Deposits;
    if acts == [] {
      NoDeposits();
    } else {
      var n := |acts| - 1;
      SharedCounts(c, ps, states[..n + 1], acts[..n]);
      ActCounts(c, ps, states[n], acts[n]);
    }
  }

  lemma NoDeposits()
    ensures S.Deposits([]) == 0
  {
  }

  /**
    No retry storm: however N calls sharing a budget interleave and whatever the network
    does, they make at most N + B * (floor + 1) + 2 * percent * N attempts, with B the
    aligned ten-slot blocks in which a retry was granted. None of them makes more attempts,
    or sleeps longer, than its own policy allows.
   */
  lemma NoRetryStorm(c: B.Config, ps: seq<Policy>, states: seq<Shared>, acts: seq<Act>)
    requires SharedRun(c, ps, states, acts)
    ensures var n, blocks := Started(acts), S.BlocksWithGrants(states[|acts|].calls);
            Sent(acts) as real <= n as real + (blocks * (c.Floor() + 1)) as real + 2.0 * S.Share(c, n)
    ensures var s := states[|acts|];
            && |s.attempts| == |s.slept| == |ps|
            && forall i :: 0 <= i < |ps| ==> WithinPolicy(ps[i], s.attempts[i], s.slept[i])
  {
    hide WithinPolicy, B.Lawful, S.Deposits, S.Grants, S.BlocksWithGrants, S.Share, CanAct, ActOn, Sent, Started;
    SharedCounts(c, ps, states, acts);
    SharedRunOk(c, ps, states, acts);
    S.GrantsBounded(c, states[|acts|].calls);
  }
}
