# httpware, modelled and proved

httpware is a client layer that adds circuit breaking, retries with a shared budget, a cap
on response bodies, decoding and log redaction to an HTTP client. This project models its
stateful cores in Dafny and proves what they promise.

- **Rolling windows** (`RingLog`, `RollingWindow`, `WindowAge`). Ten-bucket rings with
  running totals stand for a log of every event. A reading older than one already used
  counts in the current bucket, so an event's effective slot is the running maximum.
- **Circuit breaker** (`BreakerCore`, `BreakerState`, `BreakerRuns`, `BreakerTheorems`,
  `BreakerReplies`). The CLOSED / OPEN / HALF_OPEN machine as an object updated in place, as
  a machine whose admissions and recordings are atomic, and as a transition system with the
  outstanding tickets, the outcomes of the era, the rejections of the outage and the emitted
  events kept beside it.
- **Threads** (`BreakerThreads`, `Linearizability`). Each critical section as a program of
  single field writes, run by any number of threads, with the lock-free read of
  `closed_ticket` beside it: every interleaving is linearizable, answers and events
  included.
- **Keyed breaker** (`Keyed`). Requests that race to find or create circuits, and act on the
  ones they got: one breaker per key.
- **Retry budget** (`RetryBudget`, `StormBound`, `TimestampBudget`, `BudgetDrift`). The two
  rings, the bound on grants over any life of a budget, and the comparison with a budget
  that keeps every timestamp (the demo's).
- **Retry** (`Retry`, `RetryLoop`, `Errors`). The decision, the loop, stacks of layers under
  a breaker, and any number of calls sharing a budget.
- **Demo breaker** (`DemoBreaker`). The documentation's simple breaker beside the library's.
- **Capped driver and body cap** (`CappedDriver`, `CappedTrace`, `BodyCap`). Redirects and
  auth steps against an adversarial server and flow, and the loops over body chunks.
- **Decoders** (`TypeGraph`, `AdapterCache`) and **redaction** (`Redaction`).

The order of the events of the world is an input: clock readings, random draws, replies,
auth steps and chunks are parameters, arbitrary unless a contract says otherwise. Numbers
the library holds as floats are reals, `-math.inf` is `None`, and Python's lists are
sequences assigned whole.

Names differ where Dafny asks for it: `_advance` is `Advance`, the locked part of `try_withdraw`
is `WithdrawIn`, and a loop body that keeps its own contract is a method of its own
(`OneTurn`, `OneRound`). A method's contract ties the new state to a function of the old
one; what that function means is then proved as lemmas over all runs.

`dafny verify dfyconfig.toml` checks the project.

## Where the code and its documentation differ

The model follows the code.

- `full_jitter_delay` documents the delay as uniform between 0 and the lesser of `max_delay`
  and `base_delay * 2.0 ** attempt_index`
  (`src/httpware/middleware/resilience/_backoff.py:16`). Past the float range it uses
  `max_delay` alone, which is not that lesser value when `base_delay` is 0 or too small for
  the product to have reached `max_delay`. `Retry.ClampIsMinimumExactly` gives the exact
  condition and `Retry.ClampMissesZeroBase` the case of no base delay. The bound
  [0, max_delay] always holds.
- `docs/resilience.md:203` lists `circuit.opened` for CLOSED to OPEN only. A failed probe
  emits it too (`src/httpware/middleware/resilience/circuit_breaker.py:303-304`).
  `BreakerTheorems.OpenedExactly` says exactly which steps do.
- `docs/demos/engine.js:72-76` calls its retry budget a byte-faithful port. It keeps
  timestamps where the library has buckets. `BudgetDrift.AlikeExactly` shows that the two can
  come to different decisions unless the budget never grants, and
  `BudgetDrift.AlikeWithoutGrey` that they do not while no event is on the edge of expiry;
  `TimestampBudget.Sandwiched` bounds the library by mixed ages. The demo's breaker has no
  tickets; `DemoBreaker.OverlappingRunsAgreeExactly` says exactly when that tells.

## Model

| member | source | states |
|---|---|---|
| `RingLog.EntriesCountHistory` | src/httpware/middleware/resilience/circuit_breaker.py:134-169 | counting the filed log above a cutoff is counting, on the raw history, the events since the last clear whose effective slot (the running maximum when they were recorded) is above it |
| `RingLog.HighSlotIsMaximum` | src/httpware/middleware/resilience/circuit_breaker.py:134-137 | the current slot is the highest that any reading so far was in, and there is none before the first |
| `RingLog.RingRotates` | src/httpware/middleware/resilience/circuit_breaker.py:142-147 | reusing the bucket of the slot that falls out, and taking its counts off the totals, leaves the ten buckets, their sums and the totals equal to the live counts one slot later |
| `RingLog.RingRestarts` | src/httpware/middleware/resilience/circuit_breaker.py:139-140 | a ring ten or more slots behind may be zeroed whole: nothing in it is live any more |
| `RingLog.RingFiles` | src/httpware/middleware/resilience/circuit_breaker.py:151-158 | one more event in the current bucket and total is one more live event |
| `RingLog.RingClears` | src/httpware/middleware/resilience/circuit_breaker.py:165-169 | zeroed buckets and totals agree with a log cut off by a clear, at any current slot |
| `RollingWindow.Window.Advance` | src/httpware/middleware/resilience/circuit_breaker.py:134-149 | over any history, at any clock reading even a decreasing one, the window keeps its totals equal to the bucket sums and the live counts, and visits at most nine buckets one by one |
| `RollingWindow.Window.Record` | src/httpware/middleware/resilience/circuit_breaker.py:151-158 | appends one outcome, in the slot of its reading, to the history the buckets stand for |
| `RollingWindow.Window.Totals` | src/httpware/middleware/resilience/circuit_breaker.py:160-163 | returns what the whole log says is live: all outcomes and the failures among them |
| `RollingWindow.Window.Clear` | src/httpware/middleware/resilience/circuit_breaker.py:165-169 | forgets every outcome but keeps the current slot, so a later, older reading still counts as current |
| `WindowAge.WindowByAge` | src/httpware/middleware/resilience/circuit_breaker.py:115-163 | with a forward clock the totals count every outcome of age at most 0.9 window_seconds and none of age window_seconds or more |
| `BreakerReplies.WindowSlotIs` | src/httpware/middleware/resilience/circuit_breaker.py:126-127 | a slot of the window is a tenth of window_seconds |
| `BreakerState.CircuitBreakerState.Admit` | src/httpware/middleware/resilience/circuit_breaker.py:260-277 | fields updated in place: the whole new state, the answer and the events handed over are those of the atomic admission |
| `BreakerState.CircuitBreakerState.Record` | src/httpware/middleware/resilience/circuit_breaker.py:289-308 | the whole new state and the events handed over are those of the atomic recording, where the two bucket arrays are a log that forgets nothing |
| `BreakerState.CircuitBreakerState.Reject` | src/httpware/middleware/resilience/circuit_breaker.py:315-324 | a refusal counts, and is emitted or suppressed, as the atomic machine says |
| `BreakerState.CircuitBreakerState.RecordProbeSuccess` | src/httpware/middleware/resilience/circuit_breaker.py:334-343 | closing resets counters and window and reports the rejections of the outage |
| `BreakerState.CircuitBreakerState.EnterOpen` | src/httpware/middleware/resilience/circuit_breaker.py:350-359 | opening from CLOSED starts a new outage; reopening from HALF_OPEN keeps the running one |
| `BreakerState.CircuitBreakerState.RecordOutcome` | src/httpware/middleware/resilience/circuit_breaker.py:380-387 | the rate test on totals and a quotient decides what the live log decides |
| `BreakerState.RateAsProduct` | src/httpware/middleware/resilience/circuit_breaker.py:386-386 | the quotient test and the product test are the same |
| `BreakerRuns.ReachableInv` | src/httpware/middleware/resilience/circuit_breaker.py:260-308 | the ticket, counter, throttle and event invariants hold in every state a run of admissions and recordings leads to |
| `BreakerRuns.ReachableExactly` | src/httpware/middleware/resilience/circuit_breaker.py:260-308 | a state is reached by a run of states exactly when it is the state after a legal sequence of calls |
| `BreakerRuns.StaleRecordIsNoOp` | src/httpware/middleware/resilience/circuit_breaker.py:289-308 | recording a request of an earlier era changes nothing and queues nothing |
| `BreakerReplies.ClosedAdmits` | src/httpware/middleware/resilience/circuit_breaker.py:262-264 | in every reachable state a CLOSED circuit admits with the epoch as ticket and changes nothing |
| `BreakerReplies.OpenAdmitsAfterReset` | src/httpware/middleware/resilience/circuit_breaker.py:265-273 | in both modes an OPEN circuit refuses, with retry_after = reset_timeout - (now - opened_at), while that is positive, and then admits one probe with ticket epoch + 3, in HALF_OPEN |
| `BreakerReplies.HalfOpenAdmitsOne` | src/httpware/middleware/resilience/circuit_breaker.py:274-277 | a HALF_OPEN circuit admits a probe exactly while none is in flight |
| `BreakerReplies.OpenSince` | src/httpware/middleware/resilience/circuit_breaker.py:350-359 | while a circuit is OPEN, opened_at is the clock reading of the recording that opened it |
| `BreakerReplies.RefusalReported` | src/httpware/middleware/resilience/circuit_breaker.py:315-324 | a refusal is reported, with the answered retry_after and the number suppressed, unless one was reported less than 1.0 s before |
| `BreakerReplies.ReportsSpaced` | src/httpware/middleware/resilience/circuit_breaker.py:315-324 | of an outage's rejections one is reported exactly when the last report is at least 1.0 s old, and reports the number left out in between |
| `BreakerTheorems.OneProbe` | src/httpware/middleware/resilience/circuit_breaker.py:260-277 | in every reachable state at most one probe ticket is outstanding, `probe_in_flight` holds exactly when one is, and it is never stale |
| `BreakerTheorems.EpochStands` | src/httpware/middleware/resilience/circuit_breaker.py:345-348 | between two points of a run the epoch is equal exactly when the state never changed |
| `BreakerTheorems.ClosedTicketMeansStayedClosed` | src/httpware/middleware/resilience/circuit_breaker.py:345-348 | an even ticket equals the epoch exactly as long as the circuit has stayed CLOSED since it was issued |
| `BreakerTheorems.OnlyOwnEra` | src/httpware/middleware/resilience/circuit_breaker.py:289-308 | an outcome passes the ticket tests exactly when its request was admitted in the present era; otherwise it changes nothing and queues nothing |
| `BreakerTheorems.ClassicOpensExactly` | src/httpware/middleware/resilience/circuit_breaker.py:326-332 | classic mode: a closed circuit opens exactly when the era's last `failure_threshold` counted outcomes are all failures |
| `BreakerTheorems.RateOpensExactly` | src/httpware/middleware/resilience/circuit_breaker.py:368-387 | rate mode: it opens only on a counted outcome, and the window then holds the era's outcomes, in order |
| `BreakerReplies.RateOpensAtThreshold` | src/httpware/middleware/resilience/circuit_breaker.py:380-387 | it does so if and only if the live outcomes number at least minimum_calls and the live failures are at least threshold times as many, both counted on the raw history |
| `BreakerReplies.ClassicReports` | src/httpware/middleware/resilience/circuit_breaker.py:361-366 | the opening event of classic mode reports failure_threshold failures |
| `BreakerReplies.RateReports` | src/httpware/middleware/resilience/circuit_breaker.py:368-378 | that of rate mode reports the live outcomes and failures |
| `BreakerTheorems.HalfOpenEra` | src/httpware/middleware/resilience/circuit_breaker.py:298-306 | a HALF_OPEN era is successes and at most one failure, which reopens; it closes at exactly `success_threshold` successes |
| `BreakerTheorems.RejectionsConserved` | src/httpware/middleware/resilience/circuit_breaker.py:315-324 | in every reachable state: rejections = emitted + suppressed reported + suppressed pending; the first of an outage is emitted; emitted ones in a row are at least 1.0 s apart |
| `BreakerTheorems.ThrottleConserves` | src/httpware/middleware/resilience/circuit_breaker.py:315-324 | the same conservation over any throttled sequence of rejections |
| `BreakerTheorems.EmittedApart` | src/httpware/middleware/resilience/circuit_breaker.py:315-324 | emitted rejections one after the other are at least the interval apart by clock reading |
| `BreakerTheorems.EventsFollowGrammar` | src/httpware/middleware/resilience/circuit_breaker.py:334-359 | the events handed over so far always spell opened rejected* half_open rejected* (opened ... or closed) and lead to the present state |
| `BreakerTheorems.ClosedReportsTotal` | src/httpware/middleware/resilience/circuit_breaker.py:334-343 | the step that closes a circuit hands over one event, with the exact number of rejections of the outage |
| `BreakerTheorems.OpenedExactly` | src/httpware/middleware/resilience/circuit_breaker.py:350-378 | a step hands over circuit.opened if and only if it takes the circuit to OPEN, from CLOSED or from HALF_OPEN |
| `BreakerTheorems.FailedProbeIsOpened` | src/httpware/middleware/resilience/circuit_breaker.py:298-304 | every failed probe reopens the circuit and hands over circuit.opened with one failure |
| `BreakerThreads.FinishIsAtomic` | src/httpware/middleware/resilience/circuit_breaker.py:431-480 | each critical section, written as a program of single field writes, run to its end is the atomic call |
| `Linearizability.ProgramPublishesOnce` | src/httpware/middleware/resilience/circuit_breaker.py:345-348 | on every path a critical section makes at most one transition, and writes nothing of it after `closed_ticket` |
| `Linearizability.Simulate` | src/httpware/middleware/resilience/circuit_breaker.py:458-480 | each statement of each thread, lock-free read included, is no step of the atomic breaker or the step of the call that takes effect there, answered as that call will be |
| `Linearizability.Linearizable` | src/httpware/middleware/resilience/circuit_breaker.py:458-480 | every interleaving of any number of threads, between any two field writes, is a legal run of the atomic breaker that explains each world and only grows; every call that returned has a place of its own in it between its start and its return, with the answer and events its thread got; the events are the threads' takings in order of effect |
| `Linearizability.TransitionAtTicketWrite` | src/httpware/middleware/resilience/circuit_breaker.py:345-348 | what others can tell of the state changes only at the write of `closed_ticket` |
| `Linearizability.ReturnsAtomicAnswer` | src/httpware/middleware/resilience/circuit_breaker.py:431-480 | a returned call took effect after its start and by its return, and there the explaining run answered and handed over exactly what the thread got |
| `Linearizability.OwnPlace` | src/httpware/middleware/resilience/circuit_breaker.py:458-480 | no two returned calls share their place in the run |
| `Linearizability.EventsInOrder` | src/httpware/middleware/resilience/circuit_breaker.py:458-480 | with nobody in the lock the atomic machine has handed over, in order, exactly the events the threads took |
| `Linearizability.OneProbeThread` | src/httpware/middleware/resilience/circuit_breaker.py:458-480 | however threads interleave, no two of them run a probe at once |
| `Keyed.AdvanceKeeps` | src/httpware/middleware/resilience/circuit_breaker.py:505-518 | a racing first request installs a circuit only where there is none, and no step replaces one |
| `Keyed.OneCircuitPerKey` | src/httpware/middleware/resilience/circuit_breaker.py:505-518 | over any interleaving of lookups, two requests get the same circuit exactly when they have the same key |
| `Keyed.KeysAreIndependent` | src/httpware/middleware/resilience/circuit_breaker.py:492-518 | however requests race to find or create their circuits while others use theirs, the requests with one key, acting on the circuit each got, run a single breaker: legal steps, same state, same answers and events |
| `Keyed.ActKeeps` | src/httpware/middleware/resilience/circuit_breaker.py:492-518 | in flight on each circuit is exactly what the requests that got it are forwarding, so every recording is of an admitted ticket |
| `Keyed.OneProbePerKey` | src/httpware/middleware/resilience/circuit_breaker.py:701-703 | two requests with one key never run probes at once, wherever each found the circuit |
| `DemoBreaker.DemoObject.AllowAt` | docs/demos/engine.js:52-59 | the demo's admission on its fields |
| `DemoBreaker.DemoObject.Res` | docs/demos/engine.js:60-69 | the demo's landing on its fields |
| `DemoBreaker.SequentialRunsAgree` | docs/demos/engine.js:45-70 | over every sequence of calls made one at a time, the demo and the library's classic breaker admit the same calls and hold the same state |
| `DemoBreaker.LandingAgreesExactly` | docs/demos/engine.js:60-69 | for every classic configuration, state and reading, a landing keeps demo and library in the same state if and only if it is no straggler, or the circuit is OPEN, or CLOSED and it succeeds with no failure to forget |
| `DemoBreaker.OverlappingRunsAgreeExactly` | docs/demos/engine.js:45-70 | over every run of overlapping calls the two have held the same state at every point if and only if no landing broke that condition; while they do, they let in the same calls |
| `DemoBreaker.StragglerSeparates` | docs/demos/engine.js:60-65 | every straggler landing in HALF_OPEN moves the demo and leaves the library as it is; it closes the demo at success_threshold, and a failed one reopens it |
| `DemoBreaker.StragglerInstance` | docs/demos/engine.js:60-65 | the shortest such run, by example |
| `RetryBudget.Budget.Rotate` | src/httpware/middleware/resilience/budget.py:65-81 | makes the slot current with totals, bucket sums and live counts equal, in at most nine single visits |
| `RetryBudget.Budget.DepositOne` | src/httpware/middleware/resilience/budget.py:83-90 | adds one deposit to the life of the budget, whatever the order of clock readings |
| `RetryBudget.Budget.TryWithdraw` | src/httpware/middleware/resilience/budget.py:92-106 | grants exactly when the live withdrawals of the whole log are under the ceiling of its live deposits, and adds the grant or the refusal to the life |
| `RetryBudget.PermitsExactly` | src/httpware/middleware/resilience/budget.py:92-106 | granted if and only if the live withdrawals, less the whole part of min_retries_per_sec * ttl, are fewer than percent_can_retry of the live deposits, live being counted on the raw history |
| `RetryBudget.FloorIs` | src/httpware/middleware/resilience/budget.py:57-57 | the floor is the whole part of min_retries_per_sec * ttl |
| `RetryBudget.SlotIs` | src/httpware/middleware/resilience/budget.py:56-56 | a slot is a tenth of ttl |
| `RetryBudget.CeilingOf` | src/httpware/middleware/resilience/budget.py:102-102 | the least integer that is not below |
| `StormBound.LifeIsLawfulLog` | src/httpware/middleware/resilience/budget.py:92-106 | the filed log of every life is in slot order and under the ceiling at each withdrawal |
| `StormBound.BlockBound` | src/httpware/middleware/resilience/budget.py:92-106 | the grants of one aligned ten-slot block are at most the share of the deposits of that block and the one before, plus floor + 1 |
| `StormBound.RateBounded` | src/httpware/middleware/resilience/budget.py:65-106 | in any ten slots in a row, over any life: at most floor + 1 grants plus the share of the deposits in them and in the nine slots before |
| `StormBound.GrantsBounded` | src/httpware/middleware/resilience/budget.py:65-106 | over any life of a budget: grants <= B * (floor + 1) + 2 * percent * deposits, B the aligned ten-slot blocks with a grant |
| `StormBound.GrantUnderCeiling` | src/httpware/middleware/resilience/budget.py:92-106 | right after every grant the live withdrawals are at most the ceiling of the live deposits |
| `StormBound.OnlyAdvanceBreaks` | src/httpware/middleware/resilience/budget.py:65-106 | a lawful call that does not advance the current slot keeps them so: only an advance can end it |
| `StormBound.CeilingIsNoInvariant` | src/httpware/middleware/resilience/budget.py:65-106 | for every configuration with a positive percentage, a lawful life after which the withdrawals held exceed the ceiling |
| `StormBound.CeilingIsInvariantExactly` | src/httpware/middleware/resilience/budget.py:65-106 | the withdrawals held are under the ceiling at every point of every lawful life if and only if the percentage is 0 |
| `TimestampBudget.SlotsByAge` | src/httpware/middleware/resilience/budget.py:33-36 | with a forward clock an event of age at most nine widths is in the last ten slots and one of age ten is not |
| `TimestampBudget.BucketsByAge` | src/httpware/middleware/resilience/budget.py:33-36 | the buckets count every event of age at most 0.9 ttl and none of age ttl or more |
| `TimestampBudget.Sandwiched` | src/httpware/middleware/resilience/budget.py:83-106 | the bucketed budget must grant where a keep-every-timestamp budget grants with deposits counted up to age 0.9 ttl and withdrawals below age ttl, and must refuse in the mirrored case |
| `TimestampBudget.DemoBudget.DepositAt` | docs/demos/engine.js:84-84 | at any readings, backwards ones included, the demo keeps a timestamp until some later call is more than ttl after it |
| `TimestampBudget.DemoBudget.TryWithdraw` | docs/demos/engine.js:85-89 | the demo's withdrawal decides on what is kept |
| `TimestampBudget.DemoInOrder` | docs/demos/engine.js:77-89 | with a forward clock that is the timestamp budget with both ages ttl |
| `BudgetDrift.GreyMakesTheDifference` | docs/demos/engine.js:77-89 | with a forward clock the demo counts, of each kind, what the library counts and the events whose bucket is gone before they are older than ttl |
| `BudgetDrift.AlikeWithoutGrey` | docs/demos/engine.js:77-89 | without such an event the demo decides as the library does |
| `BudgetDrift.FloorParts` | docs/demos/engine.js:85-89 | for every budget with a floor: a history both could have had after which the library grants and the demo refuses |
| `BudgetDrift.SharePart` | docs/demos/engine.js:85-89 | for every budget with a positive percentage: one after which the library refuses and the demo grants |
| `BudgetDrift.AlikeExactly` | docs/demos/engine.js:77-89 | on all histories both could have had they always decide alike if and only if the floor and the percentage are 0, so that neither ever grants |
| `Retry.JitterBounded` | src/httpware/middleware/resilience/_backoff.py:25-29 | every delay lies in [0, max_delay], overflow branch included |
| `Retry.CeilingDoubles` | src/httpware/middleware/resilience/_backoff.py:25-29 | the ceiling starts at base_delay and doubles with each attempt, max_delay being the most, and is max_delay from exponent 1024 on |
| `Retry.JitterIsProportional` | src/httpware/middleware/resilience/_backoff.py:29-29 | the delay is the drawn fraction of the ceiling |
| `Retry.ClampIsMinimumExactly` | src/httpware/middleware/resilience/_backoff.py:19-23 | the ceiling is the documented minimum if and only if the exponent is in the float range or the product has reached max_delay |
| `Retry.ClampMissesZeroBase` | src/httpware/middleware/resilience/_backoff.py:19-23 | with base_delay 0 and a positive max_delay the clamp is above the documented minimum |
| `Retry.Decide` | src/httpware/middleware/resilience/retry.py:135-249 | gives up, asks the budget and sleeps exactly as the verdict on the reply says; the budget is asked once or not at all; the last attempt always raises |
| `Retry.AskedExactly` | src/httpware/middleware/resilience/retry.py:147-221 | the budget is asked if and only if method and status code are retryable, the body is no stream, an attempt is left, and no heeded Retry-After is above max_delay |
| `Retry.WaitExactly` | src/httpware/middleware/resilience/retry.py:184-241 | a heeded Retry-After is what is slept |
| `RetryLoop.OneTurn` | src/httpware/middleware/resilience/retry.py:323-329 | one pass of the loop and what it asks of the budget |
| `RetryLoop.Call` | src/httpware/middleware/resilience/retry.py:320-331 | a call deposits once; every attempt but the first has its own grant; at most max_attempts attempts, sleeping the Retry-After waits and jittered delays between them, at most (attempts - 1) * max_delay in all; the answer is the last reply or one refusal around it |
| `RetryLoop.RetriedExactly` | src/httpware/middleware/resilience/retry.py:320-331 | every attempt beyond the first followed a reply worth retrying to a request that may be sent again, condition by condition; the last reply was returned if it was not one, and otherwise the budget refused |
| `RetryLoop.DelayExactly` | src/httpware/middleware/resilience/retry.py:237-241 | between them a heeded Retry-After is slept, or the drawn fraction of the backoff ceiling |
| `RetryLoop.Attempts` | src/httpware/middleware/resilience/retry.py:322-331 | the loop never reaches its last line |
| `RetryLoop.CallIsStack` | src/httpware/middleware/resilience/retry.py:320-331 | what the driven loop returns, and how often it sends and asks, is what the recursive meaning of one retry layer gives |
| `RetryLoop.RetryIsTransparent` | src/httpware/middleware/resilience/circuit_breaker.py:279-287 | through any stack of retry layers the breaker's classification is that of the last send, whichever way the layers gave up: one unwrap suffices |
| `Errors.ClassifiesExactly` | src/httpware/middleware/resilience/circuit_breaker.py:279-287 | network errors, timeouts and the failing status codes, by default 500 to 599, are failures, other status errors successes, all else foreign; a budget refusal stands for the exception before it, once |
| `RetryLoop.BreakerRecordsLastSend` | src/httpware/middleware/resilience/circuit_breaker.py:458-480 | a breaker around any stack of retry layers ends in the state it would reach had it made that last send itself |
| `RetryLoop.ActKeeps` | src/httpware/middleware/resilience/retry.py:320-331 | in any interleaving of calls sharing a budget, each attempt beyond a call's first has its own grant |
| `RetryLoop.NoRetryStorm` | src/httpware/middleware/resilience/retry.py:320-331 | N calls sharing a budget, however interleaved, make at most N + B * (floor + 1) + 2 * percent * N attempts, and none of them more attempts or more sleep than its own policy allows |
| `RetryLoop.SharedCounts` | src/httpware/middleware/resilience/retry.py:320-331 | the attempts are the first sends and the sends after a sleep, and deposits count the calls |
| `CappedDriver.FollowBounded` | src/httpware/client.py:277-294 | one round of redirects sends at most max_redirects + 1 - depth requests |
| `CappedDriver.DriveBounded` | src/httpware/client.py:297-320 | from auth step k on, at most the triangular number of max_redirects + 1 - k |
| `CappedDriver.BoundedWork` | src/httpware/client.py:297-320 | for every server and every auth flow, endless ones included, a session sends at most (M + 1)(M + 2) / 2 requests, and none when M < 0 |
| `CappedDriver.BoundAttained` | src/httpware/client.py:297-320 | for every M a server and a flow make it send exactly that many |
| `CappedDriver.Client.Send` | src/httpware/client.py:288-288 | may be called only while no response is open, so at most one is open at any time |
| `CappedDriver.DiscardAndClose` | src/httpware/client.py:268-274 | closes on every path; raises exactly when an unread body breaks while being discarded |
| `CappedDriver.ReadCappedAndClose` | src/httpware/client.py:260-265 | closes the streaming response on every path, and gives what the capped read gives |
| `CappedDriver.SendRedirectHops` | src/httpware/client.py:277-294 | sends exactly the requests of the redirect chain and ends as it does; nothing left open but a returned response, whose history is the prior one and then exactly the hops |
| `CappedDriver.SendCapped` | src/httpware/client.py:297-320 | on every exit the flow and every response are closed, but for a returned one that was not read; h[i].history == h[..i] along its history, which is the auth steps and then the last redirects, at most max_redirects long; the requests sent and the ending are the session's |
| `CappedTrace.SessionTrace` | src/httpware/client.py:277-320 | send by send: each request is the first one's, the followed redirect of the answer before, or what the auth flow then asked for; none is deeper than max_redirects; the session ends as its last answer and the flow say; the history is the landings of the earlier auth steps and then the last one's redirects |
| `CappedDriver.OneRound` | src/httpware/client.py:304-318 | one step of the auth flow, with the read it may require |
| `BodyCap.AccumulateCapped` | src/httpware/_internal/body_cap.py:42-53 | the accumulator gives the whole body, or finds it over the cap at the first chunk whose prefix total exceeds it |
| `BodyCap.CappedStream.Next` | src/httpware/_internal/body_cap.py:116-127 | the capped stream yields a chunk while the total fits and raises on the first that exceeds |
| `BodyCap.ReadThrough` | src/httpware/_internal/body_cap.py:116-127 | a read over the capped stream stops after the same chunk, with the same result |
| `BodyCap.ReadInline` | src/httpware/_internal/body_cap.py:233-241 | the loop of the async read stops after the same chunk, with the same result |
| `BodyCap.ReadCappedAsync` | src/httpware/_internal/body_cap.py:219-242 | the async read comes to the same verdict, with the same responses closed |
| `BodyCap.DiscardWithinCap` | src/httpware/_internal/body_cap.py:245-261 | a discard stops after the same chunk, reads nothing past a declared length, and raises exactly when the body breaks within the cap |
| `BodyCap.OneStop` | src/httpware/_internal/body_cap.py:42-53 | there is only one chunk to stop after, so the four loops agree |
| `BodyCap.ReadCapped` | src/httpware/_internal/body_cap.py:186-216 | the read of a response comes to its verdict, and on success says who holds the body and what is closed |
| `BodyCap.ReadsExactly` | src/httpware/_internal/body_cap.py:83-99 | refused if and only if the request is no HEAD in any letter case, the status neither 204 nor 304, and the length declared or decoded is over the cap; otherwise kept byte for byte unless the stream breaks |
| `BodyCap.DiscardsExactly` | src/httpware/_internal/body_cap.py:245-261 | a discard fails if and only if the body breaks within the cap and was not skipped for its declared length |
| `BodyCap.BoundariesIgnored` | src/httpware/_internal/body_cap.py:186-261 | reads and discards do not depend on where the chunks are cut |
| `BodyCap.BodilessNeverTooLarge` | src/httpware/_internal/body_cap.py:83-89 | HEAD, 204 and 304 responses are never too large (section 6.4.1 of RFC 9110) |
| `TypeGraph.ChildTypes` | src/httpware/decoders/msgspec.py:20-31 | yields exactly the types nested in a field or in an item of a tuple field |
| `TypeGraph.IsNative` | src/httpware/decoders/msgspec.py:34-49 | ends on every finite graph, cyclic or not, and is true exactly when no custom type is reachable from the root |
| `TypeGraph.StaysSeen` | src/httpware/decoders/msgspec.py:34-49 | once the stack is empty no path from a visited node leaves the visited ones |
| `AdapterCache.KeysTellTypesApart` | src/httpware/decoders/_caching.py:18-26 | two keys are equal if and only if the types are the same, union order included, at every depth |
| `AdapterCache.EqualityConfusesUnions` | src/httpware/decoders/_caching.py:18-26 | Python's own equality takes two different types for one, at every depth: the reason for the key |
| `AdapterCache.Cache.Lookup` | src/httpware/decoders/_caching.py:29-42 | returns build(model); builds only a model that is not cached, emptying a full cache first |
| `AdapterCache.Cache.Store` | src/httpware/decoders/_caching.py:57-65 | the new dictionary in full, whether or not the model is cached: emptied at 4096 entries, then assigned |
| `AdapterCache.Cache.LookupAll` | src/httpware/decoders/_caching.py:29-42 | over any sequence of lookups, across clears, every answer is the builder's and the cache stays within 4096 entries |
| `Redaction.MaskingIsValueBlind` | src/httpware/_internal/redaction.py:37-51 | two URLs mask to the same string if and only if they differ in nothing but parameter values |
| `Redaction.MaskingIsIdempotent` | src/httpware/_internal/redaction.py:46-51 | masking twice is masking once, for every string |
| `Redaction.SkeletonKept` | src/httpware/_internal/redaction.py:46-51 | the masked URL has the base, keys and separators of the original |
| `Redaction.MaskQueryIs` | src/httpware/_internal/redaction.py:46-51 | the shortcut for a URL without = agrees with the general rule |
| `Redaction.MaskComponentIs` | src/httpware/_internal/redaction.py:37-43 | so does the shortcut for a component without = |
| `Redaction.PairMasked` | src/httpware/_internal/redaction.py:41-43 | a pair keeps its key and gets the literal REDACTED for its value; one without = is kept |
| `Redaction.PairByPair` | src/httpware/_internal/redaction.py:41-43 | a component is masked pair by pair, at each & |
| `Redaction.UrlMasked` | src/httpware/_internal/redaction.py:46-51 | the query from the first ?, before any #, and the fragment from the first # are masked, and the rest is kept |

## Left out

- Transport, pools, sockets and content decoding belong to httpx2, which is not part of this
  model. `send`, `next_request`, the auth flow and the decoded chunks are arbitrary inputs.
- An auth flow here looks at a response and answers; one that reads or closes the response
  itself is not modelled. Closing the flow, or a response, is taken not to raise.
- Client verbs, option filtering, request building, streaming context managers and the
  resolution of decoders and middleware are plumbing and would add easy members.
- Bulkhead, timeout and the event-loop guard wrap primitives whose meaning is not in the
  files.
- Event emission: only the order in which events are queued and handed over is modelled.
  Emission is taken not to raise, and the attributes method, URL and circuit key are dropped.
- Validation of configurations: a model configuration is one the constructors accept.
- Attribute reads and writes are sequentially consistent in `BreakerThreads`; every admitted
  ticket is recorded exactly once; a critical section's clock readings are named when its lock
  is taken.
- Linearizability.Linearizable: covers `_call_sync` and its lock; `_call_async`, where no
  statement of a transition can be interrupted, is the atomic machine itself.
- Keyed.KeysAreIndependent: the keyed circuits' calls are atomic here; below that is
  `Linearizability`, for one circuit.
- Keyed.OneCircuitPerKey: circuit keys are integers, and equal keys are the same integer;
  user key functions and labels are not modelled.
- RollingWindow.Window.Zero: empties the two bucket arrays in place where the library binds
  new lists of zeros; nobody else holds the old lists. `RetryBudget.Budget.Zero` likewise.
- RetryLoop.Call: one call using the budget alone; calls that interleave on one budget are
  `RetryLoop.ActOn`, on values.
- Parsing of Retry-After, dates included: a parsed value is absent, a non-negative number, or
  more than any float.
- Float rounding, including the rounding of `now // width`; an infinite `base_delay`.
- DemoBreaker.SequentialRunsAgree: the demo's `recovered` flag, which decides nothing, is
  dropped.
- BodyCap.ReadCapped: headers, extensions and `elapsed` of the rebuilt response are not
  modelled, only its request, status, history and content; an identity-coded body may be cut
  into chunks differently raw and decoded.
- CappedDriver.SendCapped: the async driver is its mirror and is not written twice.
- AdapterCache.Cache.Lookup: hashable models only; the path keyed by `repr` promises less.
  The interleaving of concurrent first calls, which may build twice, and the members of
  `Literal` and `Annotated` types are not modelled.
- TypeGraph.IsNative: a node is its index, standing for `id(node)`.
- `_strip_userinfo` depends on the standard library's URL parser, which is not part of this
  model.
- Exception pickling, messages, notes and the status table are single-branch facts.
