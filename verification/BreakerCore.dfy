/**
  The circuit breaker with each critical section taken as one step, on values. The rolling
  window is the raw history of `RingLog`: what counts is what the log says is live.
 */
module BreakerCore {
  import opened Options
  import opened RingLog
  import RollingWindow

  datatype CircuitState = CLOSED | OPEN | HALF_OPEN
  datatype Outcome = SUCCESS | FAILURE | FOREIGN

  const REJECTED_EVENT_INTERVAL: real := 1.0

  datatype RateMode = RateMode(threshold: real, windowSeconds: real, minimumCalls: int)

  datatype RawConfig = Config(failureThreshold: int, resetTimeout: real, successThreshold: int, rate: Option<RateMode>) {
    predicate Valid() {
      && failureThreshold >= 1 && resetTimeout >= 0.0 && successThreshold >= 1
      && (rate.Some? ==> 0.0 < rate.value.threshold <= 1.0 && rate.value.windowSeconds > 0.0 && rate.value.minimumCalls >= 1)
    }
  }

  type Config = c: RawConfig | c.Valid() witness Config(5, 30.0, 1, None)

  datatype Event =
    | Opened(failures: int)
    | OpenedByRate(observedCalls: int, failed: int)
    | HalfOpened
    | Rejected(retryAfter: Option<real>, suppressed: int)
    | Closed(rejected: int)

  /** The shared fields. `emittedAt` is `None` for minus infinity; `queue` holds the events not yet taken. */
  datatype Core = Core(
    state: CircuitState,
    failures: int,
    successes: int,
    openedAt: real,
    probeInFlight: bool,
    epoch: int,
    closedTicket: Option<int>,
    emittedAt: Option<real>,
    suppressed: int,
    rejections: int,
    window: seq<Op>,
    queue: seq<Event>
  )

  const FRESH := Core(CLOSED, 0, 0, 0.0, false, 0, Some(0), None, 0, 0, [], [])

  datatype Answer = Admitted(ticket: int) | Refused(retryAfter: Option<real>) | Recorded

  /** The state after a critical section, what it answered, and the events it handed over. */
  datatype Reply = Reply(core: Core, answer: Answer, events: seq<Event>)

  function MoveTo(s: Core, state: CircuitState): Core {
    s.(state := state, epoch := s.epoch + 2, closedTicket := if state == CLOSED then Some(s.epoch + 2) else None)
  }

  function Take(s: Core, answer: Answer): Reply {
    Reply(s.(queue := []), answer, s.queue)
  }

  predicate TooSoon(s: Core, now: real) {
    s.emittedAt.Some? && now - s.emittedAt.value < REJECTED_EVENT_INTERVAL
  }

  function Reject(s: Core, now: real, retryAfter: Option<real>): Reply {
    var s := s.(rejections := s.rejections + 1);
    if TooSoon(s, now) then
      Reply(s.(suppressed := s.suppressed + 1), Refused(retryAfter), [])
    else
      Take(s.(emittedAt := Some(now), suppressed := 0, queue := s.queue + [Rejected(retryAfter, s.suppressed)]),
          Refused(retryAfter))
  }

  function Remaining(c: Config, s: Core, now: real): real {
    var left := c.resetTimeout - (now - s.openedAt);
    if left > 0.0 then left else 0.0
  }

  function Admit(c: Config, s: Core, now: real): Reply {
    if s.closedTicket.Some? then Reply(s, Admitted(s.closedTicket.value), [])
    else if s.state == OPEN then
      if now - s.openedAt < c.resetTimeout then Reject(s, now, Some(Remaining(c, s, now)))
      else
        var s := MoveTo(s, HALF_OPEN);
        Take(s.(probeInFlight := true, queue := s.queue + [HalfOpened]), Admitted(s.epoch + 1))
    else if s.probeInFlight then Reject(s, now, None)
    else Reply(s.(probeInFlight := true), Admitted(s.epoch + 1), [])
  }

  function EnterOpen(s: Core, openedAt: real, event: Event): Core {
    var s := if s.state == CLOSED then s.(emittedAt := None, suppressed := 0, rejections := 0) else s;
    MoveTo(s, OPEN).(openedAt := openedAt, failures := 0, successes := 0, queue := s.queue + [event])
  }

  function WindowSlot(rate: RateMode, at: real): int
    requires rate.windowSeconds > 0.0
  {
    RollingWindow.SlotOf(at, rate.windowSeconds / BUCKET_COUNT as real)
  }

  /** `total` outcomes are enough, and the `failed` ones among them reach the failure rate. */
  predicate AtThreshold(rate: RateMode, failed: nat, total: nat) {
    total >= rate.minimumCalls && failed as real >= rate.threshold * total as real
  }

  /** Whether the live outcomes of `window` reach the failure rate. */
  predicate TripsRate(rate: RateMode, window: seq<Op>) {
    AtThreshold(rate, Live(window, true), Live(window, false) + Live(window, true))
  }

  /** `_record_outcome`: `slot` is that of its clock reading, `openedAt` the reading `_enter_open` takes if the circuit opens. */
  function RecordOutcome(c: Config, s: Core, failed: bool, slot: int, openedAt: real): Core
    requires c.rate.Some?
  {
    var s := s.(window := s.window + [Log(slot, failed)] + [Look(slot)]);
    if TripsRate(c.rate.value, s.window) then
      EnterOpen(s, openedAt, OpenedByRate(Live(s.window, false) + Live(s.window, true), Live(s.window, true)))
    else s
  }

  function RecordClosed(c: Config, s: Core, failed: bool, slot: int, openedAt: real): Core {
    if c.rate.Some? then RecordOutcome(c, s, failed, slot, openedAt)
    else if failed then
      var s := s.(failures := s.failures + 1);
      if s.failures >= c.failureThreshold then EnterOpen(s, openedAt, Opened(s.failures)) else s
    else s
  }

  function RecordProbeSuccess(c: Config, s: Core): Core {
    var s := s.(successes := s.successes + 1);
    if s.successes >= c.successThreshold then
      var s := MoveTo(s, CLOSED).(failures := 0, successes := 0);
      var s := if c.rate.Some? then s.(window := s.window + [RingLog.Clear]) else s;
      s.(queue := s.queue + [Closed(s.rejections)])
    else s
  }

  function Record(c: Config, s: Core, ticket: int, outcome: Outcome, slot: int, openedAt: real): Reply {
    var s :=
      if ticket == s.epoch then
        if outcome == SUCCESS && c.rate.None? then s.(failures := 0)
        else if outcome != FOREIGN then RecordClosed(c, s, outcome == FAILURE, slot, openedAt)
        else s
      else if ticket == s.epoch + 1 then
        var s := s.(probeInFlight := false);
        if outcome == SUCCESS then RecordProbeSuccess(c, s)
        else if outcome == FAILURE then EnterOpen(s, openedAt, Opened(1))
        else s
      else s;
    Take(s, Recorded)
  }
}
