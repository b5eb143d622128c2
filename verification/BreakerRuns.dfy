/**
  Every run of the atomic breaker: any number of requests admitted and recorded in any
  order, at any clock readings. The history is kept from what an observer sees, not from
  the breaker's counters: which requests are in flight and under which era each was
  admitted, the outcomes that count towards the current era, and the rejections of the
  current outage.
 */
module BreakerRuns {
  import opened Options
  import opened RingLog
  import opened BreakerCore

  /** A request in flight: its ticket, and how often the circuit had changed state when it was admitted. */
  datatype InFlight = InFlight(ticket: int, era: nat)

  /** A refused request: its clock reading, and the `suppressed` attribute of its event if one was emitted. */
  datatype Rejection = Rejection(at: real, event: Option<int>)

  datatype Sys = Sys(
    core: Core,
    era: nat,
    inFlight: multiset<InFlight>,
    outcomes: seq<bool>,
    rejections: seq<Rejection>,
    events: seq<Event>
  )

  const START := Sys(FRESH, 0, multiset{}, [], [], [])

  datatype Step =
    | DoAdmit(now: real)
    | DoRecord(request: InFlight, outcome: Outcome, slot: int, openedAt: real)

  predicate Enabled(s: Sys, step: Step) {
    step.DoRecord? ==> step.request in s.inFlight
  }

  function Answered(c: Config, s: Sys, step: Step): Reply {
    match step
    case DoAdmit(now) => Admit(c, s.core, now)
    case DoRecord(request, outcome, slot, openedAt) => Record(c, s.core, request.ticket, outcome, slot, openedAt)
  }

  /** An outcome counts when its request was admitted in the current era and is a success or a failure. */
  predicate Counts(s: Sys, step: Step) {
    step.DoRecord? && step.request.era == s.era && step.outcome != FOREIGN
  }

  /** The counted outcomes of the era in which `step` is taken, `step` included; `true` is a failure. */
  function OutcomesWith(s: Sys, step: Step): seq<bool> {
    if Counts(s, step) then s.outcomes + [step.outcome == FAILURE] else s.outcomes
  }

  function RejectionOf(now: real, reply: Reply): Rejection {
    Rejection(now, if reply.events != [] && reply.events[0].Rejected? then Some(reply.events[0].suppressed) else None)
  }

  function Next(c: Config, s: Sys, step: Step): Sys {
    var reply := Answered(c, s, step);
    var changed := reply.core.state != s.core.state;
    var era := if changed then s.era + 1 else s.era;
    var inFlight := if step.DoRecord? then s.inFlight - multiset{step.request} else s.inFlight;
    Sys(reply.core,
        era,
        if reply.answer.Admitted? then inFlight + multiset{InFlight(reply.answer.ticket, era)} else inFlight,
        if changed then [] else OutcomesWith(s, step),
        if changed && s.core.state == CLOSED then []
        else if step.DoAdmit? && reply.answer.Refused? then s.rejections + [RejectionOf(step.now, reply)]
        else s.rejections,
        s.events + reply.events)
  }

  function After(c: Config, steps: seq<Step>): Sys {
    if steps == [] then START else Next(c, After(c, steps[..|steps| - 1]), steps[|steps| - 1])
  }

  predicate Legal(c: Config, steps: seq<Step>) {
    steps != [] ==> Legal(c, steps[..|steps| - 1]) && Enabled(After(c, steps[..|steps| - 1]), steps[|steps| - 1])
  }

  lemma AfterAppend(c: Config, steps: seq<Step>, step: Step)
    ensures After(c, steps + [step]) == Next(c, After(c, steps), step)
    ensures Legal(c, steps + [step]) <==> Legal(c, steps) && Enabled(After(c, steps), step)
  {
    assert (steps + [step])[..|steps|] == steps;
  }

  // ---- references for the counters ----

  /** The failures at the end of `outcomes`. */
  function FailureStreak(outcomes: seq<bool>): nat {
    if outcomes == [] || !outcomes[|outcomes| - 1] then 0 else 1 + FailureStreak(outcomes[..|outcomes| - 1])
  }

  lemma {:induction false} StreakMeansAll(outcomes: seq<bool>, n: nat)
    ensures FailureStreak(outcomes) >= n
       <==> n <= |outcomes| && forall i :: |outcomes| - n <= i < |outcomes| ==> outcomes[i]
  {
    if n > 0 && outcomes != [] {
      var before := outcomes[..|outcomes| - 1];
      StreakMeansAll(before, n - 1);
      assert forall i :: 0 <= i < |before| ==> before[i] == outcomes[i];
      if outcomes[|outcomes| - 1] && n - 1 <= |before| && forall i :: |before| - (n - 1) <= i < |before| ==> before[i] {
        assert forall i :: |outcomes| - n <= i < |outcomes| - 1 ==> outcomes[i] == before[i];
      }
    }
  }

  function Lanes(log: seq<Entry>): seq<bool> {
    if log == [] then [] else Lanes(log[..|log| - 1]) + [log[|log| - 1].lane]
  }

  /** Rejections since the last emitted one. */
  function Pending(rs: seq<Rejection>): nat {
    if rs == [] || rs[|rs| - 1].event.Some? then 0 else 1 + Pending(rs[..|rs| - 1])
  }

  function LastEmitted(rs: seq<Rejection>): Option<real> {
    if rs == [] then None
    else if rs[|rs| - 1].event.Some? then Some(rs[|rs| - 1].at)
    else LastEmitted(rs[..|rs| - 1])
  }

  function Emitted(rs: seq<Rejection>): nat {
    if rs == [] then 0 else Emitted(rs[..|rs| - 1]) + if rs[|rs| - 1].event.Some? then 1 else 0
  }

  function SuppressedTotal(rs: seq<Rejection>): int {
    if rs == [] then 0 else SuppressedTotal(rs[..|rs| - 1]) + if rs[|rs| - 1].event.Some? then rs[|rs| - 1].event.value else 0
  }

  /**
    The promised throttle: a rejection is emitted exactly when none was emitted in the
    last second of clock reading, and then reports the rejections not emitted since.
   */
  predicate Throttled(rs: seq<Rejection>) {
    rs != [] ==>
      var before, last := rs[..|rs| - 1], rs[|rs| - 1];
      && Throttled(before)
      && last.event == if LastEmitted(before).Some? && last.at - LastEmitted(before).value < REJECTED_EVENT_INTERVAL
                       then None else Some(Pending(before))
  }

  /** The event grammar: opened rejected* half_open rejected* (opened ... | closed), as a run of the three states. */
  function Follow(state: Option<CircuitState>, event: Event): Option<CircuitState> {
    match state
    case Some(CLOSED) => if event.Opened? || event.OpenedByRate? then Some(OPEN) else None
    case Some(OPEN) => if event.Rejected? then Some(OPEN) else if event.HalfOpened? then Some(HALF_OPEN) else None
    case Some(HALF_OPEN) =>
      if event.Rejected? then Some(HALF_OPEN)
      else if event.Opened? then Some(OPEN)
      else if event.Closed? then Some(CLOSED)
      else None
    case None => None
  }

  function FollowAll(events: seq<Event>): Option<CircuitState> {
    if events == [] then Some(CLOSED) else Follow(FollowAll(events[..|events| - 1]), events[|events| - 1])
  }

  // ---- the invariant ----

  predicate TicketOk(s: Sys, r: InFlight) {
    && r.era <= s.era
    && (r.ticket == 2 * r.era || (r.ticket == 2 * r.era + 1 && r.era == s.era && s.core.probeInFlight))
    && (r.ticket == s.core.epoch ==> s.core.state == CLOSED)
  }

  ghost predicate TicketsOk(s: Sys) {
    && s.core.epoch == 2 * s.era
    && s.core.closedTicket == (if s.core.state == CLOSED then Some(s.core.epoch) else None)
    && (s.core.probeInFlight ==> s.core.state == HALF_OPEN)
    && s.inFlight[InFlight(s.core.epoch + 1, s.era)] == (if s.core.probeInFlight then 1 else 0)
    && forall r :: r in s.inFlight ==> TicketOk(s, r)
  }

  predicate CountersOk(c: Config, s: Sys) {
    && (s.core.state != HALF_OPEN ==> s.core.successes == 0)
    && (s.core.state == OPEN ==> s.outcomes == [])
    && (s.core.state == HALF_OPEN ==>
          |s.outcomes| == s.core.successes < c.successThreshold && forall i :: 0 <= i < |s.outcomes| ==> !s.outcomes[i])
    && (c.rate.None? ==> s.core.window == [] && s.core.failures < c.failureThreshold
                         && s.core.failures == if s.core.state == CLOSED then FailureStreak(s.outcomes) else 0)
    && (c.rate.Some? && s.core.state == CLOSED ==> Lanes(Entries(s.core.window)) == s.outcomes)
  }

  predicate RejectionsOk(s: Sys) {
    && s.core.queue == []
    && s.core.rejections == |s.rejections|
    && s.core.suppressed == Pending(s.rejections)
    && s.core.emittedAt == LastEmitted(s.rejections)
    && Throttled(s.rejections)
    && FollowAll(s.events) == Some(s.core.state)
  }

  ghost predicate Inv(c: Config, s: Sys) {
    TicketsOk(s) && CountersOk(c, s) && RejectionsOk(s)
  }

  /** Under the ticket invariant, the two ticket tests of `Record` ask whether the era is still the request's own. */
  lemma CurrentTicket(s: Sys, r: InFlight)
    requires TicketsOk(s) && r in s.inFlight
    ensures (r.ticket == s.core.epoch || r.ticket == s.core.epoch + 1) <==> r.era == s.era
    ensures r.era == s.era ==> (s.core.state == CLOSED <==> r.ticket == s.core.epoch)
    ensures r.era == s.era ==> (s.core.state == HALF_OPEN <==> r.ticket == s.core.epoch + 1)
  {
    assert TicketOk(s, r);
  }

  /** What one step may do to the state, the epoch and the probe slot. */
  lemma StepShape(c: Config, s: Sys, step: Step)
    requires TicketsOk(s) && Enabled(s, step)
    ensures var core, core' := s.core, Next(c, s, step).core;
            && core'.epoch == 2 * Next(c, s, step).era
            && core'.closedTicket == (if core'.state == CLOSED then Some(core'.epoch) else None)
            && (core'.probeInFlight ==> core'.state == HALF_OPEN)
            && (core'.state != core.state ==> (core'.probeInFlight <==> core'.state == HALF_OPEN))
  {
    hide TripsRate;
    if step.DoRecord? {
      CurrentTicket(s, step.request);
    }
  }

  lemma TicketsKept(c: Config, s: Sys, step: Step)
    requires TicketsOk(s) && Enabled(s, step)
    ensures TicketsOk(Next(c, s, step))
  {
    StepShape(c, s, step);
    if step.DoAdmit? {
      TicketsKeptByAdmit(c, s, step);
    } else {
      TicketsKeptByRecord(c, s, step);
    }
  }

  lemma TicketsKeptByAdmit(c: Config, s: Sys, step: Step)
    requires TicketsOk(s) && step.DoAdmit?
    ensures TicketsOk(Next(c, s, step))
  {
    var s' := Next(c, s, step);
    forall r | r in s'.inFlight ensures TicketOk(s', r) {
      if r in s.inFlight {
        assert TicketOk(s, r);
      }
    }
  }

  lemma TicketsKeptByRecord(c: Config, s: Sys, step: Step)
    requires TicketsOk(s) && step.DoRecord? && step.request in s.inFlight
    ensures TicketsOk(Next(c, s, step))
  {
    hide TripsRate;
    StepShape(c, s, step);
    CurrentTicket(s, step.request);
    var s' := Next(c, s, step);
    assert s'.inFlight <= s.inFlight;
    forall r | r in s'.inFlight ensures TicketOk(s', r) {
      assert TicketOk(s, r);
      CurrentTicket(s, r);
    }
  }

  lemma LanesAppend(log: seq<Entry>, e: Entry)
    ensures Lanes(log + [e]) == Lanes(log) + [e.lane]
  {
    assert (log + [e])[..|log|] == log;
  }

  /** Recording in rate mode files exactly the recorded outcome. */
  lemma WindowGrows(c: Config, window: seq<Op>, slot: int, failed: bool)
    ensures Lanes(Entries(window + [Log(slot, failed)] + [Look(slot)])) == Lanes(Entries(window)) + [failed]
  {
    Append(window, Log(slot, failed));
    Append(window + [Log(slot, failed)], Look(slot));
    LanesAppend(Entries(window), Entry(Raise(HighSlot(window), slot).value, failed));
  }

  // The three ways to record: for an era gone by, in a closed circuit, and by the probe.

  predicate Stale(s: Sys, step: Step) { step.DoRecord? && step.request in s.inFlight && step.request.era != s.era }

  predicate InClosed(s: Sys, step: Step) {
    step.DoRecord? && step.request in s.inFlight && step.request.era == s.era && s.core.state == CLOSED
  }

  predicate ByProbe(s: Sys, step: Step) {
    step.DoRecord? && step.request in s.inFlight && step.request.era == s.era && s.core.state == HALF_OPEN
  }

  lemma RecordCases(s: Sys, step: Step)
    requires TicketsOk(s) && Enabled(s, step) && step.DoRecord?
    ensures Stale(s, step) || InClosed(s, step) || ByProbe(s, step)
  {
    CurrentTicket(s, step.request);
  }

  /** Recording a request of an earlier era changes nothing and queues nothing. */
  lemma StaleRecordIsNoOp(c: Config, s: Sys, step: Step)
    requires TicketsOk(s) && s.core.queue == [] && Stale(s, step)
    ensures Answered(c, s, step) == Reply(s.core, Recorded, [])
  {
    hide TripsRate;
    CurrentTicket(s, step.request);
  }

  lemma CountersKept(c: Config, s: Sys, step: Step)
    requires TicketsOk(s) && CountersOk(c, s) && s.core.queue == [] && Enabled(s, step)
    ensures CountersOk(c, Next(c, s, step))
  {
    if step.DoAdmit? {
    } else {
      RecordCases(s, step);
      if Stale(s, step) {
        StaleRecordIsNoOp(c, s, step);
      } else if InClosed(s, step) {
        CountersKeptInClosed(c, s, step);
      } else {
        CountersKeptByProbe(c, s, step);
      }
    }
  }

  lemma CountersKeptInClosed(c: Config, s: Sys, step: Step)
    requires TicketsOk(s) && CountersOk(c, s) && InClosed(s, step)
    ensures CountersOk(c, Next(c, s, step))
  {
    CurrentTicket(s, step.request);
    if step.outcome == FOREIGN {
      assert Next(c, s, step).core == s.core.(queue := []);
    } else if c.rate.Some? {
      CountersKeptByRate(c, s, step);
    } else {
      CountersKeptClassic(c, s, step);
    }
  }

  lemma CountersKeptClassic(c: Config, s: Sys, step: Step)
    requires TicketsOk(s) && CountersOk(c, s) && InClosed(s, step) && step.request.ticket == s.core.epoch
    requires c.rate.None? && step.outcome != FOREIGN
    ensures CountersOk(c, Next(c, s, step))
  {
    hide TripsRate;
    var extended := s.outcomes + [step.outcome == FAILURE];
    assert extended[..|s.outcomes|] == s.outcomes;
  }

  lemma CountersKeptByRate(c: Config, s: Sys, step: Step)
    requires TicketsOk(s) && CountersOk(c, s) && InClosed(s, step) && step.request.ticket == s.core.epoch
    requires c.rate.Some? && step.outcome != FOREIGN
    ensures CountersOk(c, Next(c, s, step))
  {
    hide TripsRate;
    var failed, slot := step.outcome == FAILURE, step.slot;
    WindowGrows(c, s.core.window, slot, failed);
    var recorded := RecordOutcome(c, s.core, failed, step.slot, step.openedAt);
    assert Answered(c, s, step).core == recorded.(queue := []);
  }

  lemma CountersKeptByProbe(c: Config, s: Sys, step: Step)
    requires TicketsOk(s) && CountersOk(c, s) && ByProbe(s, step)
    ensures CountersOk(c, Next(c, s, step))
  {
    hide TripsRate;
    CurrentTicket(s, step.request);
    Append(s.core.window, RingLog.Clear);
  }

  lemma RejectionsKept(c: Config, s: Sys, step: Step)
    requires TicketsOk(s) && RejectionsOk(s) && Enabled(s, step)
    ensures RejectionsOk(Next(c, s, step))
  {
    if step.DoAdmit? {
      RejectionsKeptByAdmit(c, s, step);
    } else {
      RecordCases(s, step);
      if Stale(s, step) {
        StaleRecordIsNoOp(c, s, step);
        assert s.events + [] == s.events;
      } else if InClosed(s, step) {
        RejectionsKeptInClosed(c, s, step);
      } else {
        RejectionsKeptByProbe(c, s, step);
      }
    }
  }

  /** The grammar follows a step that hands over at most one event. */
  lemma FollowStep(events: seq<Event>, more: seq<Event>)
    requires |more| <= 1
    ensures FollowAll(events + more) == if more == [] then FollowAll(events) else Follow(FollowAll(events), more[0])
  {
    if more == [] {
      assert events + more == events;
    } else {
      assert (events + more)[..|events|] == events;
    }
  }

  lemma RejectionsKeptByAdmit(c: Config, s: Sys, step: Step)
    requires TicketsOk(s) && RejectionsOk(s) && step.DoAdmit?
    ensures RejectionsOk(Next(c, s, step))
  {
    var reply := Answered(c, s, step);
    FollowStep(s.events, reply.events);
    if reply.answer.Refused? {
      var retryAfter := reply.answer.retryAfter;
      assert reply == Reject(s.core, step.now, retryAfter);
      RejectKept(c, s, step, retryAfter);
    }
  }

  /** A refusal keeps the throttle and the accounting. */
  lemma RejectKept(c: Config, s: Sys, step: Step, retryAfter: Option<real>)
    requires RejectionsOk(s) && step.DoAdmit? && s.core.state != CLOSED
    requires Answered(c, s, step) == Reject(s.core, step.now, retryAfter)
    ensures RejectionsOk(Next(c, s, step))
  {
    hide Admit, Record, FollowAll, Throttled, Pending, LastEmitted;
    var reply := Reject(s.core, step.now, retryAfter);
    OneMoreRejection(s.rejections, RejectionOf(step.now, reply));
    FollowStep(s.events, reply.events);
  }

  lemma OneMoreRejection(rs: seq<Rejection>, r: Rejection)
    ensures Throttled(rs + [r]) <==>
              && Throttled(rs)
              && r.event == if LastEmitted(rs).Some? && r.at - LastEmitted(rs).value < REJECTED_EVENT_INTERVAL
                            then None else Some(Pending(rs))
    ensures Pending(rs + [r]) == if r.event.Some? then 0 else 1 + Pending(rs)
    ensures LastEmitted(rs + [r]) == if r.event.Some? then Some(r.at) else LastEmitted(rs)
  {
    assert (rs + [r])[..|rs|] == rs;
  }

  lemma RejectionsKeptInClosed(c: Config, s: Sys, step: Step)
    requires TicketsOk(s) && RejectionsOk(s) && InClosed(s, step)
    ensures RejectionsOk(Next(c, s, step))
  {
    CurrentTicket(s, step.request);
    assert Throttled([]);
    hide RecordClosed, Throttled;
    var core :=
      if step.outcome == SUCCESS && c.rate.None? then s.core.(failures := 0)
      else if step.outcome != FOREIGN then RecordClosed(c, s.core, step.outcome == FAILURE, step.slot, step.openedAt)
      else s.core;
    ClosedKeeps(c, s.core, step.outcome == FAILURE, step.slot, step.openedAt);
    assert Answered(c, s, step) == Take(core, Recorded);
    FollowStep(s.events, core.queue);
  }

  /** What a closed circuit's record does to the rejection counters and the queue. */
  lemma ClosedKeeps(c: Config, s: Core, failed: bool, slot: int, openedAt: real)
    requires s.state == CLOSED && s.queue == []
    ensures var s' := RecordClosed(c, s, failed, slot, openedAt);
            if s'.state == CLOSED then
              s'.rejections == s.rejections && s'.suppressed == s.suppressed && s'.emittedAt == s.emittedAt && s'.queue == []
            else
              && s'.state == OPEN && s'.rejections == s'.suppressed == 0 && s'.emittedAt == None
              && |s'.queue| == 1 && (s'.queue[0].Opened? || s'.queue[0].OpenedByRate?)
  {
    hide TripsRate, Live;
  }

  lemma RejectionsKeptByProbe(c: Config, s: Sys, step: Step)
    requires TicketsOk(s) && RejectionsOk(s) && ByProbe(s, step)
    ensures RejectionsOk(Next(c, s, step))
  {
    hide TripsRate, Throttled, RecordProbeSuccess, EnterOpen;
    CurrentTicket(s, step.request);
    var s1 := s.core.(probeInFlight := false);
    var core :=
      if step.outcome == SUCCESS then RecordProbeSuccess(c, s1)
      else if step.outcome == FAILURE then EnterOpen(s1, step.openedAt, Opened(1))
      else s1;
    ProbeKeeps(c, s1, step.openedAt);
    assert Answered(c, s, step) == Take(core, Recorded);
    FollowStep(s.events, core.queue);
  }

  /** What the two ways to end a probe do to the rejection counters and the queue. */
  lemma ProbeKeeps(c: Config, s: Core, openedAt: real)
    requires s.state == HALF_OPEN && s.queue == []
    ensures var good := RecordProbeSuccess(c, s);
            && good.rejections == s.rejections && good.suppressed == s.suppressed && good.emittedAt == s.emittedAt
            && (if good.state == CLOSED then good.queue == [Closed(s.rejections)]
                else good.state == HALF_OPEN && good.queue == [])
    ensures var bad := EnterOpen(s, openedAt, Opened(1));
            && bad.rejections == s.rejections && bad.suppressed == s.suppressed && bad.emittedAt == s.emittedAt
            && bad.state == OPEN && bad.queue == [Opened(1)]
  {
  }

  lemma InvKept(c: Config, s: Sys, step: Step)
    requires Inv(c, s) && Enabled(s, step)
    ensures Inv(c, Next(c, s, step))
  {
    TicketsKept(c, s, step);
    CountersKept(c, s, step);
    RejectionsKept(c, s, step);
  }

  ghost predicate Follows(c: Config, s: Sys, s': Sys) {
    exists step :: Enabled(s, step) && s' == Next(c, s, step)
  }

  ghost predicate Linked(c: Config, states: seq<Sys>, i: int) {
    0 < i < |states| ==> Follows(c, states[i - 1], states[i])
  }

  /** Each state follows the one before it. */
  ghost predicate Chain(c: Config, states: seq<Sys>) {
    states != [] && forall i :: Linked(c, states, i)
  }

  lemma ChainPrefix(c: Config, states: seq<Sys>, n: nat)
    requires Chain(c, states) && 0 < n <= |states|
    ensures Chain(c, states[..n])
  {
    forall i
      ensures Linked(c, states[..n], i)
    {
      assert Linked(c, states, i);
    }
  }

  lemma ChainNext(c: Config, states: seq<Sys>, s: Sys)
    requires Chain(c, states) && Follows(c, states[|states| - 1], s)
    ensures Chain(c, states + [s])
  {
    forall i
      ensures Linked(c, states + [s], i)
    {
      assert Linked(c, states, i);
    }
  }

  /** A run leads from the start to `s`. */
  ghost predicate Reachable(c: Config, s: Sys) {
    exists states :: Chain(c, states) && states[0] == START && s == states[|states| - 1]
  }

  lemma {:induction false} ChainInv(c: Config, states: seq<Sys>)
    requires Chain(c, states) && Inv(c, states[0])
    ensures Inv(c, states[|states| - 1])
  {
    if |states| > 1 {
      var n := |states| - 1;
      ChainPrefix(c, states, n);
      ChainInv(c, states[..n]);
      assert Linked(c, states, n);
      var step :| Enabled(states[n - 1], step) && states[n] == Next(c, states[n - 1], step);
      InvKept(c, states[n - 1], step);
    }
  }

  /** The invariant holds in every reachable state. */
  lemma ReachableInv(c: Config, s: Sys)
    requires Reachable(c, s)
    ensures Inv(c, s)
  {
    var states :| Chain(c, states) && states[0] == START && s == states[|states| - 1];
    ChainInv(c, states);
  }

  lemma ReachableTickets(c: Config, s: Sys)
    requires Reachable(c, s)
    ensures TicketsOk(s)
  {
    ReachableInv(c, s);
  }

  lemma ReachableStart(c: Config)
    ensures Reachable(c, START)
  {
    var states := [START];
    assert Chain(c, states) && states[0] == START;
  }

  lemma ReachableNext(c: Config, s: Sys, s': Sys)
    requires Reachable(c, s) && Follows(c, s, s')
    ensures Reachable(c, s')
  {
    var states :| Chain(c, states) && states[0] == START && s == states[|states| - 1];
    ChainNext(c, states, s');
    var more := states + [s'];
    assert Chain(c, more) && more[0] == START && s' == more[|more| - 1];
  }

  /** The state after any legal steps is reachable. */
  lemma {:induction false} LegalReaches(c: Config, steps: seq<Step>)
    requires Legal(c, steps)
    ensures Reachable(c, After(c, steps))
  {
    hide Next, Reachable;
    ReachableStart(c);
    if steps != [] {
      var before, step := steps[..|steps| - 1], steps[|steps| - 1];
      LegalReaches(c, before);
      assert Follows(c, After(c, before), Next(c, After(c, before), step));
      ReachableNext(c, After(c, before), After(c, steps));
    }
  }

  /** And every reachable state is one after legal steps: the two ways to speak of runs agree. */
  lemma {:induction false} ChainIsLegal(c: Config, states: seq<Sys>) returns (steps: seq<Step>)
    requires Chain(c, states) && states[0] == START
    ensures Legal(c, steps) && After(c, steps) == states[|states| - 1]
  {
    hide Next, Enabled;
    steps := [];
    if |states| > 1 {
      var n := |states| - 1;
      ChainPrefix(c, states, n);
      var before := ChainIsLegal(c, states[..n]);
      assert Linked(c, states, n);
      var step :| Enabled(states[n - 1], step) && states[n] == Next(c, states[n - 1], step);
      AfterAppend(c, before, step);
      steps := before + [step];
    }
  }

  lemma ReachableExactly(c: Config, s: Sys)
    ensures Reachable(c, s) <==> exists steps :: Legal(c, steps) && After(c, steps) == s
  {
    hide Next, Legal, After, Enabled;
    if Reachable(c, s) {
      var states :| Chain(c, states) && states[0] == START && s == states[|states| - 1];
      var steps := ChainIsLegal(c, states);
    }
    forall steps | Legal(c, steps) && After(c, steps) == s
      ensures Reachable(c, s)
    {
      LegalReaches(c, steps);
    }
  }
}
