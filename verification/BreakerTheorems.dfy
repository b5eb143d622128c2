/**
  What the breaker promises, over every run of `BreakerRuns`.
 */
module BreakerTheorems {
  import opened Options
  import opened RingLog
  import opened BreakerCore
  import opened BreakerRuns

  // ---- tickets ----

  predicate IsProbe(r: InFlight) { r.ticket % 2 == 1 }

  /** At most one probe is in flight, `probe_in_flight` holds exactly when one is, and its ticket is never stale. */
  lemma OneProbe(c: Config, s: Sys)
    requires Reachable(c, s)
    ensures s.core.probeInFlight <==> exists r :: r in s.inFlight && IsProbe(r)
    ensures forall r :: r in s.inFlight && IsProbe(r) ==>
              s.inFlight[r] == 1 && s.core.state == HALF_OPEN && r == InFlight(s.core.epoch + 1, s.era)
  {
    ReachableTickets(c, s);
    ProbeSlot(s);
  }

  lemma ProbeSlot(s: Sys)
    requires TicketsOk(s)
    ensures s.core.probeInFlight <==> exists r :: r in s.inFlight && IsProbe(r)
    ensures forall r :: r in s.inFlight && IsProbe(r) ==>
              s.inFlight[r] == 1 && s.core.state == HALF_OPEN && r == InFlight(s.core.epoch + 1, s.era)
  {
    forall r | r in s.inFlight && IsProbe(r) ensures r == InFlight(s.core.epoch + 1, s.era) {
      assert TicketOk(s, r);
    }
    if s.core.probeInFlight {
      var r := InFlight(s.core.epoch + 1, s.era);
      assert r in s.inFlight && IsProbe(r);
    }
  }

  /** The states of a run, from any reachable one on. */
  ghost predicate Run(c: Config, states: seq<Sys>) {
    Chain(c, states) && Reachable(c, states[0])
  }

  lemma FollowsShape(c: Config, s: Sys, s': Sys)
    requires Reachable(c, s) && Follows(c, s, s')
    ensures Reachable(c, s')
    ensures s'.core.epoch == s.core.epoch + if s'.core.state == s.core.state then 0 else 2
  {
    var step :| Enabled(s, step) && s' == Next(c, s, step);
    ReachableInv(c, s);
    StepShape(c, s, step);
    ReachableNext(c, s, s');
  }

  /** Between two points of a run the epoch is the same exactly when the state never changed. */
  lemma {:induction false} EpochStands(c: Config, states: seq<Sys>)
    requires Run(c, states)
    ensures var first, last := states[0], states[|states| - 1];
            && Reachable(c, last)
            && first.core.epoch <= last.core.epoch
            && (first.core.epoch == last.core.epoch
                <==> forall k :: 0 <= k < |states| ==> states[k].core.state == first.core.state)
  {
    hide Reachable, Follows;
    if |states| > 1 {
      var n := |states| - 1;
      ChainPrefix(c, states, n);
      EpochStands(c, states[..n]);
      assert forall k :: 0 <= k < n ==> states[..n][k] == states[k];
      assert Linked(c, states, n);
      FollowsShape(c, states[n - 1], states[n]);
    }
  }

  lemma ClosedTicketIsEpoch(c: Config, s: Sys)
    requires Reachable(c, s) && s.core.state == CLOSED
    ensures s.core.closedTicket == Some(s.core.epoch) && s.core.epoch % 2 == 0
  {
    ReachableTickets(c, s);
    EpochIsEven(s);
  }

  lemma EpochIsEven(s: Sys)
    requires TicketsOk(s)
    ensures s.core.epoch % 2 == 0
    ensures s.core.state == CLOSED ==> s.core.closedTicket == Some(s.core.epoch)
  {
  }

  /** A ticket handed out while CLOSED equals the epoch exactly as long as the circuit stays CLOSED. */
  lemma ClosedTicketMeansStayedClosed(c: Config, states: seq<Sys>)
    requires Run(c, states) && states[0].core.state == CLOSED
    ensures var ticket := states[0].core.closedTicket;
            && ticket.Some? && ticket.value % 2 == 0
            && (ticket.value == states[|states| - 1].core.epoch
                <==> forall k :: 0 <= k < |states| ==> states[k].core.state == CLOSED)
  {
    ClosedTicketIsEpoch(c, states[0]);
    EpochStands(c, states);
  }

  /** An outcome is applied only in the era its request was admitted under; any other changes nothing and queues nothing. */
  lemma OnlyOwnEra(c: Config, s: Sys, step: Step)
    requires Reachable(c, s) && Enabled(s, step) && step.DoRecord?
    ensures step.request.era == s.era <==> step.request.ticket == s.core.epoch || step.request.ticket == s.core.epoch + 1
    ensures step.request.era != s.era ==> Answered(c, s, step) == Reply(s.core, Recorded, [])
  {
    ReachableInv(c, s);
    CurrentTicket(s, step.request);
    if step.request.era != s.era {
      StaleRecordIsNoOp(c, s, step);
    }
  }

  // ---- when the state changes ----

  predicate EndsInFailures(outcomes: seq<bool>, n: int) {
    n <= |outcomes| && forall i :: |outcomes| - n <= i < |outcomes| ==> outcomes[i]
  }

  /** Classic mode: a closed circuit opens exactly when the era's last `failure_threshold` counted outcomes are all failures. */
  lemma ClassicOpensExactly(c: Config, s: Sys, step: Step)
    requires Reachable(c, s) && Enabled(s, step)
    requires c.rate.None? && s.core.state == CLOSED
    ensures Next(c, s, step).core.state == if EndsInFailures(OutcomesWith(s, step), c.failureThreshold) then OPEN else CLOSED
  {
    hide TripsRate, RejectionsOk, RecordProbeSuccess, Reject, Chain;
    ReachableInv(c, s);
    var outcomes := OutcomesWith(s, step);
    StreakMeansAll(outcomes, c.failureThreshold);
    if step.DoRecord? {
      CurrentTicket(s, step.request);
      RecordCases(s, step);
      if Counts(s, step) {
        assert outcomes[..|s.outcomes|] == s.outcomes;
      }
    }
  }

  /** The window's raw history once `step` has recorded its outcome. */
  function WindowWith(c: Config, s: Sys, step: Step): seq<Op>
    requires c.rate.Some? && step.DoRecord?
  {
    s.core.window + [Log(step.slot, step.outcome == FAILURE)]
  }

  /** The live failures, and all live outcomes, of a window whose raw history is `seen`, counted on that history. */
  ghost function LiveFailures(seen: seq<Op>): nat
    requires HighSlot(seen).Some?
  {
    |LiveAt(seen, true, HighSlot(seen).value - BUCKET_COUNT)|
  }

  ghost function LiveOutcomes(seen: seq<Op>): nat
    requires HighSlot(seen).Some?
  {
    |LiveAt(seen, false, HighSlot(seen).value - BUCKET_COUNT)| + LiveFailures(seen)
  }

  lemma LiveAgain(seen: seq<Op>, slot: int)
    requires HighSlot(seen).Some? && slot <= HighSlot(seen).value
    ensures Live(seen + [Look(slot)], true) == LiveFailures(seen)
    ensures Live(seen + [Look(slot)], false) + Live(seen + [Look(slot)], true) == LiveOutcomes(seen)
  {
    hide Entries, HighSlot, CountAbove, LiveAt;
    Append(seen, Look(slot));
    var cutoff := HighSlot(seen).value - BUCKET_COUNT;
    EntriesCountHistory(seen, true, cutoff);
    EntriesCountHistory(seen, false, cutoff);
  }

  lemma TripsAtThreshold(c: Config, seen: seq<Op>, slot: int)
    requires c.rate.Some? && HighSlot(seen).Some? && slot <= HighSlot(seen).value
    ensures TripsRate(c.rate.value, seen + [Look(slot)]) <==> AtThreshold(c.rate.value, LiveFailures(seen), LiveOutcomes(seen))
  {
    hide AtThreshold, Live, LiveAt;
    LiveAgain(seen, slot);
  }

  lemma WindowWithOutcome(c: Config, s: Sys, step: Step)
    requires c.rate.Some? && step.DoRecord?
    ensures var slot, seen := step.slot, WindowWith(c, s, step);
            && HighSlot(seen).Some? && slot <= HighSlot(seen).value
            && Lanes(Entries(seen)) == Lanes(Entries(s.core.window)) + [step.outcome == FAILURE]
  {
    var slot, failed := step.slot, step.outcome == FAILURE;
    Append(s.core.window, Log(slot, failed));
    LanesAppend(Entries(s.core.window), Entry(Raise(HighSlot(s.core.window), slot).value, failed));
  }

  /**
    Rate mode: a closed circuit opens exactly on a counted outcome after which the era's
    live outcomes number at least `minimum_calls` and fail at the threshold rate. The era's
    counted outcomes, in order, are what the window's log holds.
   */
  lemma RateOpensExactly(c: Config, s: Sys, step: Step)
    requires Reachable(c, s) && Enabled(s, step)
    requires c.rate.Some? && s.core.state == CLOSED
    ensures !Counts(s, step) ==> Next(c, s, step).core.state == CLOSED
    ensures Counts(s, step) ==>
              var seen := WindowWith(c, s, step);
              && HighSlot(seen).Some?
              && Lanes(Entries(seen)) == OutcomesWith(s, step)
              && Next(c, s, step).core.state
                 == if AtThreshold(c.rate.value, LiveFailures(seen), LiveOutcomes(seen)) then OPEN else CLOSED
  {
    ReachableInv(c, s);
    if step.DoRecord? {
      CurrentTicket(s, step.request);
      RecordCases(s, step);
      if Stale(s, step) {
        StaleRecordIsNoOp(c, s, step);
      } else if Counts(s, step) {
        WindowWithOutcome(c, s, step);
        TripsAtThreshold(c, WindowWith(c, s, step), step.slot);
        NextByRate(c, s, step);
      }
    }
  }

  lemma NextByRate(c: Config, s: Sys, step: Step)
    requires c.rate.Some? && InClosed(s, step) && Counts(s, step) && step.request.ticket == s.core.epoch
    ensures Next(c, s, step).core.state
         == if TripsRate(c.rate.value, WindowWith(c, s, step) + [Look(step.slot)]) then OPEN else CLOSED
  {
    assert Answered(c, s, step).core == RecordOutcome(c, s.core, step.outcome == FAILURE, step.slot, step.openedAt).(queue := []);
  }

  /**
    A HALF_OPEN era is successes, then perhaps one failure: it closes at exactly
    `success_threshold` successes and reopens on a failure.
   */
  lemma HalfOpenEra(c: Config, s: Sys, step: Step)
    requires Reachable(c, s) && Enabled(s, step)
    requires s.core.state == HALF_OPEN
    ensures forall i :: 0 <= i < |s.outcomes| ==> !s.outcomes[i]
    ensures var outcomes := OutcomesWith(s, step);
            Next(c, s, step).core.state
            == if outcomes != [] && outcomes[|outcomes| - 1] then OPEN
               else if |outcomes| == c.successThreshold then CLOSED
               else HALF_OPEN
  {
    hide TripsRate;
    ReachableInv(c, s);
    if step.DoRecord? {
      CurrentTicket(s, step.request);
      RecordCases(s, step);
    }
  }

  // ---- rejections ----

  /** Every rejection is either emitted, or reported as suppressed by a later event, or still pending. */
  lemma {:induction false} ThrottleConserves(rs: seq<Rejection>)
    requires Throttled(rs)
    ensures |rs| == Emitted(rs) + SuppressedTotal(rs) + Pending(rs)
  {
    if rs != [] {
      ThrottleConserves(rs[..|rs| - 1]);
    }
  }

  lemma {:induction false} FirstIsEmitted(rs: seq<Rejection>)
    requires Throttled(rs) && rs != []
    ensures rs[0].event == Some(0)
  {
    if |rs| > 1 {
      FirstIsEmitted(rs[..|rs| - 1]);
    }
  }

  lemma {:induction false} LastEmittedIs(rs: seq<Rejection>, i: nat)
    requires i < |rs| && rs[i].event.Some? && forall k :: i < k < |rs| ==> rs[k].event.None?
    ensures LastEmitted(rs) == Some(rs[i].at)
  {
    if i < |rs| - 1 {
      LastEmittedIs(rs[..|rs| - 1], i);
    }
  }

  /** Emitted events one after the other are at least a second apart, by the clock readings they were made with. */
  lemma {:induction false} EmittedApart(rs: seq<Rejection>, i: nat, j: nat)
    requires Throttled(rs) && i < j < |rs| && rs[i].event.Some? && rs[j].event.Some?
    requires forall k :: i < k < j ==> rs[k].event.None?
    ensures rs[j].at - rs[i].at >= REJECTED_EVENT_INTERVAL
  {
    if j == |rs| - 1 {
      LastEmittedIs(rs[..j], i);
    } else {
      EmittedApart(rs[..|rs| - 1], i, j);
    }
  }

  /** In every reachable state the breaker's counters account for every rejection of the current outage. */
  lemma RejectionsConserved(c: Config, s: Sys)
    requires Reachable(c, s)
    ensures s.core.rejections == |s.rejections| == Emitted(s.rejections) + SuppressedTotal(s.rejections) + s.core.suppressed
    ensures s.rejections != [] ==> s.rejections[0].event == Some(0)
    ensures forall i, j :: 0 <= i < j < |s.rejections| && s.rejections[i].event.Some? && s.rejections[j].event.Some?
                           && (forall k :: i < k < j ==> s.rejections[k].event.None?)
                           ==> s.rejections[j].at - s.rejections[i].at >= REJECTED_EVENT_INTERVAL
  {
    ReachableInv(c, s);
    var rs := s.rejections;
    ThrottleConserves(rs);
    if rs != [] {
      FirstIsEmitted(rs);
    }
    forall i, j | 0 <= i < j < |rs| && rs[i].event.Some? && rs[j].event.Some? && (forall k :: i < k < j ==> rs[k].event.None?)
      ensures rs[j].at - rs[i].at >= REJECTED_EVENT_INTERVAL
    {
      EmittedApart(rs, i, j);
    }
  }

  /** The events handed over so far follow the grammar, and lead to the circuit's present state. */
  lemma EventsFollowGrammar(c: Config, s: Sys)
    requires Reachable(c, s)
    ensures FollowAll(s.events) == Some(s.core.state)
  {
    ReachableInv(c, s);
  }

  predicate IsOpened(event: Event) {
    event.Opened? || event.OpenedByRate?
  }

  /** `circuit.opened` is handed over exactly by the steps that open the circuit, from CLOSED or from HALF_OPEN. */
  lemma OpenedExactly(c: Config, s: Sys, step: Step)
    requires Reachable(c, s) && Enabled(s, step)
    ensures (exists event :: event in Answered(c, s, step).events && IsOpened(event))
       <==> s.core.state != OPEN && Next(c, s, step).core.state == OPEN
  {
    ReachableInv(c, s);
    OpenedByStep(c, s, step);
  }

  lemma OpenedByStep(c: Config, s: Sys, step: Step)
    requires TicketsOk(s) && s.core.queue == [] && Enabled(s, step)
    ensures var events := Answered(c, s, step).events;
            if s.core.state != OPEN && Next(c, s, step).core.state == OPEN then |events| == 1 && IsOpened(events[0])
            else forall i :: 0 <= i < |events| ==> !IsOpened(events[i])
  {
    hide TripsRate, RecordClosed, RecordProbeSuccess, EnterOpen;
    if step.DoRecord? {
      CurrentTicket(s, step.request);
      ClosedKeepsOpened(c, s, step);
      if s.core.state == HALF_OPEN {
        ProbeKeeps(c, s.core.(probeInFlight := false), step.openedAt);
      }
    }
  }

  lemma ClosedKeepsOpened(c: Config, s: Sys, step: Step)
    requires s.core.queue == [] && step.DoRecord?
    ensures s.core.state == CLOSED ==>
              var core := RecordClosed(c, s.core, step.outcome == FAILURE, step.slot, step.openedAt);
              if core.state == CLOSED then core.queue == []
              else core.state == OPEN && |core.queue| == 1 && IsOpened(core.queue[0])
  {
    if s.core.state == CLOSED {
      ClosedKeeps(c, s.core, step.outcome == FAILURE, step.slot, step.openedAt);
    }
  }

  /** A failed probe reopens the circuit and hands over `circuit.opened`, with one failure. */
  lemma FailedProbeIsOpened(c: Config, s: Sys, step: Step)
    requires Reachable(c, s) && Enabled(s, step)
    requires step.DoRecord? && step.outcome == FAILURE && step.request.era == s.era && s.core.state == HALF_OPEN
    ensures Next(c, s, step).core.state == OPEN && Answered(c, s, step).events == [Opened(1)]
  {
    hide RecordClosed, RecordProbeSuccess, EnterOpen;
    ReachableInv(c, s);
    CurrentTicket(s, step.request);
    ProbeKeeps(c, s.core.(probeInFlight := false), step.openedAt);
  }

  /** A step that closes the circuit hands over one event, and it reports every rejection of the outage. */
  lemma ClosedReportsTotal(c: Config, s: Sys, step: Step)
    requires Reachable(c, s) && Enabled(s, step)
    requires s.core.state != CLOSED && Next(c, s, step).core.state == CLOSED
    ensures Answered(c, s, step).events == [Closed(|s.rejections|)]
  {
    ReachableInv(c, s);
    ClosesByProbe(c, s, step);
  }

  lemma ClosesByProbe(c: Config, s: Sys, step: Step)
    requires TicketsOk(s) && s.core.queue == [] && Enabled(s, step)
    requires s.core.state != CLOSED && Next(c, s, step).core.state == CLOSED
    ensures Answered(c, s, step).events == [Closed(s.core.rejections)]
  {
    hide TripsRate;
    if step.DoRecord? {
      CurrentTicket(s, step.request);
    }
  }
}
