/**
  What the breaker answers and reports, in every reachable state and with every condition and
  number written out.
 */
module BreakerReplies {
  import opened Options
  import opened RingLog
  import opened BreakerCore
  import opened BreakerRuns
  import opened BreakerTheorems
  import RollingWindow

  // ---- admission ----

  /** A CLOSED circuit lets every request in, with the epoch as its ticket, and changes nothing. */
  lemma ClosedAdmits(c: Config, s: Sys, now: real)
    requires Reachable(c, s) && s.core.state == CLOSED
    ensures Answered(c, s, DoAdmit(now)) == Reply(s.core, Admitted(s.core.epoch), [])
  {
    ReachableTickets(c, s);
  }

  /** An OPEN one refuses until `reset_timeout` is over, saying how long that is; then it lets one probe in. */
  lemma OpenAdmitsAfterReset(c: Config, s: Sys, now: real)
    requires Reachable(c, s) && s.core.state == OPEN
    ensures var reply, elapsed := Answered(c, s, DoAdmit(now)), now - s.core.openedAt;
            if elapsed < c.resetTimeout then
              && reply.answer == Refused(Some(c.resetTimeout - elapsed))
              && reply.core.state == OPEN && reply.core.openedAt == s.core.openedAt && reply.core.epoch == s.core.epoch
            else
              && reply.answer == Admitted(s.core.epoch + 3) && reply.events == [HalfOpened]
              && reply.core.state == HALF_OPEN && reply.core.probeInFlight && reply.core.epoch == s.core.epoch + 2
  {
    ReachableInv(c, s);
  }

  /** A HALF_OPEN one lets a probe in exactly while none is in flight. */
  lemma HalfOpenAdmitsOne(c: Config, s: Sys, now: real)
    requires Reachable(c, s) && s.core.state == HALF_OPEN
    ensures var reply, busy := Answered(c, s, DoAdmit(now)), exists r :: r in s.inFlight && IsProbe(r);
            && reply.core.state == HALF_OPEN && reply.core.epoch == s.core.epoch
            && reply.answer == if busy then Refused(None) else Admitted(s.core.epoch + 1)
  {
    ReachableInv(c, s);
    OneProbe(c, s);
  }

  /**
    A refusal is reported unless one was in the last second of clock reading; the report
    gives the wait that was answered and the refusals left out since the one before.
   */
  lemma RefusalReported(c: Config, s: Sys, now: real)
    requires Reachable(c, s) && Answered(c, s, DoAdmit(now)).answer.Refused?
    ensures var reply := Answered(c, s, DoAdmit(now));
            && reply.core.rejections == s.core.rejections + 1
            && reply.events
               == if s.core.emittedAt.Some? && now - s.core.emittedAt.value < 1.0 then []
                  else [Rejected(reply.answer.retryAfter, s.core.suppressed)]
  {
    ReachableInv(c, s);
  }

  // ---- when an outage began ----

  /** At step `k` of `steps` the circuit opened, and it has not changed state since. */
  predicate OpenedAtStep(c: Config, steps: seq<Step>, k: int) {
    && 0 <= k < |steps| && steps[k].DoRecord?
    && After(c, steps[..k]).core.state != OPEN
    && After(c, steps[..k + 1]).core.state == OPEN
    && After(c, steps[..k + 1]).core.epoch == After(c, steps).core.epoch
  }

  /** While a circuit is OPEN, `opened_at` is the clock reading of the recording that opened it. */
  lemma {:induction false} OpenSince(c: Config, steps: seq<Step>) returns (k: nat)
    requires Legal(c, steps) && After(c, steps).core.state == OPEN
    ensures OpenedAtStep(c, steps, k) && After(c, steps).core.openedAt == steps[k].openedAt
  {
    hide Next, Inv, Enabled;
    var n := |steps| - 1;
    if steps == [] {
      NotOpenAtFirst(c);
      assert false;
    } else {
      var before, step := steps[..n], steps[n];
      LegalReaches(c, before);
      ReachableInv(c, After(c, before));
      OpenStays(c, After(c, before), step);
      assert steps[..n + 1] == steps;
      if After(c, before).core.state == OPEN {
        k := OpenSince(c, before);
        assert before[..k] == steps[..k] && before[..k + 1] == steps[..k + 1];
      } else {
        k := n;
      }
    }
  }

  lemma NotOpenAtFirst(c: Config)
    ensures After(c, []).core.state != OPEN
  {
  }

  lemma OpenStays(c: Config, s: Sys, step: Step)
    requires Inv(c, s) && Enabled(s, step) && Next(c, s, step).core.state == OPEN
    ensures if s.core.state == OPEN then
              Next(c, s, step).core.openedAt == s.core.openedAt && Next(c, s, step).core.epoch == s.core.epoch
            else step.DoRecord? && Next(c, s, step).core.openedAt == step.openedAt
  {
    hide TripsRate, CountersOk, RejectionsOk;
    if step.DoRecord? {
      CurrentTicket(s, step.request);
    }
  }

  // ---- recording ----

  /**
    Rate mode: a counted outcome opens a CLOSED circuit if and only if the outcomes then live
    number at least `minimum_calls` and the failures among them reach the threshold.
   */
  lemma RateOpensAtThreshold(c: Config, s: Sys, step: Step)
    requires Reachable(c, s) && Enabled(s, step)
    requires c.rate.Some? && s.core.state == CLOSED && Counts(s, step)
    ensures var seen := WindowWith(c, s, step);
            && HighSlot(seen).Some?
            && (Next(c, s, step).core.state == OPEN
                <==> && LiveOutcomes(seen) >= c.rate.value.minimumCalls
                     && LiveFailures(seen) as real >= c.rate.value.threshold * LiveOutcomes(seen) as real)
  {
    hide LiveAt, HighSlot, Next;
    RateOpensExactly(c, s, step);
  }

  /** The event that opens a CLOSED circuit reports, in classic mode, `failure_threshold` failures. */
  lemma ClassicReports(c: Config, s: Sys, step: Step)
    requires Reachable(c, s) && Enabled(s, step)
    requires c.rate.None? && s.core.state == CLOSED && Next(c, s, step).core.state == OPEN
    ensures Answered(c, s, step).events == [Opened(c.failureThreshold)]
  {
    hide TripsRate, RejectionsOk, RecordProbeSuccess, Reject, FailureStreak, Chain;
    ReachableInv(c, s);
    QueueEmpty(s);
    if step.DoRecord? {
      CurrentTicket(s, step.request);
    }
  }

  lemma QueueEmpty(s: Sys)
    requires RejectionsOk(s)
    ensures s.core.queue == []
  {
  }

  /** In rate mode it reports the live outcomes and the failures among them. */
  lemma RateReports(c: Config, s: Sys, step: Step)
    requires Reachable(c, s) && Enabled(s, step)
    requires c.rate.Some? && s.core.state == CLOSED && Counts(s, step) && Next(c, s, step).core.state == OPEN
    ensures var seen := WindowWith(c, s, step);
            HighSlot(seen).Some? && Answered(c, s, step).events == [OpenedByRate(LiveOutcomes(seen), LiveFailures(seen))]
  {
    hide TripsRate, AtThreshold, Live, LiveAt, HighSlot, CountersOk, Chain, EnterOpen;
    ReachableInv(c, s);
    CurrentTicket(s, step.request);
    WindowWithOutcome(c, s, step);
    LiveAgain(WindowWith(c, s, step), step.slot);
    OpeningQueue(s.core, step.openedAt);
  }

  lemma OpeningQueue(s: Core, openedAt: real)
    ensures forall s': Core, event :: s'.queue == s.queue ==> EnterOpen(s', openedAt, event).queue == s.queue + [event]
  {
  }

  // ---- the throttle and the window, in numbers ----

  /**
    Of the rejections of an outage, one is reported exactly when the last report before it is
    at least 1.0 seconds old, and it then reports the number left out in between.
   */
  lemma ReportsSpaced(c: Config, s: Sys, i: nat, j: nat)
    requires Reachable(c, s) && i < j < |s.rejections| && s.rejections[i].event.Some?
    requires forall k :: i < k < j ==> s.rejections[k].event.None?
    ensures s.rejections[j].event == if s.rejections[j].at - s.rejections[i].at >= 1.0 then Some(j - i - 1) else None
  {
    ReachableInv(c, s);
    ThrottledSpaced(s.rejections, i, j);
  }

  lemma {:induction false} ThrottledSpaced(rs: seq<Rejection>, i: nat, j: nat)
    requires Throttled(rs) && i < j < |rs| && rs[i].event.Some?
    requires forall k :: i < k < j ==> rs[k].event.None?
    ensures rs[j].event == if rs[j].at - rs[i].at >= 1.0 then Some(j - i - 1) else None
  {
    var before := rs[..|rs| - 1];
    if j < |rs| - 1 {
      ThrottledSpaced(before, i, j);
    } else {
      LastEmittedIs(before, i);
      PendingSince(before, i);
    }
  }

  lemma {:induction false} PendingSince(rs: seq<Rejection>, i: nat)
    requires i < |rs| && rs[i].event.Some? && forall k :: i < k < |rs| ==> rs[k].event.None?
    ensures Pending(rs) == |rs| - i - 1
  {
    if i < |rs| - 1 {
      PendingSince(rs[..|rs| - 1], i);
    }
  }

  /** A slot of the rolling window is a tenth of it. */
  lemma WindowSlotIs(rate: RateMode, at: real)
    requires rate.windowSeconds > 0.0
    ensures var slot := WindowSlot(rate, at);
            slot as real * (rate.windowSeconds / 10.0) <= at < (slot + 1) as real * (rate.windowSeconds / 10.0)
  {
    hide RollingWindow.SlotOf;
    var width := rate.windowSeconds / 10.0;
    assert WindowSlot(rate, at) == RollingWindow.SlotOf(at, width);
    RollingWindow.SlotIs(at, width);
  }
}
