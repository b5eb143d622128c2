/**
  The breaker's state object as the library runs it: fields updated in place, the rolling
  window in two bucket arrays. Each method is one step of `BreakerCore`, where the window
  is a log that forgets nothing.
 */
module BreakerState {
  import opened Options
  import opened RingLog
  import opened BreakerCore
  import RollingWindow

  lemma RateAsProduct(failed: nat, total: nat, threshold: real)
    requires total > 0
    ensures failed as real / total as real >= threshold <==> failed as real >= threshold * total as real
  {
    var f, t := failed as real, total as real;
    assert f == (f / t) * t;
    if f / t >= threshold {
      assert (f / t - threshold) * t >= 0.0;
    } else {
      assert (threshold - f / t) * t > 0.0;
    }
  }

  class CircuitBreakerState {
    const config: Config
    var state: CircuitState
    var consecutiveFailures: int
    var consecutiveSuccesses: int
    var openedAt: real
    var probeInFlight: bool
    var epoch: int
    var closedTicket: Option<int>
    var rejectedEmittedAt: Option<real>
    var rejectionsSuppressed: int
    var episodeRejections: int
    var events: seq<Event>
    const window: RollingWindow.Window?

    ghost function WindowRepr(): set<object> {
      if window == null then {} else window.Repr()
    }

    ghost predicate Valid()
      reads this, WindowRepr()
    {
      && (config.rate.Some? <==> window != null)
      && (window != null ==>
            && window.Valid() && (this as object) !in window.Repr()
            && window.width == config.rate.value.windowSeconds / BUCKET_COUNT as real)
    }

    /** The window slot of a clock reading; classic mode has no window. */
    function SlotAt(now: real): int {
      if config.rate.Some? then WindowSlot(config.rate.value, now) else 0
    }

    /** The state as a value: the two bucket arrays stand for the history they summarise. */
    ghost function Value(): Core
      reads this, window
    {
      Core(state, consecutiveFailures, consecutiveSuccesses, openedAt, probeInFlight, epoch, closedTicket,
           rejectedEmittedAt, rejectionsSuppressed, episodeRejections, if window == null then [] else window.history, events)
    }

    constructor (config: Config)
      ensures Valid() && this.config == config && Value() == FRESH
      ensures fresh(this) && fresh(WindowRepr())
    {
      this.config := config;
      state := CLOSED;
      consecutiveFailures := 0;
      consecutiveSuccesses := 0;
      openedAt := 0.0;
      probeInFlight := false;
      epoch := 0;
      closedTicket := Some(0);
      rejectedEmittedAt := None;
      rejectionsSuppressed := 0;
      episodeRejections := 0;
      events := [];
      if config.rate.Some? {
        var w := new RollingWindow.Window(config.rate.value.windowSeconds);
        window := w;
      } else {
        window := null;
      }
    }

    method Admit(now: real) returns (answer: Answer, taken: seq<Event>)
      requires Valid()
      modifies this
      ensures Valid() && Reply(Value(), answer, taken) == BreakerCore.Admit(config, old(Value()), now)
    {
      if closedTicket.Some? {
        return Admitted(closedTicket.value), [];
      }
      if state == OPEN {
        var elapsed := now - openedAt;
        if elapsed < config.resetTimeout {
          answer, taken := Reject(now, Some(if config.resetTimeout - elapsed > 0.0 then config.resetTimeout - elapsed else 0.0));
          return;
        }
        MoveTo(HALF_OPEN);
        probeInFlight := true;
        events := events + [HalfOpened];
        answer := Admitted(epoch + 1);
        taken := TakeEvents();
        return;
      }
      if probeInFlight {
        answer, taken := Reject(now, None);
        return;
      }
      probeInFlight := true;
      return Admitted(epoch + 1), [];
    }

    method Record(ticket: int, outcome: Outcome, now: real, reopenedAt: real) returns (taken: seq<Event>)
      requires Valid()
      modifies this, WindowRepr()
      ensures Valid()
      ensures Reply(Value(), Recorded, taken)
           == BreakerCore.Record(config, old(Value()), ticket, outcome, SlotAt(now), reopenedAt)
    {
      hide TripsRate, BreakerCore.RecordClosed, BreakerCore.RecordProbeSuccess, BreakerCore.EnterOpen;
      if ticket == epoch {
        if outcome == SUCCESS && config.rate.None? {
          consecutiveFailures := 0;
        } else if outcome != FOREIGN {
          RecordClosed(outcome == FAILURE, now, reopenedAt);
        }
      } else if ticket == epoch + 1 {
        probeInFlight := false;
        if outcome == SUCCESS {
          RecordProbeSuccess();
        } else if outcome == FAILURE {
          EnterOpen(reopenedAt, Opened(1));
        }
      }
      taken := TakeEvents();
    }

    method TakeEvents() returns (taken: seq<Event>)
      modifies this`events
      ensures events == [] && taken == old(events)
    {
      taken, events := events, [];
    }

    method Reject(now: real, retryAfter: Option<real>) returns (answer: Answer, taken: seq<Event>)
      requires Valid()
      modifies this
      ensures Valid() && Reply(Value(), answer, taken) == BreakerCore.Reject(old(Value()), now, retryAfter)
    {
      episodeRejections := episodeRejections + 1;
      if rejectedEmittedAt.Some? && now - rejectedEmittedAt.value < REJECTED_EVENT_INTERVAL {
        rejectionsSuppressed := rejectionsSuppressed + 1;
        return Refused(retryAfter), [];
      }
      rejectedEmittedAt := Some(now);
      var suppressed := rejectionsSuppressed;
      rejectionsSuppressed := 0;
      events := events + [Rejected(retryAfter, suppressed)];
      answer := Refused(retryAfter);
      taken := TakeEvents();
    }

    method RecordClosed(failed: bool, now: real, reopenedAt: real)
      requires Valid()
      modifies this, WindowRepr()
      ensures Valid()
      ensures Value() == BreakerCore.RecordClosed(config, old(Value()), failed, SlotAt(now), reopenedAt)
    {
      if config.rate.Some? {
        RecordOutcome(failed, now, reopenedAt);
      } else if failed {
        consecutiveFailures := consecutiveFailures + 1;
        if consecutiveFailures >= config.failureThreshold {
          EnterOpen(reopenedAt, Opened(consecutiveFailures));
        }
      }
    }

    method RecordProbeSuccess()
      requires Valid()
      modifies this, WindowRepr()
      ensures Valid()
      ensures Value() == BreakerCore.RecordProbeSuccess(config, old(Value()))
    {
      consecutiveSuccesses := consecutiveSuccesses + 1;
      if consecutiveSuccesses >= config.successThreshold {
        CloseCircuit();
      }
    }

    method CloseCircuit()
      requires Valid()
      modifies this, WindowRepr()
      ensures Valid()
      ensures var s := BreakerCore.MoveTo(old(Value()), CLOSED).(failures := 0, successes := 0);
              var window := if config.rate.Some? then s.window + [RingLog.Clear] else s.window;
              Value() == s.(window := window, queue := s.queue + [Closed(s.rejections)])
    {
      ResetClosed();
      ghost var reset := Value();
      ClearWindow();
      ghost var cleared := Value();
      assert cleared == if config.rate.Some? then reset.(window := reset.window + [RingLog.Clear]) else reset;
      QueueOne(Closed(episodeRejections));
    }

    method ResetClosed()
      requires Valid()
      modifies this`state, this`epoch, this`closedTicket, this`consecutiveFailures, this`consecutiveSuccesses
      ensures Valid() && Value() == BreakerCore.MoveTo(old(Value()), CLOSED).(failures := 0, successes := 0)
    {
      MoveTo(CLOSED);
      consecutiveFailures := 0;
      consecutiveSuccesses := 0;
    }

    method QueueOne(event: Event)
      requires Valid()
      modifies this`events
      ensures Valid() && Value() == old(Value()).(queue := old(Value()).queue + [event])
    {
      events := events + [event];
    }

    method ClearWindow()
      requires Valid()
      modifies WindowRepr()
      ensures Valid()
      ensures Value()
           == if config.rate.Some? then old(Value()).(window := old(Value()).window + [RingLog.Clear]) else old(Value())
    {
      if window != null {
        window.Clear();
      }
    }

    /** Files the outcome, then reads the totals: what the log says is live. */
    method FileOutcome(failed: bool, now: real) returns (total: int, failures: int)
      requires Valid() && window != null
      modifies WindowRepr()
      ensures Valid()
      ensures Value() == old(Value()).(window := old(Value()).window + [Log(SlotAt(now), failed)] + [Look(SlotAt(now))])
      ensures failures == Live(Value().window, true) && total == Live(Value().window, false) + failures
    {
      window.Record(now, failed);
      total, failures := window.Totals(now);
    }

    method MoveTo(next: CircuitState)
      requires Valid()
      modifies this`state, this`epoch, this`closedTicket
      ensures Valid() && Value() == BreakerCore.MoveTo(old(Value()), next)
    {
      state := next;
      epoch := epoch + 2;
      closedTicket := if next == CLOSED then Some(epoch) else None;
    }

    method EnterOpen(reopenedAt: real, event: Event)
      requires Valid()
      modifies this
      ensures Valid() && Value() == BreakerCore.EnterOpen(old(Value()), reopenedAt, event)
    {
      if state == CLOSED {
        rejectedEmittedAt := None;
        rejectionsSuppressed := 0;
        episodeRejections := 0;
      }
      MoveTo(OPEN);
      openedAt := reopenedAt;
      consecutiveFailures := 0;
      consecutiveSuccesses := 0;
      events := events + [event];
    }

    method ReachesRate(total: nat, failures: nat) returns (reached: bool)
      requires config.rate.Some?
      ensures reached == AtThreshold(config.rate.value, failures, total)
    {
      if total > 0 {
        RateAsProduct(failures, total, config.rate.value.threshold);
      }
      reached := total >= config.rate.value.minimumCalls && failures as real / total as real >= config.rate.value.threshold;
    }

    method RecordOutcome(failed: bool, now: real, reopenedAt: real)
      requires Valid() && window != null
      modifies this, WindowRepr()
      ensures Valid()
      ensures Value() == BreakerCore.RecordOutcome(config, old(Value()), failed, SlotAt(now), reopenedAt)
    {
      var total, failures := FileOutcome(failed, now);
      hide AtThreshold, Live, BreakerCore.EnterOpen;
      var trips := ReachesRate(total, failures);
      if trips {
        EnterOpen(reopenedAt, OpenedByRate(total, failures));
      }
    }
  }
}
