/**
  The breaker's rolling window: ten success/failure buckets with running totals, rotated
  in place, standing for the log of `RingLog`. Lane `true` holds failures.
 */
module RollingWindow {
  import opened Options
  import opened RingLog

  /** Python's `now // width` as an integer slot. */
  function SlotOf(now: real, width: real): int
    requires width > 0.0
  {
    (now / width).Floor
  }

  lemma SlotIs(now: real, width: real)
    requires width > 0.0
    ensures var slot := SlotOf(now, width); slot as real * width <= now < (slot + 1) as real * width
  {
    var quotient := now / width;
    Between(quotient.Floor as real, quotient, (quotient.Floor + 1) as real, width, now);
  }

  lemma Between(low: real, x: real, high: real, width: real, product: real)
    requires width > 0.0 && low <= x < high && product == x * width
    ensures low * width <= product < high * width
  {
    assert (x - low) * width >= 0.0;
    assert (high - x) * width > 0.0;
  }

  class Window {
    const width: real
    var slot: Option<int>
    var index: nat
    const success: array<int>
    const failure: array<int>
    var total: int
    var failures: int
    ghost var history: seq<Op>

    ghost function Repr(): set<object> {
      {this, success, failure}
    }

    ghost predicate Shaped() {
      success != failure && success.Length == BUCKET_COUNT && failure.Length == BUCKET_COUNT
    }

    /** The totals are the bucket sums, and both are what the full log says. */
    ghost predicate Valid()
      reads this, success, failure
    {
      && width > 0.0 && Shaped()
      && slot == HighSlot(history)
      && (slot.None? ==> AllZero(success[..]) && AllZero(failure[..]) && total == failures == 0)
      && (slot.Some? ==> index == slot.value % BUCKET_COUNT
                         && Ring(success[..], failure[..], Entries(history), slot.value, total - failures, failures))
    }

    constructor (windowSeconds: real)
      requires windowSeconds > 0.0
      ensures Valid() && fresh(Repr()) && history == [] && width == windowSeconds / BUCKET_COUNT as real
    {
      width := windowSeconds / BUCKET_COUNT as real;
      slot := None;
      index := 0;
      success := new int[BUCKET_COUNT](_ => 0);
      failure := new int[BUCKET_COUNT](_ => 0);
      total := 0;
      failures := 0;
      history := [];
    }

    /** Makes `current` the current slot, dropping every bucket that fell out. At most nine are visited one by one. */
    method Advance(current: int) returns (ghost visited: nat)
      requires Valid()
      modifies Repr()
      ensures Valid()
      ensures history == old(history) + [Look(current)] && slot.Some?
      ensures visited < BUCKET_COUNT
    {
      hide Ring, Entries, HighSlot;
      visited := 0;
      ghost var log := Entries(history);
      Append(history, Look(current));
      EntriesBelowHigh(history);
      history := history + [Look(current)];
      if slot.Some? && current <= slot.value {
        return;
      }
      if slot.None? || current - slot.value >= BUCKET_COUNT {
        Zero();
        RingRestarts(success[..], failure[..], log, slot, current);
      } else {
        visited := DropBefore(current, log);
      }
      slot := Some(current);
      index := current % BUCKET_COUNT;
    }

    /** Empties, one by one, the buckets of the slots that fall out when the window moves up to `current`. */
    method DropBefore(current: int, ghost log: seq<Entry>) returns (ghost visited: nat)
      requires Shaped() && slot.Some? && slot.value < current < slot.value + BUCKET_COUNT
      requires forall i :: 0 <= i < |log| ==> log[i].slot <= slot.value
      requires Ring(success[..], failure[..], log, slot.value, total - failures, failures)
      modifies this`total, this`failures, success, failure
      ensures Ring(success[..], failure[..], log, current, total - failures, failures)
      ensures visited < BUCKET_COUNT
    {
      hide Ring;
      visited := 0;
      var stale := slot.value + 1;
      while stale <= current
        invariant slot.value < stale <= current + 1
        invariant visited == stale - slot.value - 1
        invariant Ring(success[..], failure[..], log, stale - 1, total - failures, failures)
      {
        RingRotates(success[..], failure[..], log, stale - 1, total - failures, failures);
        Drop(stale % BUCKET_COUNT);
        stale := stale + 1;
        visited := visited + 1;
      }
    }

    /** Empties the bucket of a slot that fell out of the window. */
    method Drop(i: nat)
      requires Shaped() && i < BUCKET_COUNT
      modifies this`total, this`failures, success, failure
      ensures success[..] == old(success[..])[i := 0] && failure[..] == old(failure[..])[i := 0]
      ensures total == old(total - (success[i] + failure[i])) && failures == old(failures - failure[i])
    {
      total := total - (success[i] + failure[i]);
      failures := failures - failure[i];
      success[i] := 0;
      failure[i] := 0;
    }

    method Record(now: real, failed: bool)
      requires Valid()
      modifies Repr()
      ensures Valid()
      ensures history == old(history) + [Log(SlotOf(now, width), failed)]
    {
      RecordIn(SlotOf(now, width), failed);
    }

    method RecordIn(current: int, failed: bool)
      requires Valid()
      modifies Repr()
      ensures Valid()
      ensures history == old(history) + [Log(current, failed)]
    {
      hide Ring, Entries, HighSlot;
      var _ := Advance(current);
      Append(old(history), Look(current));
      Append(old(history), Log(current, failed));
      RingFiles(success[..], failure[..], Entries(history), slot.value, total - failures, failures, failed);
      history := old(history) + [Log(current, failed)];
      Count(failed);
    }

    /** One more outcome in the current bucket. */
    method Count(failed: bool)
      requires Shaped() && index < BUCKET_COUNT
      modifies this`total, this`failures, success, failure
      ensures success[..] == if failed then old(success[..]) else old(success[..])[index := old(success[index]) + 1]
      ensures failure[..] == if failed then old(failure[..])[index := old(failure[index]) + 1] else old(failure[..])
      ensures total == old(total) + 1 && failures == old(failures) + if failed then 1 else 0
    {
      if failed {
        failure[index] := failure[index] + 1;
        failures := failures + 1;
      } else {
        success[index] := success[index] + 1;
      }
      total := total + 1;
    }

    method Totals(now: real) returns (count: int, failed: int)
      requires Valid()
      modifies Repr()
      ensures Valid()
      ensures history == old(history) + [Look(SlotOf(now, width))]
      ensures count == Live(history, false) + Live(history, true) && failed == Live(history, true)
    {
      var _ := Advance(SlotOf(now, width));
      count, failed := total, failures;
    }

    /** Zeroes the buckets and totals; the current slot stays. The library binds two new lists of zeros instead. */
    method Zero()
      requires Shaped()
      modifies this`total, this`failures, success, failure
      ensures AllZero(success[..]) && AllZero(failure[..]) && total == failures == 0
    {
      forall i | 0 <= i < BUCKET_COUNT {
        success[i] := 0;
      }
      forall i | 0 <= i < BUCKET_COUNT {
        failure[i] := 0;
      }
      total := 0;
      failures := 0;
    }

    method Clear()
      requires Valid()
      modifies Repr()
      ensures Valid()
      ensures history == old(history) + [RingLog.Clear]
    {
      Zero();
      Append(history, RingLog.Clear);
      history := history + [RingLog.Clear];
      if slot.Some? {
        RingClears(success[..], failure[..], slot.value);
      }
    }
  }
}
