/**
  The reference meaning of the two ten-bucket rings: a log that forgets nothing.

  An operation carries the slot of the clock reading it was made with. Readings may
  arrive out of order; a late event is filed under the highest slot read so far (its
  effective slot). Each event belongs to one of two lanes.
 */
module RingLog {
  import opened Options

  const BUCKET_COUNT: nat := 10

  datatype Op =
    | Log(slot: int, lane: bool)
    | Look(slot: int)
    | Clear

  datatype Entry = Entry(slot: int, lane: bool)

  function Raise(high: Option<int>, slot: int): Option<int> {
    if high.Some? && slot <= high.value then high else Some(slot)
  }

  function RaiseBy(high: Option<int>, op: Op): Option<int> {
    if op.Clear? then high else Raise(high, op.slot)
  }

  /** The highest slot any operation has read; clearing does not lower it. */
  function HighSlot(ops: seq<Op>): Option<int> {
    if ops == [] then None else RaiseBy(HighSlot(ops[..|ops| - 1]), ops[|ops| - 1])
  }

  /** It is the maximum of the slots read, and there is none exactly when nothing was. */
  lemma {:induction false} HighSlotIsMaximum(ops: seq<Op>)
    ensures HighSlot(ops).None? <==> forall i :: 0 <= i < |ops| ==> ops[i].Clear?
    ensures HighSlot(ops).Some? ==>
              && (exists i :: 0 <= i < |ops| && !ops[i].Clear? && ops[i].slot == HighSlot(ops).value)
              && forall i :: 0 <= i < |ops| && !ops[i].Clear? ==> ops[i].slot <= HighSlot(ops).value
  {
    if ops != [] {
      var n := |ops| - 1;
      var before := ops[..n];
      HighSlotIsMaximum(before);
      assert forall i :: 0 <= i < n ==> before[i] == ops[i];
      if HighSlot(before).Some? {
        var i :| 0 <= i < n && !before[i].Clear? && before[i].slot == HighSlot(before).value;
        assert ops[i].slot == HighSlot(before).value;
      }
      assert !ops[n].Clear? ==> HighSlot(ops) == Raise(HighSlot(before), ops[n].slot);
    }
  }

  function FileBy(log: seq<Entry>, high: Option<int>, op: Op): seq<Entry> {
    if op.Clear? then [] else if op.Look? then log else log + [Entry(Raise(high, op.slot).value, op.lane)]
  }

  /** The events since the last clear, each at its effective slot. */
  function Entries(ops: seq<Op>): seq<Entry> {
    if ops == [] then [] else
      var before := ops[..|ops| - 1];
      FileBy(Entries(before), HighSlot(before), ops[|ops| - 1])
  }

  function CountAbove(log: seq<Entry>, lane: bool, slot: int): nat {
    if log == [] then 0 else
      var last := log[|log| - 1];
      CountAbove(log[..|log| - 1], lane, slot) + if last.lane == lane && last.slot > slot then 1 else 0
  }

  function CountAt(log: seq<Entry>, lane: bool, slot: int): nat {
    if log == [] then 0 else
      var last := log[|log| - 1];
      CountAt(log[..|log| - 1], lane, slot) + if last.lane == lane && last.slot == slot then 1 else 0
  }

  /** The events of one lane still inside the window: those in the last ten slots. */
  function Live(ops: seq<Op>, lane: bool): nat {
    match HighSlot(ops)
    case None => 0
    case Some(high) => CountAbove(Entries(ops), lane, high - BUCKET_COUNT)
  }

  lemma EntriesBelowHigh(ops: seq<Op>)
    ensures HighSlot(ops).None? ==> Entries(ops) == []
    ensures forall i :: 0 <= i < |Entries(ops)| ==> HighSlot(ops).Some? && Entries(ops)[i].slot <= HighSlot(ops).value
  {
    if ops != [] {
      EntriesBelowHigh(ops[..|ops| - 1]);
    }
  }

  lemma Append(ops: seq<Op>, op: Op)
    ensures HighSlot(ops + [op]) == RaiseBy(HighSlot(ops), op)
    ensures Entries(ops + [op]) == FileBy(Entries(ops), HighSlot(ops), op)
  {
    assert (ops + [op])[..|ops|] == ops;
  }

  lemma CountAppend(log: seq<Entry>, e: Entry, lane: bool, slot: int)
    ensures CountAbove(log + [e], lane, slot) == CountAbove(log, lane, slot) + if e.lane == lane && e.slot > slot then 1 else 0
    ensures CountAt(log + [e], lane, slot) == CountAt(log, lane, slot) + if e.lane == lane && e.slot == slot then 1 else 0
  {
    assert (log + [e])[..|log|] == log;
  }

  /** Moving the cutoff up by one slot loses exactly the events of that slot. */
  lemma {:induction false} CutoffStep(log: seq<Entry>, lane: bool, slot: int)
    ensures CountAbove(log, lane, slot) == CountAbove(log, lane, slot + 1) + CountAt(log, lane, slot + 1)
  {
    if log != [] {
      CutoffStep(log[..|log| - 1], lane, slot);
    }
  }

  lemma {:induction false} NothingAbove(log: seq<Entry>, lane: bool, high: int)
    requires forall i :: 0 <= i < |log| ==> log[i].slot <= high
    ensures forall slot :: slot >= high ==> CountAbove(log, lane, slot) == 0
    ensures forall slot :: slot > high ==> CountAt(log, lane, slot) == 0
  {
    if log != [] {
      NothingAbove(log[..|log| - 1], lane, high);
    }
  }

  /** The effective slot of the operation at `i`: the running maximum when it was made. */
  function EffectiveSlot(ops: seq<Op>, i: int): int
    requires 0 <= i < |ops| && !ops[i].Clear?
  {
    RaiseBy(HighSlot(ops[..i]), ops[i]).value
  }

  predicate Counted(ops: seq<Op>, lane: bool, slot: int, i: int)
    requires 0 <= i < |ops|
  {
    && ops[i].Log? && ops[i].lane == lane && EffectiveSlot(ops, i) > slot
    && forall j :: i < j < |ops| ==> !ops[j].Clear?
  }

  /** The logged events since the last clear whose effective slot is above `slot`, by position in the raw history. */
  ghost function LiveAt(ops: seq<Op>, lane: bool, slot: int): set<int> {
    set i | 0 <= i < |ops| && Counted(ops, lane, slot, i)
  }

  lemma CountedAppend(ops: seq<Op>, op: Op, lane: bool, slot: int, i: int)
    requires 0 <= i < |ops|
    ensures Counted(ops + [op], lane, slot, i) <==> Counted(ops, lane, slot, i) && !op.Clear?
  {
    assert (ops + [op])[..i] == ops[..i];
    if Counted(ops + [op], lane, slot, i) {
      assert (ops + [op])[|ops|] == op;
      forall j | i < j < |ops| ensures !ops[j].Clear? {
        assert (ops + [op])[j] == ops[j];
      }
    }
  }

  lemma LiveAtAppend(ops: seq<Op>, op: Op, lane: bool, slot: int)
    ensures LiveAt(ops + [op], lane, slot)
         == if op.Clear? then {}
            else LiveAt(ops, lane, slot)
                 + if op.Log? && op.lane == lane && Raise(HighSlot(ops), op.slot).value > slot then {|ops|} else {}
  {
    var all := ops + [op];
    forall i | 0 <= i < |ops|
      ensures Counted(all, lane, slot, i) <==> Counted(ops, lane, slot, i) && !op.Clear?
    {
      CountedAppend(ops, op, lane, slot, i);
    }
    assert all[..|ops|] == ops;
    hide EffectiveSlot;
    assert Counted(all, lane, slot, |ops|) <==> op.Log? && op.lane == lane && EffectiveSlot(all, |ops|) > slot;
  }

  /** The filed log counts what the raw history says: one entry per live event, at its running maximum. */
  lemma {:induction false} EntriesCountHistory(ops: seq<Op>, lane: bool, slot: int)
    ensures CountAbove(Entries(ops), lane, slot) == |LiveAt(ops, lane, slot)|
  {
    if ops == [] {
    } else {
      var before, op := ops[..|ops| - 1], ops[|ops| - 1];
      assert ops == before + [op];
      EntriesCountHistory(before, lane, slot);
      LiveAtAppend(before, op, lane, slot);
      if op.Log? {
        CountAppend(Entries(before), Entry(Raise(HighSlot(before), op.slot).value, op.lane), lane, slot);
      }
    }
  }

  // ---- the ring ----

  /** Bucket `i % 10` holds the count of slot `i`, for each of the ten slots ending at `slot`. */
  ghost predicate Holds(buckets: seq<int>, log: seq<Entry>, lane: bool, slot: int) {
    && |buckets| == BUCKET_COUNT
    && forall i :: slot - BUCKET_COUNT < i <= slot ==> buckets[i % BUCKET_COUNT] == CountAt(log, lane, i)
  }

  function Sum(s: seq<int>): int {
    if s == [] then 0 else s[0] + Sum(s[1..])
  }

  lemma {:induction false} SumUpdate(s: seq<int>, i: nat, v: int)
    requires i < |s|
    ensures Sum(s[i := v]) == Sum(s) - s[i] + v
  {
    if i == 0 {
      assert s[0 := v][1..] == s[1..];
    } else {
      assert s[i := v][1..] == s[1..][i - 1 := v];
      SumUpdate(s[1..], i - 1, v);
    }
  }

  lemma {:induction false} SumZero(s: seq<int>)
    requires forall i :: 0 <= i < |s| ==> s[i] == 0
    ensures Sum(s) == 0
  {
    if s != [] {
      SumZero(s[1..]);
    }
  }

  /** Reusing the bucket of the slot that falls out keeps the ring right one slot later. */
  lemma RotateOne(buckets: seq<int>, log: seq<Entry>, lane: bool, slot: int)
    requires Holds(buckets, log, lane, slot)
    requires forall i :: 0 <= i < |log| ==> log[i].slot <= slot
    ensures var index := (slot + 1) % BUCKET_COUNT;
            && Holds(buckets[index := 0], log, lane, slot + 1)
            && CountAbove(log, lane, slot + 1 - BUCKET_COUNT) == CountAbove(log, lane, slot - BUCKET_COUNT) - buckets[index]
  {
    NothingAbove(log, lane, slot);
    CutoffStep(log, lane, slot - BUCKET_COUNT);
    assert (slot + 1) % BUCKET_COUNT == (slot + 1 - BUCKET_COUNT) % BUCKET_COUNT;
  }

  /** A ring ten or more slots behind holds nothing live: all its buckets may be zeroed at once. */
  lemma RestartHolds(buckets: seq<int>, log: seq<Entry>, lane: bool, high: int, slot: int)
    requires forall i :: 0 <= i < |log| ==> log[i].slot <= high
    requires |log| > 0 ==> slot - high >= BUCKET_COUNT
    requires |buckets| == BUCKET_COUNT && forall i :: 0 <= i < BUCKET_COUNT ==> buckets[i] == 0
    ensures Holds(buckets, log, lane, slot) && CountAbove(log, lane, slot - BUCKET_COUNT) == 0
  {
    NothingAbove(log, lane, if log == [] then slot - BUCKET_COUNT else high);
  }

  /** Counting one more event in the current bucket. */
  lemma FileOne(buckets: seq<int>, log: seq<Entry>, lane: bool, slot: int, e: Entry)
    requires Holds(buckets, log, lane, slot) && e.slot == slot
    ensures Holds(if e.lane == lane then buckets[slot % BUCKET_COUNT := buckets[slot % BUCKET_COUNT] + 1] else buckets,
        log + [e], lane, slot)
    ensures CountAbove(log + [e], lane, slot - BUCKET_COUNT)
         == CountAbove(log, lane, slot - BUCKET_COUNT) + if e.lane == lane then 1 else 0
  {
    CountAppend(log, e, lane, slot - BUCKET_COUNT);
    forall i | slot - BUCKET_COUNT < i <= slot
      ensures CountAt(log + [e], lane, i) == CountAt(log, lane, i) + if e.lane == lane && e.slot == i then 1 else 0
    {
      CountAppend(log, e, lane, i);
    }
  }

  // ---- two rings side by side, with their running totals ----

  ghost predicate Ring(a: seq<int>, b: seq<int>, log: seq<Entry>, slot: int, sumA: int, sumB: int) {
    && Holds(a, log, false, slot) && Holds(b, log, true, slot)
    && sumA == Sum(a) == CountAbove(log, false, slot - BUCKET_COUNT)
    && sumB == Sum(b) == CountAbove(log, true, slot - BUCKET_COUNT)
  }

  ghost predicate AllZero(s: seq<int>) {
    |s| == BUCKET_COUNT && forall i :: 0 <= i < BUCKET_COUNT ==> s[i] == 0
  }

  lemma RingRotates(a: seq<int>, b: seq<int>, log: seq<Entry>, slot: int, sumA: int, sumB: int)
    requires Ring(a, b, log, slot, sumA, sumB)
    requires forall i :: 0 <= i < |log| ==> log[i].slot <= slot
    ensures var i := (slot + 1) % BUCKET_COUNT;
            Ring(a[i := 0], b[i := 0], log, slot + 1, sumA - a[i], sumB - b[i])
  {
    var i := (slot + 1) % BUCKET_COUNT;
    RotateOne(a, log, false, slot);
    RotateOne(b, log, true, slot);
    SumUpdate(a, i, 0);
    SumUpdate(b, i, 0);
  }

  lemma RingRestarts(a: seq<int>, b: seq<int>, log: seq<Entry>, high: Option<int>, slot: int)
    requires AllZero(a) && AllZero(b)
    requires high.None? ==> log == []
    requires high.Some? ==> slot - high.value >= BUCKET_COUNT && forall i :: 0 <= i < |log| ==> log[i].slot <= high.value
    ensures Ring(a, b, log, slot, 0, 0)
  {
    var top := if high.None? then slot - BUCKET_COUNT else high.value;
    RestartHolds(a, log, false, top, slot);
    RestartHolds(b, log, true, top, slot);
    SumZero(a);
    SumZero(b);
  }

  lemma RingFiles(a: seq<int>, b: seq<int>, log: seq<Entry>, slot: int, sumA: int, sumB: int, lane: bool)
    requires Ring(a, b, log, slot, sumA, sumB)
    ensures var i := slot % BUCKET_COUNT;
            var log' := log + [Entry(slot, lane)];
            if lane then Ring(a, b[i := b[i] + 1], log', slot, sumA, sumB + 1)
            else Ring(a[i := a[i] + 1], b, log', slot, sumA + 1, sumB)
  {
    var i := slot % BUCKET_COUNT;
    FileOne(a, log, false, slot, Entry(slot, lane));
    FileOne(b, log, true, slot, Entry(slot, lane));
    SumUpdate(a, i, a[i] + 1);
    SumUpdate(b, i, b[i] + 1);
  }

  /** Clearing empties the log and zeroes the buckets, whatever the slot. */
  lemma RingClears(a: seq<int>, b: seq<int>, slot: int)
    requires AllZero(a) && AllZero(b)
    ensures Ring(a, b, [], slot, 0, 0)
  {
    RingRestarts(a, b, [], None, slot);
  }
}
