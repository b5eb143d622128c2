/** How long an outcome counts in the breaker's rolling window, when its clock does not run backwards. */
module WindowAge {
  import opened Options
  import opened RingLog
  import opened RollingWindow
  import TimestampBudget

  /** An outcome recorded, and the totals read, at one clock reading. */
  datatype Reading = Reading(at: real, failed: bool)

  predicate InOrder(rs: seq<Reading>, now: real) {
    forall i :: 0 <= i < |rs| ==> rs[i].at <= now && forall j :: i < j < |rs| ==> rs[i].at <= rs[j].at
  }

  function OpsOf(width: real, rs: seq<Reading>): seq<Op>
    requires width > 0.0
  {
    if rs == [] then []
    else
      var last := rs[|rs| - 1];
      OpsOf(width, rs[..|rs| - 1]) + [Log(SlotOf(last.at, width), last.failed)] + [Look(SlotOf(last.at, width))]
  }

  function CountSince(rs: seq<Reading>, failed: bool, cut: real): nat {
    if rs == [] then 0 else
      var last := rs[|rs| - 1];
      CountSince(rs[..|rs| - 1], failed, cut) + if last.failed == failed && last.at >= cut then 1 else 0
  }

  function CountAfter(rs: seq<Reading>, failed: bool, cut: real): nat {
    if rs == [] then 0 else
      var last := rs[|rs| - 1];
      CountAfter(rs[..|rs| - 1], failed, cut) + if last.failed == failed && last.at > cut then 1 else 0
  }

  lemma {:induction false} FiledInTime(width: real, rs: seq<Reading>, now: real)
    requires width > 0.0 && InOrder(rs, now)
    ensures var high := HighSlot(OpsOf(width, rs)); high.Some? ==> high.value <= SlotOf(now, width)
  {
    hide SlotOf, HighSlot;
    if rs == [] {
      NoOps();
    } else {
      var before, last := rs[..|rs| - 1], rs[|rs| - 1];
      FiledInTime(width, before, last.at);
      FiledOne(width, before, last);
      TimestampBudget.SlotsByAge(width, last.at, now);
    }
  }

  lemma NoOps()
    ensures HighSlot([]).None? && Entries([]) == []
  {
  }

  lemma FiledOne(width: real, before: seq<Reading>, last: Reading)
    requires width > 0.0
    requires var high := HighSlot(OpsOf(width, before)); high.Some? ==> high.value <= SlotOf(last.at, width)
    ensures var ops, slot := OpsOf(width, before), SlotOf(last.at, width);
            var more := ops + [Log(slot, last.failed)] + [Look(slot)];
            HighSlot(more) == Some(slot) && Entries(more) == Entries(ops) + [Entry(slot, last.failed)]
  {
    hide SlotOf, HighSlot, Entries, OpsOf;
    var ops, slot := OpsOf(width, before), SlotOf(last.at, width);
    Append(ops, Log(slot, last.failed));
    Append(ops + [Log(slot, last.failed)], Look(slot));
  }

  /** By slot: an outcome counts up to an age of nine tenths of the window, and no longer than the window. */
  lemma {:induction false} EntriesByAge(window: real, rs: seq<Reading>, now: real, failed: bool)
    requires window > 0.0 && InOrder(rs, now)
    ensures var width := window / BUCKET_COUNT as real;
            var live := CountAbove(Entries(OpsOf(width, rs)), failed, SlotOf(now, width) - BUCKET_COUNT);
            CountSince(rs, failed, now - 0.9 * window) <= live <= CountAfter(rs, failed, now - window)
  {
    hide SlotOf, HighSlot, Entries, CountAbove;
    var width := window / BUCKET_COUNT as real;
    if rs == [] {
      NoOps();
      NoneAbove(failed, SlotOf(now, width) - BUCKET_COUNT);
    } else {
      var before, last := rs[..|rs| - 1], rs[|rs| - 1];
      EntriesByAge(window, before, now, failed);
      FiledInTime(width, before, last.at);
      FiledOne(width, before, last);
      CountAppend(Entries(OpsOf(width, before)), Entry(SlotOf(last.at, width), last.failed), failed,
          SlotOf(now, width) - BUCKET_COUNT);
      TimestampBudget.SlotsByAge(width, last.at, now);
    }
  }

  lemma NoneAbove(lane: bool, cutoff: int)
    ensures CountAbove([], lane, cutoff) == 0
  {
  }

  /**
    What the window's totals report at `now`: every outcome of age at most nine tenths of the
    window, and none of the window's age or more.
   */
  lemma WindowByAge(window: real, rs: seq<Reading>, now: real, failed: bool)
    requires window > 0.0 && InOrder(rs, now)
    ensures var width := window / BUCKET_COUNT as real;
            var live := Live(OpsOf(width, rs) + [Look(SlotOf(now, width))], failed);
            CountSince(rs, failed, now - 0.9 * window) <= live <= CountAfter(rs, failed, now - window)
  {
    hide SlotOf, HighSlot, Entries, CountAbove, CountSince, CountAfter;
    var width := window / BUCKET_COUNT as real;
    FiledInTime(width, rs, now);
    Append(OpsOf(width, rs), Look(SlotOf(now, width)));
    EntriesByAge(window, rs, now, failed);
  }
}
