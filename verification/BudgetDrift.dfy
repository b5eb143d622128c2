/**
  Where the demo's timestamp budget and the library's ten-bucket budget part, fed the same
  calls with the clock running forward: on events whose bucket is gone though they are not
  yet older than ttl.
 */
module BudgetDrift {
  import opened Options
  import opened RingLog
  import opened RetryBudget
  import opened TimestampBudget

  predicate LibraryPermits(c: Config, stamps: seq<Stamp>, now: real) {
    Permits(c, Calls(c, stamps), SlotAt(c, now))
  }

  predicate DemoPermits(c: Config, stamps: seq<Stamp>, now: real) {
    var cut := Some(now - c.ttl);
    PermitsOn(c, |KeptTimes(c, stamps, DEPOSIT, cut)|, |KeptTimes(c, stamps, GRANT, cut)|)
  }

  /** At `now` the demo still keeps an event of `at`, and the library has dropped its bucket. */
  predicate Grey(c: Config, at: real, now: real) {
    at >= now - c.ttl && SlotAt(c, at) <= SlotAt(c, now) - BUCKET_COUNT
  }

  function CountGrey(c: Config, stamps: seq<Stamp>, kind: Kind, now: real): nat {
    if stamps == [] then 0 else
      var last := stamps[|stamps| - 1];
      CountGrey(c, stamps[..|stamps| - 1], kind, now) + if last.kind == kind && Grey(c, last.at, now) then 1 else 0
  }

  /** The stamps of one kind in slots above `cutoff`. */
  function CountSlots(c: Config, stamps: seq<Stamp>, kind: Kind, cutoff: int): nat {
    if stamps == [] then 0 else
      var last := stamps[|stamps| - 1];
      CountSlots(c, stamps[..|stamps| - 1], kind, cutoff) + if last.kind == kind && SlotAt(c, last.at) > cutoff then 1 else 0
  }

  // ---- both budgets as counts ----

  /** With the clock running forward nothing is filed late: the library counts by the stamps' own slots. */
  lemma {:induction false} FiledBySlot(c: Config, stamps: seq<Stamp>, now: real, lane: bool, cutoff: int)
    requires InOrder(stamps, now)
    ensures CountAbove(Entries(Ops(Calls(c, stamps))), lane, cutoff) == CountSlots(c, stamps, LaneKind(lane), cutoff)
  {
    hide RetryBudget.SlotAt, Ops, Entries, CountAbove, HighSlot;
    if stamps == [] {
      NothingFiled(c, lane, cutoff);
    } else {
      var before, last := stamps[..|stamps| - 1], stamps[|stamps| - 1];
      assert before + [last] == stamps;
      FiledBySlot(c, before, now, lane, cutoff);
      FiledInTime(c, before, last.at);
      FiledOne(c, before, last, lane, cutoff);
    }
  }

  lemma NothingFiled(c: Config, lane: bool, cutoff: int)
    ensures CountAbove(Entries(Ops(Calls(c, []))), lane, cutoff) == 0
  {
  }

  lemma LibraryCounts(c: Config, stamps: seq<Stamp>, now: real)
    requires InOrder(stamps, now)
    ensures var cutoff := SlotAt(c, now) - BUCKET_COUNT;
            LibraryPermits(c, stamps, now)
            <==> PermitsOn(c, CountSlots(c, stamps, DEPOSIT, cutoff), CountSlots(c, stamps, GRANT, cutoff))
  {
    hide RetryBudget.SlotAt, Ops, Entries, CountAbove, HighSlot, CountSlots, Calls;
    var cutoff := SlotAt(c, now) - BUCKET_COUNT;
    Append(Ops(Calls(c, stamps)), Look(SlotAt(c, now)));
    FiledInTime(c, stamps, now);
    FiledBySlot(c, stamps, now, false, cutoff);
    FiledBySlot(c, stamps, now, true, cutoff);
  }

  lemma DemoCounts(c: Config, stamps: seq<Stamp>, now: real)
    requires InOrder(stamps, now)
    ensures DemoPermits(c, stamps, now)
            <==> PermitsOn(c, CountSince(stamps, DEPOSIT, now - c.ttl), CountSince(stamps, GRANT, now - c.ttl))
  {
    DemoInOrder(c, stamps, now);
  }

  /** Of each kind the demo counts what the library counts and the grey ones besides. */
  lemma {:induction false} GreyMakesTheDifference(c: Config, stamps: seq<Stamp>, kind: Kind, now: real)
    requires InOrder(stamps, now)
    ensures CountSince(stamps, kind, now - c.ttl)
         == CountSlots(c, stamps, kind, SlotAt(c, now) - BUCKET_COUNT) + CountGrey(c, stamps, kind, now)
  {
    hide RetryBudget.SlotAt;
    if stamps != [] {
      var before, last := stamps[..|stamps| - 1], stamps[|stamps| - 1];
      GreyMakesTheDifference(c, before, kind, now);
      SlotsByTtl(c, last.at, now);
    }
  }

  /** With no grey event the two decide alike. */
  lemma AlikeWithoutGrey(c: Config, stamps: seq<Stamp>, now: real)
    requires InOrder(stamps, now)
    requires forall i :: 0 <= i < |stamps| ==> !Grey(c, stamps[i].at, now)
    ensures DemoPermits(c, stamps, now) <==> LibraryPermits(c, stamps, now)
  {
    hide RetryBudget.SlotAt, PermitsOn, DemoPermits, LibraryPermits, CountSince, CountSlots, CountGrey;
    DemoCounts(c, stamps, now);
    LibraryCounts(c, stamps, now);
    GreyMakesTheDifference(c, stamps, DEPOSIT, now);
    GreyMakesTheDifference(c, stamps, GRANT, now);
    NoneGrey(c, stamps, DEPOSIT, now);
    NoneGrey(c, stamps, GRANT, now);
  }

  lemma {:induction false} NoneGrey(c: Config, stamps: seq<Stamp>, kind: Kind, now: real)
    requires forall i :: 0 <= i < |stamps| ==> !Grey(c, stamps[i].at, now)
    ensures CountGrey(c, stamps, kind, now) == 0
  {
    if stamps != [] {
      NoneGrey(c, stamps[..|stamps| - 1], kind, now);
    }
  }

  // ---- histories that part them ----

  /** A history both could have: so far each decided each withdrawal as it was decided. */
  predicate InStep(c: Config, stamps: seq<Stamp>) {
    stamps != [] ==>
      var before, last := stamps[..|stamps| - 1], stamps[|stamps| - 1];
      && InStep(c, before)
      && (last.kind == GRANT ==> LibraryPermits(c, before, last.at) && DemoPermits(c, before, last.at))
      && (last.kind == REFUSAL ==> !LibraryPermits(c, before, last.at) && !DemoPermits(c, before, last.at))
  }

  /** `n` grants at once, after `first`. */
  function Burst(first: seq<Stamp>, at: real, n: nat): seq<Stamp> {
    if n == 0 then first else Burst(first, at, n - 1) + [Stamp(at, GRANT)]
  }

  lemma {:induction false} BurstCounts(c: Config, first: seq<Stamp>, at: real, n: nat, cutoff: int, cut: real)
    ensures var stamps := Burst(first, at, n);
            && CountSlots(c, stamps, DEPOSIT, cutoff) == CountSlots(c, first, DEPOSIT, cutoff)
            && CountSlots(c, stamps, GRANT, cutoff) == CountSlots(c, first, GRANT, cutoff)
                + (if SlotAt(c, at) > cutoff then n else 0)
            && CountSince(stamps, DEPOSIT, cut) == CountSince(first, DEPOSIT, cut)
            && CountSince(stamps, GRANT, cut) == CountSince(first, GRANT, cut) + (if at >= cut then n else 0)
  {
    hide RetryBudget.SlotAt;
    if n > 0 {
      BurstCounts(c, first, at, n - 1, cutoff, cut);
      var before := Burst(first, at, n - 1);
      assert (before + [Stamp(at, GRANT)])[..|before|] == before;
    }
  }

  lemma {:induction false} BurstInOrder(first: seq<Stamp>, at: real, n: nat, now: real)
    requires InOrder(first, at) && at <= now
    ensures InOrder(Burst(first, at, n), now)
    ensures forall i :: 0 <= i < |Burst(first, at, n)| ==> Burst(first, at, n)[i].at <= at
  {
    if n > 0 {
      BurstInOrder(first, at, n - 1, now);
    }
  }

  /** Nothing yet, or one deposit. */
  predicate Opening(first: seq<Stamp>, at: real) {
    first == [] || (|first| == 1 && first[0].kind == DEPOSIT && first[0].at <= at)
  }

  lemma OpeningCounts(c: Config, first: seq<Stamp>, at: real, cutoff: int, cut: real)
    requires Opening(first, at)
    ensures InStep(c, first) && InOrder(first, at)
    ensures CountSlots(c, first, GRANT, cutoff) == CountSince(first, GRANT, cut) == 0
    ensures CountSlots(c, first, DEPOSIT, cutoff) == if first != [] && SlotAt(c, first[0].at) > cutoff then 1 else 0
    ensures CountSince(first, DEPOSIT, cut) == if first != [] && first[0].at >= cut then 1 else 0
  {
    hide RetryBudget.SlotAt, LibraryPermits, DemoPermits;
    if first != [] {
      assert first[..0] == [];
      assert InStep(c, first[..0]);
    }
  }

  lemma CeilingAtLeastFloor(c: Config, n: nat)
    ensures c.Ceiling(n) >= c.Floor() && c.Ceiling(0) == c.Floor()
    ensures n > 0 && c.percentCanRetry > 0.0 ==> c.Ceiling(n) > c.Floor()
  {
    assert 0 as real * c.percentCanRetry == 0.0;
    if n > 0 && c.percentCanRetry > 0.0 {
      assert n as real * c.percentCanRetry > 0.0;
    }
    CeilingMonotone(c, 0, n);
  }

  /** With fewer live grants than the floor, both grant. */
  lemma UnderFloor(c: Config, stamps: seq<Stamp>, at: real)
    requires InOrder(stamps, at)
    requires CountSlots(c, stamps, GRANT, SlotAt(c, at) - BUCKET_COUNT) == CountSince(stamps, GRANT, at - c.ttl) < c.Floor()
    ensures InStep(c, stamps) ==> InStep(c, stamps + [Stamp(at, GRANT)])
  {
    hide RetryBudget.SlotAt, LibraryPermits, DemoPermits, CountSlots, CountSince, RawConfig.Ceiling, RawConfig.Floor, InOrder;
    LibraryCounts(c, stamps, at);
    DemoCounts(c, stamps, at);
    CeilingAtLeastFloor(c, CountSlots(c, stamps, DEPOSIT, SlotAt(c, at) - BUCKET_COUNT));
    CeilingAtLeastFloor(c, CountSince(stamps, DEPOSIT, at - c.ttl));
    assert (stamps + [Stamp(at, GRANT)])[..|stamps|] == stamps;
  }

  lemma {:induction false} BurstInStep(c: Config, first: seq<Stamp>, at: real, n: nat)
    requires Opening(first, at) && n <= c.Floor()
    ensures InStep(c, Burst(first, at, n))
  {
    hide RetryBudget.SlotAt, InStep, InOrder, CountSlots, CountSince, RawConfig.Floor, Opening;
    var cutoff, cut := SlotAt(c, at) - BUCKET_COUNT, at - c.ttl;
    OpeningCounts(c, first, at, cutoff, cut);
    if n > 0 {
      BurstInStep(c, first, at, n - 1);
      BurstInOrder(first, at, n - 1, at);
      BurstCounts(c, first, at, n - 1, cutoff, cut);
      UnderFloor(c, Burst(first, at, n - 1), at);
    }
  }

  /** A reading `x` bucket widths from zero. */
  function At(c: Config, x: real): real {
    x * c.Width()
  }

  lemma AtSlot(c: Config, x: real)
    ensures SlotAt(c, At(c, x)) == x.Floor
  {
    SameQuotient(At(c, x) / c.Width(), x, c.Width());
  }

  lemma SameQuotient(q: real, x: real, width: real)
    requires width > 0.0 && q * width == x * width
    ensures q == x
  {
    assert (q - x) * width == 0.0;
  }

  /** Half a width into bucket 0, late in bucket 9, and early in bucket 10, when bucket 0 is gone and not yet ttl old. */
  lemma Readings(c: Config)
    ensures SlotAt(c, At(c, 0.5)) == 0 && SlotAt(c, At(c, 9.5)) == 9 && SlotAt(c, At(c, 10.25)) == 10
    ensures At(c, 10.25) - c.ttl <= At(c, 0.5) <= At(c, 9.5) <= At(c, 10.25)
  {
    AtSlot(c, 0.5);
    AtSlot(c, 9.5);
    AtSlot(c, 10.25);
    assert c.ttl == 10.0 * c.Width();
  }

  /** With a positive floor: its grants are forgotten by the library first, which then grants and the demo refuses. */
  lemma FloorParts(c: Config)
    requires c.Floor() >= 1
    ensures var stamps, now := Burst([], At(c, 0.5), c.Floor()), At(c, 10.25);
            InOrder(stamps, now) && InStep(c, stamps) && LibraryPermits(c, stamps, now) && !DemoPermits(c, stamps, now)
  {
    hide RetryBudget.SlotAt, LibraryPermits, DemoPermits, CountSlots, CountSince, RawConfig.Ceiling, RawConfig.Floor, At;
    Readings(c);
    var at, n, now := At(c, 0.5), c.Floor(), At(c, 10.25);
    OpeningCounts(c, [], at, 0, now - c.ttl);
    BurstInStep(c, [], at, n);
    BurstInOrder([], at, n, now);
    BurstCounts(c, [], at, n, 0, now - c.ttl);
    LibraryCounts(c, Burst([], at, n), now);
    DemoCounts(c, Burst([], at, n), now);
    CeilingAtLeastFloor(c, 0);
  }

  /** With a positive percentage: a deposit is forgotten by the library first, which then refuses and the demo grants. */
  lemma SharePart(c: Config)
    requires c.percentCanRetry > 0.0
    ensures var stamps, now := Burst([Stamp(At(c, 0.5), DEPOSIT)], At(c, 9.5), c.Floor()), At(c, 10.25);
            InOrder(stamps, now) && InStep(c, stamps) && !LibraryPermits(c, stamps, now) && DemoPermits(c, stamps, now)
  {
    hide RetryBudget.SlotAt, LibraryPermits, DemoPermits, CountSlots, CountSince, RawConfig.Ceiling, RawConfig.Floor, At;
    Readings(c);
    var first, at, n, now := [Stamp(At(c, 0.5), DEPOSIT)], At(c, 9.5), c.Floor(), At(c, 10.25);
    OpeningCounts(c, first, at, 0, now - c.ttl);
    BurstInStep(c, first, at, n);
    BurstInOrder(first, at, n, now);
    BurstCounts(c, first, at, n, 0, now - c.ttl);
    LibraryCounts(c, Burst(first, at, n), now);
    DemoCounts(c, Burst(first, at, n), now);
    CeilingAtLeastFloor(c, 0);
    CeilingAtLeastFloor(c, 1);
  }

  predicate Alike(c: Config, stamps: seq<Stamp>, now: real) {
    LibraryPermits(c, stamps, now) <==> DemoPermits(c, stamps, now)
  }

  /** A budget that never grants never grants, whoever counts. */
  lemma NothingToGrant(c: Config, stamps: seq<Stamp>, now: real)
    requires c.Floor() == 0 && c.percentCanRetry == 0.0
    ensures Alike(c, stamps, now)
  {
    hide Live, KeptTimes, RetryBudget.SlotAt;
    forall n: nat
      ensures c.Ceiling(n) == 0
    {
      assert n as real * c.percentCanRetry == 0.0;
    }
  }

  /**
    The demo decides as the library does, on every history both could have had and at every
    reading after it, if and only if the budget can never grant at all.
   */
  lemma AlikeExactly(c: Config)
    ensures (forall stamps, now :: InOrder(stamps, now) && InStep(c, stamps) ==> Alike(c, stamps, now))
       <==> c.Floor() == 0 && c.percentCanRetry == 0.0
  {
    hide InStep, InOrder, LibraryPermits, DemoPermits, Burst, RawConfig.Floor, At;
    if c.Floor() == 0 && c.percentCanRetry == 0.0 {
      forall stamps, now
        ensures Alike(c, stamps, now)
      {
        NothingToGrant(c, stamps, now);
      }
    } else if c.percentCanRetry > 0.0 {
      SharePart(c);
      assert !Alike(c, Burst([Stamp(At(c, 0.5), DEPOSIT)], At(c, 9.5), c.Floor()), At(c, 10.25));
    } else {
      FloorParts(c);
      assert !Alike(c, Burst([], At(c, 0.5), c.Floor()), At(c, 10.25));
    }
  }
}
