/**
  The budget that keeps every timestamp, as the interactive demo runs it, and how closely
  the ten-bucket budget follows it when the clock does not run backwards.
 */
module TimestampBudget {
  import opened Options
  import opened RingLog
  import opened RetryBudget
  import RollingWindow

  datatype Kind = DEPOSIT | GRANT | REFUSAL

  /** A budget call with its full clock reading. */
  datatype Stamp = Stamp(at: real, kind: Kind)

  function CallOf(c: Config, s: Stamp): Call {
    var slot := SlotAt(c, s.at);
    match s.kind
    case DEPOSIT => Deposit(slot)
    case GRANT => Grant(slot)
    case REFUSAL => Refusal(slot)
  }

  function Calls(c: Config, stamps: seq<Stamp>): seq<Call> {
    if stamps == [] then [] else Calls(c, stamps[..|stamps| - 1]) + [CallOf(c, stamps[|stamps| - 1])]
  }

  predicate InOrder(stamps: seq<Stamp>, now: real) {
    forall i :: 0 <= i < |stamps| ==> stamps[i].at <= now && forall j :: i < j < |stamps| ==> stamps[i].at <= stamps[j].at
  }

  /** The stamps of one kind at or after `cut`. */
  function CountSince(stamps: seq<Stamp>, kind: Kind, cut: real): nat {
    if stamps == [] then 0 else
      var last := stamps[|stamps| - 1];
      CountSince(stamps[..|stamps| - 1], kind, cut) + if last.kind == kind && last.at >= cut then 1 else 0
  }

  /** Those strictly after it. */
  function CountAfter(stamps: seq<Stamp>, kind: Kind, cut: real): nat {
    if stamps == [] then 0 else
      var last := stamps[|stamps| - 1];
      CountAfter(stamps[..|stamps| - 1], kind, cut) + if last.kind == kind && last.at > cut then 1 else 0
  }

  /** A withdrawal decided on counts. */
  predicate PermitsOn(c: Config, deposits: nat, withdrawals: nat) {
    withdrawals < c.Ceiling(deposits)
  }

  /** An event of age at most nine buckets is in one of the last ten slots; one of age ten buckets is not. */
  lemma SlotsByAge(width: real, at: real, now: real)
    requires width > 0.0
    ensures at <= now ==> RollingWindow.SlotOf(at, width) <= RollingWindow.SlotOf(now, width)
    ensures at >= now - 9.0 * width ==> RollingWindow.SlotOf(at, width) > RollingWindow.SlotOf(now, width) - BUCKET_COUNT
    ensures at <= now - 10.0 * width ==> RollingWindow.SlotOf(at, width) <= RollingWindow.SlotOf(now, width) - BUCKET_COUNT
  {
    SlotsByQuotient(at / width, now / width, width, at, now);
  }

  lemma SlotsByQuotient(x: real, y: real, width: real, at: real, now: real)
    requires width > 0.0 && x * width == at && y * width == now
    ensures at <= now ==> x.Floor <= y.Floor
    ensures at >= now - 9.0 * width ==> x.Floor > y.Floor - 10
    ensures at <= now - 10.0 * width ==> x.Floor <= y.Floor - 10
  {
    FloorsByProduct(x, 0, y, width, at, now, 0.0);
    FloorsByProduct(y, -9, x, width, now, at, -(9.0 * width));
    FloorsByProduct(x, 10, y, width, at, now, 10.0 * width);
  }

  lemma FloorsByProduct(x: real, k: int, y: real, width: real, at: real, now: real, shift: real)
    requires width > 0.0 && x * width == at && y * width == now && shift == k as real * width
    ensures at + shift <= now ==> x.Floor + k <= y.Floor
  {
    if y - k as real < x {
      Scale(y, -(k as real), x, width);
    } else {
      FloorShift(x, k, y);
    }
  }

  lemma FloorShift(x: real, k: int, y: real)
    requires x + k as real <= y
    ensures x.Floor + k <= y.Floor
  {
    assert (x.Floor + k) as real <= y;
  }

  lemma Scale(x: real, k: real, y: real, width: real)
    requires width > 0.0 && x + k < y
    ensures x * width + k * width < y * width
  {
    var d := y - x - k;
    assert d * width > 0.0;
    assert d * width == y * width - x * width - k * width;
  }

  /** The same, for a budget: nine buckets are 0.9 ttl and ten are ttl. */
  lemma SlotsByTtl(c: Config, at: real, now: real)
    ensures at <= now ==> SlotAt(c, at) <= SlotAt(c, now)
    ensures at >= now - 0.9 * c.ttl ==> SlotAt(c, at) > SlotAt(c, now) - BUCKET_COUNT
    ensures at <= now - c.ttl ==> SlotAt(c, at) <= SlotAt(c, now) - BUCKET_COUNT
  {
    assert 9.0 * c.Width() == 0.9 * c.ttl && 10.0 * c.Width() == c.ttl;
    SlotsByAge(c.Width(), at, now);
  }

  function LaneKind(lane: bool): Kind {
    if lane then GRANT else DEPOSIT
  }

  /** With the clock running forward no event is filed late: the log's high slot is the last stamp's own. */
  lemma {:induction false} FiledInTime(c: Config, stamps: seq<Stamp>, now: real)
    requires InOrder(stamps, now)
    ensures var high := HighSlot(Ops(Calls(c, stamps))); high.Some? ==> high.value <= SlotAt(c, now)
  {
    if stamps == [] {
    } else {
      var before, last := stamps[..|stamps| - 1], stamps[|stamps| - 1];
      FiledInTime(c, before, last.at);
      OpsAppend(Calls(c, before), CallOf(c, last));
      Append(Ops(Calls(c, before)), OpOf(CallOf(c, last)));
      SlotsByTtl(c, last.at, now);
      hide RetryBudget.SlotAt;
    }
  }

  /** The buckets count every event of age at most 0.9 ttl and none of age ttl or more. */
  lemma {:induction false} BucketsByAge(c: Config, stamps: seq<Stamp>, now: real, lane: bool)
    requires InOrder(stamps, now)
    ensures var live := CountAbove(Entries(Ops(Calls(c, stamps))), lane, SlotAt(c, now) - BUCKET_COUNT);
            CountSince(stamps, LaneKind(lane), now - 0.9 * c.ttl) <= live <= CountAfter(stamps, LaneKind(lane), now - c.ttl)
  {
    if stamps == [] {
    } else {
      var before, last := stamps[..|stamps| - 1], stamps[|stamps| - 1];
      assert before + [last] == stamps;
      BucketsByAge(c, before, now, lane);
      FiledInTime(c, before, last.at);
      SlotsByTtl(c, last.at, now);
      FiledOne(c, before, last, lane, SlotAt(c, now) - BUCKET_COUNT);
      hide RetryBudget.SlotAt, Entries, Ops, Calls, CountAbove;
    }
  }

  lemma CallsAppend(c: Config, stamps: seq<Stamp>, stamp: Stamp)
    ensures Calls(c, stamps + [stamp]) == Calls(c, stamps) + [CallOf(c, stamp)]
  {
    assert (stamps + [stamp])[..|stamps|] == stamps;
  }

  lemma FiledOne(c: Config, before: seq<Stamp>, last: Stamp, lane: bool, cutoff: int)
    requires var high := HighSlot(Ops(Calls(c, before))); high.Some? ==> high.value <= SlotAt(c, last.at)
    ensures CountAbove(Entries(Ops(Calls(c, before + [last]))), lane, cutoff)
         == CountAbove(Entries(Ops(Calls(c, before))), lane, cutoff)
            + if last.kind == LaneKind(lane) && SlotAt(c, last.at) > cutoff then 1 else 0
  {
    CallsAppend(c, before, last);
    hide RetryBudget.SlotAt, CountAbove, Calls, Ops, Entries, HighSlot;
    var ops, op := Ops(Calls(c, before)), OpOf(CallOf(c, last));
    OpsAppend(Calls(c, before), CallOf(c, last));
    Append(ops, op);
    if op.Log? {
      assert Raise(HighSlot(ops), op.slot) == Some(op.slot);
      CountAppend(Entries(ops), Entry(op.slot, op.lane), lane, cutoff);
    }
  }

  /**
    The ten-bucket budget must grant where a budget that keeps every timestamp grants with
    deposits counted up to an age of 0.9 ttl and withdrawals below an age of ttl, and must
    refuse where it refuses the other way round.
   */
  lemma Sandwiched(c: Config, stamps: seq<Stamp>, now: real)
    requires InOrder(stamps, now)
    ensures PermitsOn(c, CountSince(stamps, DEPOSIT, now - 0.9 * c.ttl), CountAfter(stamps, GRANT, now - c.ttl))
            ==> Permits(c, Calls(c, stamps), SlotAt(c, now))
    ensures !PermitsOn(c, CountAfter(stamps, DEPOSIT, now - c.ttl), CountSince(stamps, GRANT, now - 0.9 * c.ttl))
            ==> !Permits(c, Calls(c, stamps), SlotAt(c, now))
  {
    hide RetryBudget.SlotAt, CountAbove, CountSince, CountAfter, Entries, Ops, Calls;
    var ops := Ops(Calls(c, stamps));
    BucketsByAge(c, stamps, now, false);
    BucketsByAge(c, stamps, now, true);
    Append(ops, Look(SlotAt(c, now)));
    FiledInTime(c, stamps, now);
    var live := CountAbove(Entries(ops), false, SlotAt(c, now) - BUCKET_COUNT);
    CeilingMonotone(c, CountSince(stamps, DEPOSIT, now - 0.9 * c.ttl), live);
    CeilingMonotone(c, live, CountAfter(stamps, DEPOSIT, now - c.ttl));
  }

  // ---- the demo's budget ----

  /** What a purge keeps. */
  function Since(times: seq<real>, cut: real): seq<real> {
    if times == [] then [] else Since(times[..|times| - 1], cut) + if times[|times| - 1] >= cut then [times[|times| - 1]] else []
  }

  function Later(cut: Option<real>, at: real): real {
    if cut.Some? && cut.value > at then cut.value else at
  }

  /** A stamp of this kind is kept unless some call after it, or `cut`, is more than ttl later: clocks may run backwards. */
  function KeptTimes(c: Config, stamps: seq<Stamp>, kind: Kind, cut: Option<real>): seq<real> {
    if stamps == [] then []
    else
      var last := stamps[|stamps| - 1];
      KeptTimes(c, stamps[..|stamps| - 1], kind, Some(Later(cut, last.at - c.ttl)))
      + if last.kind == kind && (cut.None? || last.at >= cut.value) then [last.at] else []
  }

  lemma SinceAppend(times: seq<real>, more: seq<real>, cut: real)
    requires |more| <= 1
    ensures Since(times + more, cut) == Since(times, cut) + if more != [] && more[0] >= cut then more else []
  {
    if more == [] {
      assert times + more == times;
    } else {
      assert (times + more)[..|times|] == times;
    }
  }

  lemma SinceNone(cut: real)
    ensures Since([], cut) == []
  {
  }

  /** Purging the kept times keeps those that survive one more cut. */
  lemma {:induction false} SinceKept(c: Config, stamps: seq<Stamp>, kind: Kind, cut: Option<real>, next: real)
    ensures Since(KeptTimes(c, stamps, kind, cut), next) == KeptTimes(c, stamps, kind, Some(Later(cut, next)))
  {
    hide Since;
    if stamps == [] {
      SinceNone(next);
    } else {
      var before, last := stamps[..|stamps| - 1], stamps[|stamps| - 1];
      var inner := Some(Later(cut, last.at - c.ttl));
      SinceKept(c, before, kind, inner, next);
      SinceAppend(KeptTimes(c, before, kind, inner), if last.kind == kind && (cut.None? || last.at >= cut.value)
          then [last.at] else [], next);
      assert Later(inner, next) == Later(Some(Later(cut, next)), last.at - c.ttl);
    }
  }

  /** With the clock running forward the kept ones are the stamps of the last ttl. */
  lemma {:induction false} KeptInOrder(c: Config, stamps: seq<Stamp>, kind: Kind, now: real)
    requires InOrder(stamps, now)
    ensures |KeptTimes(c, stamps, kind, Some(now - c.ttl))| == CountSince(stamps, kind, now - c.ttl)
  {
    if stamps != [] {
      var before, last := stamps[..|stamps| - 1], stamps[|stamps| - 1];
      assert Later(Some(now - c.ttl), last.at - c.ttl) == now - c.ttl;
      KeptInOrder(c, before, kind, now);
    }
  }

  class DemoBudget {
    const config: Config
    var deposits: seq<real>
    var withdrawn: seq<real>
    ghost var stamps: seq<Stamp>

    /** The lists hold what the purges so far, and one at `cut`, leave of everything that was ever recorded. */
    ghost predicate Holds(cut: Option<real>)
      reads this
    {
      && deposits == KeptTimes(config, stamps, DEPOSIT, cut)
      && withdrawn == KeptTimes(config, stamps, GRANT, cut)
    }

    ghost predicate Valid()
      reads this
    {
      Holds(None)
    }

    constructor (config: Config)
      ensures Valid() && this.config == config && stamps == []
    {
      this.config := config;
      deposits, withdrawn, stamps := [], [], [];
    }

    method Purge(now: real)
      requires Valid()
      modifies this`deposits, this`withdrawn
      ensures Holds(Some(now - config.ttl))
    {
      hide Since, KeptTimes;
      SinceKept(config, stamps, DEPOSIT, None, now - config.ttl);
      SinceKept(config, stamps, GRANT, None, now - config.ttl);
      deposits := Since(deposits, now - config.ttl);
      withdrawn := Since(withdrawn, now - config.ttl);
    }

    method DepositAt(now: real)
      requires Valid()
      modifies this
      ensures Valid() && stamps == old(stamps) + [Stamp(now, DEPOSIT)]
    {
      hide Since, KeptTimes;
      Purge(now);
      Extend(now, DEPOSIT);
      deposits := deposits + [now];
    }

    method FloorOf() returns (floor: int)
      ensures floor == config.Floor()
    {
      floor := (config.minRetriesPerSec * config.ttl).Floor;
    }

    /** The lengths of the two lists decide. */
    method Exhausted() returns (exhausted: bool)
      ensures exhausted == !PermitsOn(config, |deposits|, |withdrawn|)
    {
      hide CeilingOf;
      var floor := FloorOf();
      var ceiling := CeilingOf(|deposits| as real * config.percentCanRetry) + floor;
      exhausted := |withdrawn| >= ceiling;
    }

    method TryWithdraw(now: real) returns (granted: bool)
      requires Valid()
      modifies this
      ensures Valid()
      ensures var cut := Some(now - config.ttl);
              granted == PermitsOn(config, |KeptTimes(config, old(stamps), DEPOSIT, cut)|,
                  |KeptTimes(config, old(stamps), GRANT, cut)|)
      ensures stamps == old(stamps) + [Stamp(now, if granted then GRANT else REFUSAL)]
    {
      hide Since, KeptTimes, PermitsOn;
      Purge(now);
      var exhausted := Exhausted();
      if exhausted {
        Extend(now, REFUSAL);
        return false;
      }
      Extend(now, GRANT);
      withdrawn := withdrawn + [now];
      return true;
    }

    ghost method Extend(now: real, kind: Kind)
      requires Holds(Some(now - config.ttl))
      modifies this`stamps
      ensures stamps == old(stamps) + [Stamp(now, kind)]
      ensures deposits + (if kind == DEPOSIT then [now] else []) == KeptTimes(config, stamps, DEPOSIT, None)
      ensures withdrawn + (if kind == GRANT then [now] else []) == KeptTimes(config, stamps, GRANT, None)
    {
      stamps := stamps + [Stamp(now, kind)];
      assert stamps[..|stamps| - 1] == old(stamps);
    }
  }

  /** Fed the same calls with the clock running forward, the demo decides as the timestamp budget whose ages are both ttl. */
  lemma DemoInOrder(c: Config, stamps: seq<Stamp>, now: real)
    requires InOrder(stamps, now)
    ensures var cut := Some(now - c.ttl);
            PermitsOn(c, |KeptTimes(c, stamps, DEPOSIT, cut)|, |KeptTimes(c, stamps, GRANT, cut)|)
            <==> PermitsOn(c, CountSince(stamps, DEPOSIT, now - c.ttl), CountSince(stamps, GRANT, now - c.ttl))
  {
    KeptInOrder(c, stamps, DEPOSIT, now);
    KeptInOrder(c, stamps, GRANT, now);
  }
}
