/**
  The Finagle-style retry budget: deposits and withdrawals in two ten-bucket rings, standing
  for the log of every call, whatever the order of the clock readings.
 */
module RetryBudget {
  import opened Options
  import opened RingLog
  import RollingWindow

  datatype RawConfig = Config(ttl: real, minRetriesPerSec: real, percentCanRetry: real) {
    predicate Valid() { ttl > 0.0 && minRetriesPerSec >= 0.0 && percentCanRetry >= 0.0 }
    function Width(): real { ttl / BUCKET_COUNT as real }
    function Floor(): nat requires Valid() { (minRetriesPerSec * ttl).Floor }
    function Ceiling(deposits: nat): int requires Valid() {
      CeilingOf(deposits as real * percentCanRetry) + Floor()
    }
  }

  type Config = c: RawConfig | c.Valid() witness Config(10.0, 10.0, 0.2)

  /** `math.ceil`. */
  function CeilingOf(x: real): (c: int)
    ensures x <= c as real < x + 1.0
  {
    -((-x).Floor)
  }

  lemma CeilingMonotone(c: Config, m: nat, n: nat)
    requires m <= n
    ensures c.Ceiling(m) <= c.Ceiling(n)
  {
    assert m as real * c.percentCanRetry <= n as real * c.percentCanRetry;
  }

  /** One finished call on a budget, with the slot of the clock reading it was made with. */
  datatype Call = Deposit(slot: int) | Grant(slot: int) | Refusal(slot: int)

  function SlotAt(c: Config, at: real): int {
    RollingWindow.SlotOf(at, c.Width())
  }

  function OpOf(call: Call): Op {
    match call
    case Deposit(slot) => Log(slot, false)
    case Grant(slot) => Log(slot, true)
    case Refusal(slot) => Look(slot)
  }

  /** The calls as operations on the two rings: deposits in lane `false`, withdrawals in lane `true`. */
  function Ops(calls: seq<Call>): seq<Op> {
    if calls == [] then [] else Ops(calls[..|calls| - 1]) + [OpOf(calls[|calls| - 1])]
  }

  lemma OpsAppend(calls: seq<Call>, call: Call)
    ensures Ops(calls + [call]) == Ops(calls) + [OpOf(call)]
  {
    assert (calls + [call])[..|calls|] == calls;
  }

  /** Whether a withdrawal in `slot` is permitted after `calls`: fewer live withdrawals than the ceiling. */
  predicate Permits(c: Config, calls: seq<Call>, slot: int) {
    var seen := Ops(calls) + [Look(slot)];
    Live(seen, true) < c.Ceiling(Live(seen, false))
  }

  // ---- the decision in numbers ----

  /** The floor is the whole number of retries in `min_retries_per_sec * ttl`. */
  lemma FloorIs(c: Config)
    ensures c.Floor() as real <= c.minRetriesPerSec * c.ttl < c.Floor() as real + 1.0
  {
  }

  /** A slot is a tenth of ttl. */
  lemma SlotIs(c: Config, at: real)
    ensures SlotAt(c, at) as real * (c.ttl / 10.0) <= at < (SlotAt(c, at) + 1) as real * (c.ttl / 10.0)
  {
    hide RollingWindow.SlotOf;
    RollingWindow.SlotIs(at, c.ttl / 10.0);
  }

  /** The live events of one lane, by position in the calls' history, when `high` is the highest slot read. */
  ghost function LiveIn(calls: seq<Call>, slot: int, lane: bool, high: int): nat {
    |LiveAt(Ops(calls) + [Look(slot)], lane, high - 10)|
  }

  /**
    A withdrawal is permitted if and only if the live withdrawals, less the whole part of
    `min_retries_per_sec * ttl`, are fewer than `percent_can_retry` of the live deposits. Live
    are the events whose effective slot is one of the ten up to the highest read.
   */
  lemma PermitsExactly(c: Config, calls: seq<Call>, slot: int, floor: int)
    requires floor as real <= c.minRetriesPerSec * c.ttl < (floor + 1) as real
    ensures var high := HighSlot(Ops(calls) + [Look(slot)]);
            && high.Some?
            && (Permits(c, calls, slot)
                <==> (LiveIn(calls, slot, true, high.value) - floor) as real
                     < LiveIn(calls, slot, false, high.value) as real * c.percentCanRetry)
  {
    hide Entries, LiveAt, HighSlot, Ops, CountAbove, CeilingOf;
    var seen := Ops(calls) + [Look(slot)];
    Append(Ops(calls), Look(slot));
    var cutoff := HighSlot(seen).value - 10;
    EntriesCountHistory(seen, true, cutoff);
    EntriesCountHistory(seen, false, cutoff);
    FloorIs(c);
    var withdrawn, deposits := LiveIn(calls, slot, true, cutoff + 10), LiveIn(calls, slot, false, cutoff + 10);
    BelowShare(withdrawn, c.Floor(), deposits as real * c.percentCanRetry);
  }

  lemma BelowShare(withdrawn: int, floor: int, share: real)
    ensures withdrawn < CeilingOf(share) + floor <==> (withdrawn - floor) as real < share
  {
  }

  /** A possible life of a budget: every grant was permitted when it was made, and every refusal was not. */
  predicate Lawful(c: Config, calls: seq<Call>) {
    calls != [] ==>
      var before, last := calls[..|calls| - 1], calls[|calls| - 1];
      && Lawful(c, before)
      && (last.Grant? ==> Permits(c, before, last.slot))
      && (last.Refusal? ==> !Permits(c, before, last.slot))
  }

  lemma LawfulAppend(c: Config, calls: seq<Call>, call: Call)
    requires Lawful(c, calls)
    requires call.Grant? ==> Permits(c, calls, call.slot)
    requires call.Refusal? ==> !Permits(c, calls, call.slot)
    ensures Lawful(c, calls + [call])
  {
    assert (calls + [call])[..|calls|] == calls;
  }

  class Budget {
    const config: Config
    const width: real
    const floor: nat
    var slot: Option<int>
    var index: nat
    const bucketDeposits: array<int>
    const bucketWithdrawn: array<int>
    var deposits: int
    var withdrawn: int
    ghost var calls: seq<Call>

    ghost function Repr(): set<object> {
      {this, bucketDeposits, bucketWithdrawn}
    }

    ghost function History(): seq<Op>
      reads this
    {
      Ops(calls)
    }

    ghost predicate Shaped() {
      && bucketDeposits != bucketWithdrawn
      && bucketDeposits.Length == BUCKET_COUNT && bucketWithdrawn.Length == BUCKET_COUNT
      && width == config.Width() && floor == config.Floor()
    }

    /** The rings agree with `ops`: the totals are the bucket sums, and both are the live counts. */
    ghost predicate Agrees(ops: seq<Op>)
      reads this, bucketDeposits, bucketWithdrawn
    {
      && Shaped() && slot == HighSlot(ops)
      && (slot.None? ==> AllZero(bucketDeposits[..]) && AllZero(bucketWithdrawn[..]) && deposits == withdrawn == 0)
      && (slot.Some? ==> index == slot.value % BUCKET_COUNT
                         && Ring(bucketDeposits[..], bucketWithdrawn[..], Entries(ops), slot.value, deposits, withdrawn))
    }

    ghost predicate Valid()
      reads this, bucketDeposits, bucketWithdrawn
    {
      Agrees(History()) && Lawful(config, calls)
    }

    constructor (config: Config)
      ensures Valid() && fresh(Repr()) && this.config == config && calls == []
    {
      this.config := config;
      width := config.ttl / BUCKET_COUNT as real;
      floor := (config.minRetriesPerSec * config.ttl).Floor;
      slot := None;
      index := 0;
      bucketDeposits := new int[BUCKET_COUNT](_ => 0);
      bucketWithdrawn := new int[BUCKET_COUNT](_ => 0);
      deposits := 0;
      withdrawn := 0;
      calls := [];
    }

    /** Makes `current` the current bucket. At most nine buckets are visited one by one. */
    method Rotate(current: int) returns (ghost visited: nat)
      requires Agrees(History()) && (slot.Some? ==> current > slot.value)
      modifies Repr()
      ensures calls == old(calls)
      ensures Agrees(History() + [Look(current)])
      ensures visited < BUCKET_COUNT
    {
      hide Ring, Entries, HighSlot;
      visited := 0;
      ghost var log := Entries(History());
      Append(History(), Look(current));
      EntriesBelowHigh(History());
      if slot.None? || current - slot.value >= BUCKET_COUNT {
        Zero();
        RingRestarts(bucketDeposits[..], bucketWithdrawn[..], log, slot, current);
      } else {
        var stale := slot.value + 1;
        while stale <= current
          invariant slot == old(slot) && calls == old(calls)
          invariant slot.Some? && slot.value < stale <= current + 1
          invariant visited == stale - slot.value - 1
          invariant Ring(bucketDeposits[..], bucketWithdrawn[..], log, stale - 1, deposits, withdrawn)
        {
          var i := stale % BUCKET_COUNT;
          RingRotates(bucketDeposits[..], bucketWithdrawn[..], log, stale - 1, deposits, withdrawn);
          Drop(i);
          stale := stale + 1;
          visited := visited + 1;
        }
      }
      slot := Some(current);
      index := current % BUCKET_COUNT;
    }

    /** Empties every bucket; the library binds two new lists of zeros instead. */
    method Zero()
      requires Shaped()
      modifies this`deposits, this`withdrawn, bucketDeposits, bucketWithdrawn
      ensures AllZero(bucketDeposits[..]) && AllZero(bucketWithdrawn[..]) && deposits == withdrawn == 0
    {
      forall i | 0 <= i < BUCKET_COUNT {
        bucketDeposits[i] := 0;
      }
      forall i | 0 <= i < BUCKET_COUNT {
        bucketWithdrawn[i] := 0;
      }
      deposits := 0;
      withdrawn := 0;
    }

    method Drop(i: nat)
      requires Shaped() && i < BUCKET_COUNT
      modifies this`deposits, this`withdrawn, bucketDeposits, bucketWithdrawn
      ensures bucketDeposits[..] == old(bucketDeposits[..])[i := 0]
      ensures bucketWithdrawn[..] == old(bucketWithdrawn[..])[i := 0]
      ensures deposits == old(deposits - bucketDeposits[i]) && withdrawn == old(withdrawn - bucketWithdrawn[i])
    {
      deposits := deposits - bucketDeposits[i];
      withdrawn := withdrawn - bucketWithdrawn[i];
      bucketDeposits[i] := 0;
      bucketWithdrawn[i] := 0;
    }

    method LookAt(current: int)
      requires Valid()
      modifies Repr()
      ensures calls == old(calls)
      ensures Agrees(History() + [Look(current)])
    {
      Append(History(), Look(current));
      if slot.None? || current > slot.value {
        var _ := Rotate(current);
      }
    }

    /** One more deposit (lane `false`) or withdrawal (lane `true`) in the current bucket. */
    method File(lane: bool, ghost ops: seq<Op>, ghost at: int)
      requires Agrees(ops + [Look(at)])
      modifies this`deposits, this`withdrawn, bucketDeposits, bucketWithdrawn
      ensures Agrees(ops + [Log(at, lane)])
    {
      hide Ring, Entries, HighSlot;
      Append(ops, Look(at));
      Append(ops, Log(at, lane));
      RingFiles(bucketDeposits[..], bucketWithdrawn[..], Entries(ops), slot.value, deposits, withdrawn, lane);
      Count(lane);
    }

    method Count(lane: bool)
      requires Shaped() && index < BUCKET_COUNT
      modifies this`deposits, this`withdrawn, bucketDeposits, bucketWithdrawn
      ensures bucketDeposits[..]
           == if lane then old(bucketDeposits[..]) else old(bucketDeposits[..])[index := old(bucketDeposits[index]) + 1]
      ensures bucketWithdrawn[..]
           == if lane then old(bucketWithdrawn[..])[index := old(bucketWithdrawn[index]) + 1] else old(bucketWithdrawn[..])
      ensures deposits == old(deposits) + (if lane then 0 else 1) && withdrawn == old(withdrawn) + if lane then 1 else 0
    {
      if lane {
        bucketWithdrawn[index] := bucketWithdrawn[index] + 1;
        withdrawn := withdrawn + 1;
      } else {
        bucketDeposits[index] := bucketDeposits[index] + 1;
        deposits := deposits + 1;
      }
    }

    /** The clock is read before the lock is taken, so `now` may be older than readings already used. */
    method DepositOne(now: real)
      requires Valid()
      modifies Repr()
      ensures Valid() && calls == old(calls) + [Deposit(SlotAt(config, now))]
    {
      DepositIn(RollingWindow.SlotOf(now, width));
    }

    /** The locked part of a deposit. */
    method DepositIn(current: int)
      requires Valid()
      modifies Repr()
      ensures Valid() && calls == old(calls) + [Deposit(current)]
    {
      LookAt(current);
      File(false, History(), current);
      OpsAppend(calls, Deposit(current));
      LawfulAppend(config, calls, Deposit(current));
      calls := calls + [Deposit(current)];
    }

    /** The totals are the live counts. */
    lemma TotalsLive(current: int)
      requires Agrees(History() + [Look(current)])
      ensures var seen := History() + [Look(current)];
              deposits == Live(seen, false) && withdrawn == Live(seen, true)
    {
      hide Holds, Sum, Entries, HighSlot, CountAbove;
      Append(History(), Look(current));
    }

    method Ceiling() returns (ceiling: int)
      requires Shaped() && deposits >= 0
      ensures ceiling == config.Ceiling(deposits)
    {
      hide CeilingOf;
      ceiling := CeilingOf(deposits as real * config.percentCanRetry) + floor;
    }

    /** The comparison of totals decides what the log decides. */
    method Exhausted(ghost current: int) returns (exhausted: bool)
      requires Agrees(History() + [Look(current)])
      ensures exhausted == !Permits(config, calls, current)
    {
      hide Ring, Live, RawConfig.Ceiling;
      TotalsLive(current);
      var ceiling := Ceiling();
      exhausted := withdrawn >= ceiling;
    }

    method TryWithdraw(now: real) returns (granted: bool)
      requires Valid()
      modifies Repr()
      ensures Valid()
      ensures granted == Permits(config, old(calls), SlotAt(config, now))
      ensures calls == old(calls) + [if granted then Grant(SlotAt(config, now)) else Refusal(SlotAt(config, now))]
    {
      granted := WithdrawIn(RollingWindow.SlotOf(now, width));
    }

    /** The locked part of a withdrawal. */
    method WithdrawIn(current: int) returns (granted: bool)
      requires Valid()
      modifies Repr()
      ensures Valid()
      ensures granted == Permits(config, old(calls), current)
      ensures calls == old(calls) + [if granted then Grant(current) else Refusal(current)]
    {
      hide Ring, Entries, HighSlot, Permits, Lawful;
      LookAt(current);
      var exhausted := Exhausted(current);
      ghost var call := if exhausted then Refusal(current) else Grant(current);
      OpsAppend(calls, call);
      LawfulAppend(config, calls, call);
      if exhausted {
        calls := calls + [Refusal(current)];
        return false;
      }
      File(true, History(), current);
      calls := calls + [Grant(current)];
      return true;
    }
  }
}
