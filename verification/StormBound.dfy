/**
  How many retries a budget can ever grant. The withdrawal count may exceed the ceiling
  between calls, because deposits can expire first; the bound holds at each grant, and
  counting grants by aligned ten-slot blocks turns it into a bound over a whole run.
 */
module StormBound {
  import opened Options
  import opened RingLog
  import opened RetryBudget

  function Deposits(calls: seq<Call>): nat {
    if calls == [] then 0 else Deposits(calls[..|calls| - 1]) + if calls[|calls| - 1].Deposit? then 1 else 0
  }

  function Grants(calls: seq<Call>): nat {
    if calls == [] then 0 else Grants(calls[..|calls| - 1]) + if calls[|calls| - 1].Grant? then 1 else 0
  }

  /** The aligned block of ten slots that `slot` belongs to. */
  function Block(slot: int): int {
    slot / BUCKET_COUNT
  }

  function CountIn(log: seq<Entry>, lane: bool, blocks: set<int>): nat {
    if log == [] then 0 else
      var last := log[|log| - 1];
      CountIn(log[..|log| - 1], lane, blocks) + if last.lane == lane && Block(last.slot) in blocks then 1 else 0
  }

  /** The blocks in which some grant falls, by effective slot. */
  function GrantBlocks(log: seq<Entry>): set<int> {
    if log == [] then {} else
      var last := log[|log| - 1];
      GrantBlocks(log[..|log| - 1]) + if last.lane then {Block(last.slot)} else {}
  }

  function BlocksWithGrants(calls: seq<Call>): nat {
    |GrantBlocks(Entries(Ops(calls)))|
  }

  /** The filed log of a lawful life: in slot order, and under the ceiling at each withdrawal. */
  predicate LawfulLog(c: Config, log: seq<Entry>) {
    log != [] ==>
      var before, last := log[..|log| - 1], log[|log| - 1];
      && LawfulLog(c, before)
      && (forall i :: 0 <= i < |before| ==> before[i].slot <= last.slot)
      && (last.lane ==> CountAbove(before, true, last.slot - BUCKET_COUNT)
                        < c.Ceiling(CountAbove(before, false, last.slot - BUCKET_COUNT)))
  }

  lemma {:induction false} LifeIsLawfulLog(c: Config, calls: seq<Call>)
    requires Lawful(c, calls)
    ensures LawfulLog(c, Entries(Ops(calls)))
  {
    if calls == [] {
    } else {
      var before, last := calls[..|calls| - 1], calls[|calls| - 1];
      LifeIsLawfulLog(c, before);
      var ops, op := Ops(before), OpOf(last);
      Append(ops, op);
      EntriesBelowHigh(ops);
      if op.Log? {
        var e := Entry(Raise(HighSlot(ops), op.slot).value, op.lane);
        if op.lane {
          Append(ops, Look(op.slot));
        }
        LawfulLogAppend(c, Entries(ops), e);
      }
    }
  }

  lemma LawfulLogAppend(c: Config, log: seq<Entry>, e: Entry)
    requires LawfulLog(c, log) && forall i :: 0 <= i < |log| ==> log[i].slot <= e.slot
    requires e.lane ==> CountAbove(log, true, e.slot - BUCKET_COUNT) < c.Ceiling(CountAbove(log, false, e.slot - BUCKET_COUNT))
    ensures LawfulLog(c, log + [e])
  {
    assert (log + [e])[..|log|] == log;
  }

  /** The filed log holds every grant of the life, in its grant blocks. */
  lemma {:induction false} LifeCountsGrants(calls: seq<Call>)
    ensures var log := Entries(Ops(calls)); Grants(calls) == CountIn(log, true, GrantBlocks(log))
  {
    if calls == [] {
    } else {
      var before, last := calls[..|calls| - 1], calls[|calls| - 1];
      LifeCountsGrants(before);
      var ops, op := Ops(before), OpOf(last);
      Append(ops, op);
      if op.Log? {
        OneMoreEntry(Entries(ops), Entry(Raise(HighSlot(ops), op.slot).value, op.lane));
      }
    }
  }

  lemma OneMoreEntry(log: seq<Entry>, e: Entry)
    ensures CountIn(log + [e], true, GrantBlocks(log + [e])) == CountIn(log, true, GrantBlocks(log)) + if e.lane then 1 else 0
  {
    var own := if e.lane then {Block(e.slot)} else {};
    CountInAppend(log, e, true, GrantBlocks(log + [e]));
    GrantsAllCounted(log, own);
  }

  /** The filed log holds no more deposits than were made. */
  lemma {:induction false} LifeCountsDeposits(calls: seq<Call>, blocks: set<int>)
    ensures CountIn(Entries(Ops(calls)), false, blocks) <= Deposits(calls)
  {
    if calls == [] {
    } else {
      var before, last := calls[..|calls| - 1], calls[|calls| - 1];
      LifeCountsDeposits(before, blocks);
      var ops, op := Ops(before), OpOf(last);
      Append(ops, op);
      if op.Log? {
        CountInAppend(Entries(ops), Entry(Raise(HighSlot(ops), op.slot).value, op.lane), false, blocks);
      }
    }
  }

  lemma CountInAppend(log: seq<Entry>, e: Entry, lane: bool, blocks: set<int>)
    ensures CountIn(log + [e], lane, blocks)
         == CountIn(log, lane, blocks) + if e.lane == lane && Block(e.slot) in blocks then 1 else 0
    ensures GrantBlocks(log + [e]) == GrantBlocks(log) + if e.lane then {Block(e.slot)} else {}
  {
    assert (log + [e])[..|log|] == log;
  }

  /** A wider set of blocks counts no grant twice and misses none. */
  lemma {:induction false} GrantsAllCounted(log: seq<Entry>, extra: set<int>)
    ensures CountIn(log, true, GrantBlocks(log) + extra) == CountIn(log, true, GrantBlocks(log))
  {
    if log == [] {
    } else {
      var before, last := log[..|log| - 1], log[|log| - 1];
      var own := if last.lane then {Block(last.slot)} else {};
      assert GrantBlocks(log) + extra == GrantBlocks(before) + (own + extra);
      GrantsAllCounted(before, own + extra);
      GrantsAllCounted(before, own);
    }
  }

  lemma {:induction false} CountInSplits(log: seq<Entry>, lane: bool, blocks: set<int>, b: int)
    requires b !in blocks
    ensures CountIn(log, lane, blocks + {b}) == CountIn(log, lane, blocks) + CountIn(log, lane, {b})
  {
    if log != [] {
      CountInSplits(log[..|log| - 1], lane, blocks, b);
    }
  }

  /** What is in block `b` is live at any slot of block `b`; what is live there is in `b` or the block before. */
  lemma {:induction false} LiveMeetsBlocks(log: seq<Entry>, slot: int)
    requires forall i :: 0 <= i < |log| ==> log[i].slot <= slot
    ensures var b := Block(slot);
            && CountIn(log, true, {b}) <= CountAbove(log, true, slot - BUCKET_COUNT)
            && CountAbove(log, false, slot - BUCKET_COUNT) <= CountIn(log, false, {b}) + CountIn(log, false, {b - 1})
  {
    if log != [] {
      LiveMeetsBlocks(log[..|log| - 1], slot);
    }
  }

  /** What `n` deposits add to the ceiling, before rounding up. */
  function Share(c: Config, n: nat): (r: real)
  {
    c.percentCanRetry * n as real
  }

  lemma ShareMonotone(c: Config, m: nat, n: nat)
    requires m <= n
    ensures Share(c, m) <= Share(c, n)
  {
  }

  lemma ShareAdds(c: Config, m: nat, n: nat)
    ensures Share(c, m + n) == Share(c, m) + Share(c, n)
  {
  }

  lemma CeilingShare(c: Config, withdrawn: nat, deposits: nat)
    requires withdrawn < c.Ceiling(deposits)
    ensures (withdrawn + 1) as real <= (c.Floor() + 1) as real + Share(c, deposits)
  {
    assert deposits as real * c.percentCanRetry == Share(c, deposits);
  }

  /** Within one block, the last grant was under the ceiling with every other grant of the block still live. */
  lemma {:induction false} BlockBound(c: Config, log: seq<Entry>, b: int)
    requires LawfulLog(c, log)
    ensures CountIn(log, true, {b}) > 0 ==>
              CountIn(log, true, {b}) as real
              <= (c.Floor() + 1) as real + Share(c, CountIn(log, false, {b}) + CountIn(log, false, {b - 1}))
  {
    if log == [] {
    } else {
      var before, last := log[..|log| - 1], log[|log| - 1];
      var near := CountIn(before, false, {b}) + CountIn(before, false, {b - 1});
      var near' := CountIn(log, false, {b}) + CountIn(log, false, {b - 1});
      assert near <= near';
      if last.lane && Block(last.slot) == b {
        LiveMeetsBlocks(before, last.slot);
        var withdrawn, live := CountAbove(before, true, last.slot - BUCKET_COUNT),
            CountAbove(before, false, last.slot - BUCKET_COUNT);
        CeilingShare(c, withdrawn, live);
        ShareMonotone(c, live, near);
        assert near' == near;
      } else {
        BlockBound(c, before, b);
        ShareMonotone(c, near, near');
      }
    }
  }

  /** The entries of one lane in the slots above `low` and up to `high`. */
  function CountBetween(log: seq<Entry>, lane: bool, low: int, high: int): nat {
    if log == [] then 0 else
      var last := log[|log| - 1];
      CountBetween(log[..|log| - 1], lane, low, high) + if last.lane == lane && low < last.slot <= high then 1 else 0
  }

  /** From slot `slot`, among any ten slots it ends or is inside, live withdrawals miss none and live deposits reach nine back. */
  lemma {:induction false} LiveMeetsWindow(log: seq<Entry>, slot: int, low: int)
    requires low < slot <= low + BUCKET_COUNT && forall i :: 0 <= i < |log| ==> log[i].slot <= slot
    ensures CountBetween(log, true, low, low + BUCKET_COUNT) <= CountAbove(log, true, slot - BUCKET_COUNT)
    ensures CountAbove(log, false, slot - BUCKET_COUNT) <= CountBetween(log, false, low - 9, low + BUCKET_COUNT)
  {
    if log != [] {
      LiveMeetsWindow(log[..|log| - 1], slot, low);
    }
  }

  /** In any ten slots in a row: at most floor + 1 grants, and the share of the deposits in them and the nine slots before. */
  lemma {:induction false} WindowBound(c: Config, log: seq<Entry>, low: int)
    requires LawfulLog(c, log)
    ensures CountBetween(log, true, low, low + BUCKET_COUNT) as real
            <= (c.Floor() + 1) as real + Share(c, CountBetween(log, false, low - 9, low + BUCKET_COUNT))
  {
    hide CountAbove, Share, RawConfig.Floor, RawConfig.Ceiling;
    if log == [] {
      NoGrants(c);
    } else {
      var before, last := log[..|log| - 1], log[|log| - 1];
      var near, near' := CountBetween(before, false, low - 9, low + BUCKET_COUNT),
          CountBetween(log, false, low - 9, low + BUCKET_COUNT);
      if last.lane && low < last.slot <= low + BUCKET_COUNT {
        LiveMeetsWindow(before, last.slot, low);
        var withdrawn, live := CountAbove(before, true, last.slot - BUCKET_COUNT),
            CountAbove(before, false, last.slot - BUCKET_COUNT);
        CeilingShare(c, withdrawn, live);
        ShareMonotone(c, live, near);
      } else {
        WindowBound(c, before, low);
        ShareMonotone(c, near, near');
      }
    }
  }

  lemma NoGrants(c: Config)
    ensures 0.0 <= (c.Floor() + 1) as real + Share(c, 0)
  {
  }

  /** The same over any life of a budget, by effective slots. */
  lemma RateBounded(c: Config, calls: seq<Call>, low: int)
    requires Lawful(c, calls)
    ensures var log := Entries(Ops(calls));
            CountBetween(log, true, low, low + BUCKET_COUNT) as real
            <= (c.Floor() + 1) as real + Share(c, CountBetween(log, false, low - 9, low + BUCKET_COUNT))
  {
    LifeIsLawfulLog(c, calls);
    WindowBound(c, Entries(Ops(calls)), low);
  }

  function Before(blocks: set<int>): set<int> {
    set b | b in blocks :: b - 1
  }

  /** Summed over any blocks, each deposit is charged at most twice: by its own block and by the next one. */
  lemma {:induction false} BlocksBound(c: Config, log: seq<Entry>, blocks: set<int>)
    requires LawfulLog(c, log)
    requires forall b :: b in blocks ==> CountIn(log, true, {b}) > 0
    ensures CountIn(log, true, blocks) as real
         <= (|blocks| * (c.Floor() + 1)) as real + Share(c, CountIn(log, false, blocks) + CountIn(log, false, Before(blocks)))
    decreases blocks
  {
    hide LawfulLog, CountIn;
    if blocks == {} {
      NothingIn(log, true);
      NothingIn(log, false);
    } else {
      var b := AnyOf(blocks);
      var rest := blocks - {b};
      assert blocks == rest + {b};
      assert Before(blocks) == Before(rest) + {b - 1};
      BlocksBound(c, log, rest);
      BlockBound(c, log, b);
      CountInSplits(log, true, rest, b);
      CountInSplits(log, false, rest, b);
      CountInSplits(log, false, Before(rest), b - 1);
      ShareAdds(c, CountIn(log, false, rest) + CountIn(log, false, Before(rest)), CountIn(log, false, {b})
          + CountIn(log, false, {b - 1}));
      OneMoreBlock(|rest|, c.Floor() + 1);
    }
  }

  lemma AnyOf<T>(s: set<T>) returns (x: T)
    requires s != {}
    ensures x in s
  {
    x :| x in s;
  }

  lemma OneMoreBlock(n: nat, each: nat)
    ensures (n + 1) * each == n * each + each
  {
  }

  lemma {:induction false} NothingIn(log: seq<Entry>, lane: bool)
    ensures CountIn(log, lane, {}) == 0
  {
    if log != [] {
      NothingIn(log[..|log| - 1], lane);
    }
  }

  lemma {:induction false} GrantBlocksHoldGrants(log: seq<Entry>, b: int)
    requires b in GrantBlocks(log)
    ensures CountIn(log, true, {b}) > 0
  {
    var before, last := log[..|log| - 1], log[|log| - 1];
    if !(last.lane && Block(last.slot) == b) {
      GrantBlocksHoldGrants(before, b);
    }
  }

  /** Over any life of a budget, at any clock readings: grants <= B * (floor + 1) + 2 * percent * deposits. */
  lemma GrantsBounded(c: Config, calls: seq<Call>)
    requires Lawful(c, calls)
    ensures Grants(calls) as real
         <= (BlocksWithGrants(calls) * (c.Floor() + 1)) as real + 2.0 * Share(c, Deposits(calls))
  {
    hide Entries, Ops, CountIn, GrantBlocks, Before, Lawful, LawfulLog, Grants, Deposits;
    var log := Entries(Ops(calls));
    LifeIsLawfulLog(c, calls);
    LifeCountsGrants(calls);
    LifeCountsDeposits(calls, GrantBlocks(log));
    LifeCountsDeposits(calls, Before(GrantBlocks(log)));
    forall b | b in GrantBlocks(log) ensures CountIn(log, true, {b}) > 0 {
      GrantBlocksHoldGrants(log, b);
    }
    BlocksBound(c, log, GrantBlocks(log));
    var n := Deposits(calls);
    ShareMonotone(c, CountIn(log, false, GrantBlocks(log)) + CountIn(log, false, Before(GrantBlocks(log))), n + n);
    ShareAdds(c, n, n);
  }

  // ---- when the withdrawals held are under the ceiling ----

  predicate UnderCeiling(c: Config, ops: seq<Op>) {
    Live(ops, true) <= c.Ceiling(Live(ops, false))
  }

  /** Seen from `slot`, after `calls`. */
  predicate HeldUnder(c: Config, calls: seq<Call>, slot: int) {
    UnderCeiling(c, Ops(calls) + [Look(slot)])
  }

  /** Right after a grant they are, whatever was the case before. */
  lemma GrantUnderCeiling(c: Config, calls: seq<Call>, slot: int)
    requires Permits(c, calls, slot)
    ensures UnderCeiling(c, Ops(calls + [Grant(slot)]))
  {
    hide Entries, HighSlot, CountAbove, CeilingOf;
    var ops := Ops(calls);
    OpsAppend(calls, Grant(slot));
    Append(ops, Look(slot));
    Append(ops, Log(slot, true));
    var high := Raise(HighSlot(ops), slot).value;
    CountAppend(Entries(ops), Entry(high, true), true, high - BUCKET_COUNT);
    CountAppend(Entries(ops), Entry(high, true), false, high - BUCKET_COUNT);
  }

  /** Only a call that advances the current slot can end it. */
  lemma OnlyAdvanceBreaks(c: Config, calls: seq<Call>, call: Call)
    requires Lawful(c, calls + [call]) && UnderCeiling(c, Ops(calls))
    requires var high := HighSlot(Ops(calls)); high.Some? && call.slot <= high.value
    ensures UnderCeiling(c, Ops(calls + [call]))
  {
    hide Entries, HighSlot, CountAbove, CeilingOf, RawConfig.Ceiling;
    var ops := Ops(calls);
    assert (calls + [call])[..|calls|] == calls;
    OpsAppend(calls, call);
    Append(ops, OpOf(call));
    if call.Grant? {
      GrantUnderCeiling(c, calls, call.slot);
    } else if call.Deposit? {
      var high := HighSlot(ops).value;
      CountAppend(Entries(ops), Entry(high, false), true, high - BUCKET_COUNT);
      CountAppend(Entries(ops), Entry(high, false), false, high - BUCKET_COUNT);
      CeilingMonotone(c, Live(ops, false), Live(ops, false) + 1);
    }
  }

  lemma {:induction false} FewerAbove(log: seq<Entry>, lane: bool, slot: int, higher: int)
    requires slot <= higher
    ensures CountAbove(log, lane, higher) <= CountAbove(log, lane, slot)
  {
    if log != [] {
      FewerAbove(log[..|log| - 1], lane, slot, higher);
    }
  }

  /** With no share of the deposits the ceiling is the floor, and never passed. */
  lemma {:induction false} FloorHolds(c: Config, calls: seq<Call>, cutoff: int)
    requires c.percentCanRetry == 0.0 && Lawful(c, calls)
    requires var high := HighSlot(Ops(calls)); high.Some? ==> cutoff >= high.value - BUCKET_COUNT
    ensures CountAbove(Entries(Ops(calls)), true, cutoff) <= c.Floor()
  {
    hide Entries, HighSlot, CountAbove, Ops, RawConfig.Ceiling, RawConfig.Floor;
    if calls == [] {
      NoCalls(cutoff);
    } else {
      var before, last := calls[..|calls| - 1], calls[|calls| - 1];
      assert before + [last] == calls;
      OpsAppend(before, last);
      Append(Ops(before), OpOf(last));
      FloorHolds(c, before, cutoff);
      var ops := Ops(before);
      if last.Grant? {
        var high := Raise(HighSlot(ops), last.slot).value;
        Append(ops, Look(last.slot));
        CountAppend(Entries(ops), Entry(high, true), true, cutoff);
        FewerAbove(Entries(ops), true, high - BUCKET_COUNT, cutoff);
        NoShare(c, Live(ops + [Look(last.slot)], false));
      } else if last.Deposit? {
        CountAppend(Entries(ops), Entry(Raise(HighSlot(ops), last.slot).value, false), true, cutoff);
      }
    }
  }

  lemma NoShare(c: Config, n: nat)
    requires c.percentCanRetry == 0.0
    ensures c.Ceiling(n) == c.Floor()
  {
    assert n as real * c.percentCanRetry == 0.0;
  }

  /** One deposit, and `n` withdrawals half a window later. */
  function Spree(n: nat): seq<Call> {
    if n == 0 then [Deposit(0)] else Spree(n - 1) + [Grant(5)]
  }

  lemma {:induction false} SpreeCounts(n: nat, cutoff: int)
    ensures var ops := Ops(Spree(n));
            && HighSlot(ops) == Some(if n == 0 then 0 else 5)
            && CountAbove(Entries(ops), true, cutoff) == (if cutoff < 5 then n else 0)
            && CountAbove(Entries(ops), false, cutoff) == (if cutoff < 0 then 1 else 0)
  {
    hide Entries, HighSlot, CountAbove, Ops;
    if n == 0 {
      NoCalls(cutoff);
      OpsAppend([], Deposit(0));
      assert [] + [Deposit(0)] == [Deposit(0)];
      Append(Ops([]), Log(0, false));
      CountAppend(Entries(Ops([])), Entry(0, false), true, cutoff);
      CountAppend(Entries(Ops([])), Entry(0, false), false, cutoff);
    } else {
      SpreeCounts(n - 1, cutoff);
      var ops := Ops(Spree(n - 1));
      OpsAppend(Spree(n - 1), Grant(5));
      Append(ops, Log(5, true));
      CountAppend(Entries(ops), Entry(5, true), true, cutoff);
      CountAppend(Entries(ops), Entry(5, true), false, cutoff);
    }
  }

  lemma NoCalls(cutoff: int)
    ensures HighSlot(Ops([])).None?
    ensures CountAbove(Entries(Ops([])), true, cutoff) == CountAbove(Entries(Ops([])), false, cutoff) == 0
  {
  }

  lemma OneDeposit(c: Config)
    ensures Lawful(c, [Deposit(0)])
  {
    assert [Deposit(0)][..0] == [];
  }

  lemma {:induction false} SpreeLawful(c: Config, n: nat)
    requires c.percentCanRetry > 0.0 && n <= c.Floor() + 1
    ensures Lawful(c, Spree(n))
  {
    hide Entries, HighSlot, CountAbove, Ops, Lawful;
    if n == 0 {
      OneDeposit(c);
    } else {
      SpreeLawful(c, n - 1);
      SpreeCounts(n - 1, -5);
      Append(Ops(Spree(n - 1)), Look(5));
      assert 1 as real * c.percentCanRetry == c.percentCanRetry;
      LawfulAppend(c, Spree(n - 1), Grant(5));
    }
  }

  /** When the deposit expires before the withdrawals it paid for, they exceed the ceiling. */
  lemma CeilingIsNoInvariant(c: Config)
    requires c.percentCanRetry > 0.0
    ensures var calls := Spree(c.Floor() + 1); Lawful(c, calls) && !HeldUnder(c, calls, 10)
  {
    hide Entries, HighSlot, CountAbove, Ops, Lawful, Spree;
    var calls := Spree(c.Floor() + 1);
    SpreeLawful(c, c.Floor() + 1);
    SpreeCounts(c.Floor() + 1, 0);
    Append(Ops(calls), Look(10));
    assert 0 as real * c.percentCanRetry == 0.0;
  }

  /** The withdrawals held are always under the ceiling if and only if deposits buy none. */
  lemma CeilingIsInvariantExactly(c: Config)
    ensures (forall calls, slot :: Lawful(c, calls) ==> HeldUnder(c, calls, slot)) <==> c.percentCanRetry == 0.0
  {
    hide Lawful, HeldUnder;
    if c.percentCanRetry == 0.0 {
      forall calls, slot | Lawful(c, calls)
        ensures HeldUnder(c, calls, slot)
      {
        FloorHeldUnder(c, calls, slot);
      }
    } else {
      CeilingIsNoInvariant(c);
    }
  }

  lemma FloorHeldUnder(c: Config, calls: seq<Call>, slot: int)
    requires c.percentCanRetry == 0.0 && Lawful(c, calls)
    ensures HeldUnder(c, calls, slot)
  {
    hide Entries, HighSlot, CountAbove, Ops, Lawful;
    Append(Ops(calls), Look(slot));
    var seen := Ops(calls) + [Look(slot)];
    FloorHolds(c, calls, HighSlot(seen).value - BUCKET_COUNT);
    NoShare(c, Live(seen, false));
  }
}
