/**
  The interactive demo's breaker, which has no tickets, beside the library's classic
  breaker: one call at a time they cannot be told apart; with calls overlapping they stay
  together exactly until a straggler does harm.
 */
module DemoBreaker {
  import opened Options
  import opened BreakerCore
  import opened BreakerRuns

  datatype Demo = Demo(state: CircuitState, fails: int, succ: int, openedAt: real, probe: bool)

  const DEMO_START := Demo(CLOSED, 0, 0, 0.0, false)

  function Allow(c: Config, d: Demo, now: real): (Demo, bool) {
    if d.state == OPEN && now - d.openedAt < c.resetTimeout then (d, false)
    else
      var d := if d.state == OPEN then d.(state := HALF_OPEN, probe := false) else d;
      if d.state == HALF_OPEN then (if d.probe then (d, false) else (d.(probe := true), true))
      else (d, true)
  }

  function Land(c: Config, d: Demo, ok: bool, now: real): Demo {
    if d.state == HALF_OPEN then
      if ok then
        if d.succ + 1 >= c.successThreshold then d.(probe := false, state := CLOSED, fails := 0, succ := 0)
        else d.(probe := false, succ := d.succ + 1)
      else d.(probe := false, state := OPEN, openedAt := now, fails := 1, succ := 0)
    else if d.state == OPEN then d
    else if ok then d.(fails := 0)
    else if d.fails + 1 >= c.failureThreshold then d.(fails := d.fails + 1, state := OPEN, openedAt := now)
    else d.(fails := d.fails + 1)
  }

  class DemoObject {
    const config: Config
    var state: CircuitState
    var fails: int
    var succ: int
    var openedAt: real
    var probe: bool

    function Value(): Demo
      reads this
    {
      Demo(state, fails, succ, openedAt, probe)
    }

    constructor (config: Config)
      ensures this.config == config && Value() == DEMO_START
    {
      this.config := config;
      state, fails, succ, openedAt, probe := CLOSED, 0, 0, 0.0, false;
    }

    method AllowAt(now: real) returns (admitted: bool)
      modifies this
      ensures (Value(), admitted) == Allow(config, old(Value()), now)
    {
      if state == OPEN {
        if now - openedAt >= config.resetTimeout {
          state := HALF_OPEN;
          probe := false;
        } else {
          return false;
        }
      }
      if state == HALF_OPEN {
        if probe {
          return false;
        }
        probe := true;
        return true;
      }
      return true;
    }

    method Res(ok: bool, now: real)
      modifies this
      ensures Value() == Land(config, old(Value()), ok, now)
    {
      if state == HALF_OPEN {
        probe := false;
        if ok {
          succ := succ + 1;
          if succ >= config.successThreshold {
            state, fails, succ := CLOSED, 0, 0;
          }
        } else {
          state, openedAt, fails, succ := OPEN, now, 1, 0;
        }
        return;
      }
      if state == OPEN {
        return;
      }
      if ok {
        fails := 0;
      } else {
        fails := fails + 1;
        if fails >= config.failureThreshold {
          state, openedAt := OPEN, now;
        }
      }
    }
  }

  /**
    A call made on its own: asked for at `asked`; if admitted, it finishes at `done`, well
    or badly, before anything else happens.
   */
  datatype Solo = Solo(asked: real, ok: bool, done: real)

  function DemoCall(c: Config, d: Demo, call: Solo): (Demo, bool) {
    var (d', admitted) := Allow(c, d, call.asked);
    if admitted then (Land(c, d', call.ok, call.done), true) else (d', false)
  }

  function LibraryCall(c: Config, s: Core, call: Solo): (Core, bool) {
    var reply := Admit(c, s, call.asked);
    if reply.answer.Admitted? then
      (Record(c, reply.core, reply.answer.ticket, if call.ok then SUCCESS else FAILURE, 0, call.done).core, true)
    else (reply.core, false)
  }

  /** Between calls the two hold the same state. */
  predicate Same(d: Demo, s: Core) {
    && d.state == s.state
    && !d.probe && !s.probeInFlight
    && s.closedTicket == (if s.state == CLOSED then Some(s.epoch) else None)
    && (s.state == CLOSED ==> d.fails == s.failures)
    && (s.state == OPEN ==> d.openedAt == s.openedAt)
    && d.succ == s.successes && (s.state != HALF_OPEN ==> s.successes == 0)
  }

  lemma StaysSame(c: Config, d: Demo, s: Core, call: Solo)
    requires c.rate.None? && Same(d, s)
    ensures DemoCall(c, d, call).1 == LibraryCall(c, s, call).1
    ensures Same(DemoCall(c, d, call).0, LibraryCall(c, s, call).0)
  {
  }

  function DemoRun(c: Config, d: Demo, calls: seq<Solo>): (Demo, seq<bool>) {
    if calls == [] then (d, []) else
      var (before, decisions) := DemoRun(c, d, calls[..|calls| - 1]);
      var (after, admitted) := DemoCall(c, before, calls[|calls| - 1]);
      (after, decisions + [admitted])
  }

  function LibraryRun(c: Config, s: Core, calls: seq<Solo>): (Core, seq<bool>) {
    if calls == [] then (s, []) else
      var (before, decisions) := LibraryRun(c, s, calls[..|calls| - 1]);
      var (after, admitted) := LibraryCall(c, before, calls[|calls| - 1]);
      (after, decisions + [admitted])
  }

  /** Over every sequence of calls made one at a time, both admit the same calls and hold the same state. */
  lemma {:induction false} SequentialRunsAgree(c: Config, calls: seq<Solo>)
    requires c.rate.None?
    ensures DemoRun(c, DEMO_START, calls).1 == LibraryRun(c, FRESH, calls).1
    ensures Same(DemoRun(c, DEMO_START, calls).0, LibraryRun(c, FRESH, calls).0)
  {
    if calls == [] {
    } else {
      var before := calls[..|calls| - 1];
      SequentialRunsAgree(c, before);
      hide DemoCall, LibraryCall, Same;
      StaysSame(c, DemoRun(c, DEMO_START, before).0, LibraryRun(c, FRESH, before).0, calls[|calls| - 1]);
    }
  }

  // ---- calls that overlap ----

  /** At any point, calls outstanding: the two hold the same state. */
  predicate Agree(d: Demo, s: Core) {
    && d.state == s.state && d.probe == s.probeInFlight
    && (s.state == CLOSED ==> d.fails == s.failures)
    && (s.state == OPEN ==> d.openedAt == s.openedAt)
    && d.succ == s.successes
  }

  /** A breaker of each kind, asked by the same calls. Which calls are outstanding is the library's book. */
  datatype Pair = Pair(demo: Demo, library: Sys)

  /** A call asks to be let in, or an outstanding one lands, well or badly. */
  datatype Act = Ask(now: real) | Finish(request: InFlight, ok: bool, now: real)

  function StepOf(a: Act): Step {
    match a
    case Ask(now) => DoAdmit(now)
    case Finish(request, ok, now) => DoRecord(request, if ok then SUCCESS else FAILURE, 0, now)
  }

  function Play(c: Config, p: Pair, a: Act): Pair {
    Pair(if a.Ask? then Allow(c, p.demo, a.now).0 else Land(c, p.demo, a.ok, a.now), Next(c, p.library, StepOf(a)))
  }

  /** A straggler: a call let in before the circuit last changed state. */
  predicate Straggler(s: Sys, a: Act) {
    a.Finish? && a.request.era != s.era
  }

  /** What keeps the two together: no straggler lands in HALF_OPEN, and in CLOSED only a success with no failure to forget. */
  predicate Harmless(s: Sys, a: Act) {
    Straggler(s, a) ==> s.core.state == OPEN || (s.core.state == CLOSED && a.ok && s.core.failures == 0)
  }

  /** Both let in the same calls. */
  lemma AdmissionAgrees(c: Config, p: Pair, now: real)
    requires c.rate.None? && Agree(p.demo, p.library.core) && TicketsOk(p.library) && CountersOk(c, p.library)
    ensures Allow(c, p.demo, now).1 == Answered(c, p.library, DoAdmit(now)).answer.Admitted?
    ensures var p' := Play(c, p, Ask(now)); Agree(p'.demo, p'.library.core)
  {
  }

  /** A landing keeps the two together exactly when it is harmless, whatever the configuration, state and readings. */
  lemma LandingAgreesExactly(c: Config, p: Pair, a: Act)
    requires c.rate.None? && Agree(p.demo, p.library.core) && Inv(c, p.library) && a.Finish? && Enabled(p.library, StepOf(a))
    ensures var p' := Play(c, p, a); Agree(p'.demo, p'.library.core) <==> Harmless(p.library, a)
  {
    CurrentTicket(p.library, a.request);
  }

  /** A straggler that lands in HALF_OPEN always moves the demo, and never the library. */
  lemma StragglerSeparates(c: Config, p: Pair, a: Act)
    requires c.rate.None? && Agree(p.demo, p.library.core) && Inv(c, p.library)
    requires Enabled(p.library, StepOf(a)) && Straggler(p.library, a) && p.library.core.state == HALF_OPEN
    ensures var p' := Play(c, p, a);
            && p'.library.core == p.library.core
            && p'.demo != p.demo && !Agree(p'.demo, p'.library.core)
            && (a.ok && p.demo.succ + 1 >= c.successThreshold ==> p'.demo.state == CLOSED)
            && (!a.ok ==> p'.demo.state == OPEN)
  {
    StaleRecordIsNoOp(c, p.library, StepOf(a));
    CurrentTicket(p.library, a.request);
  }

  ghost predicate Overlapping(c: Config, pairs: seq<Pair>, acts: seq<Act>) {
    && |pairs| == |acts| + 1 && pairs[0] == Pair(DEMO_START, START)
    && forall k :: 0 <= k < |acts| ==> Enabled(pairs[k].library, StepOf(acts[k])) && pairs[k + 1] == Play(c, pairs[k], acts[k])
  }

  predicate AgreeAt(p: Pair) {
    Agree(p.demo, p.library.core)
  }

  predicate SameDecision(c: Config, p: Pair, a: Act) {
    a.Ask? ==> Allow(c, p.demo, a.now).1 == Answered(c, p.library, StepOf(a)).answer.Admitted?
  }

  lemma {:induction false} OverlappingInv(c: Config, pairs: seq<Pair>, acts: seq<Act>, k: nat)
    requires Overlapping(c, pairs, acts) && k <= |acts|
    ensures Inv(c, pairs[k].library)
  {
    hide Inv, Next, Allow, Land;
    if k == 0 {
      ReachableStart(c);
      ReachableInv(c, START);
    } else {
      OverlappingInv(c, pairs, acts, k - 1);
      assert pairs[k - 1 + 1] == Play(c, pairs[k - 1], acts[k - 1]);
      InvKept(c, pairs[k - 1].library, StepOf(acts[k - 1]));
    }
  }

  lemma ActAgreesExactly(c: Config, p: Pair, a: Act)
    requires c.rate.None? && AgreeAt(p) && Inv(c, p.library) && Enabled(p.library, StepOf(a))
    ensures AgreeAt(Play(c, p, a)) <==> Harmless(p.library, a)
    ensures SameDecision(c, p, a)
  {
    hide Agree, Play, Allow, Land, Answered, Enabled, TicketsOk, CountersOk, RejectionsOk;
    if a.Ask? {
      AdmissionAgrees(c, p, a.now);
    } else {
      LandingAgreesExactly(c, p, a);
    }
  }

  /**
    Over every run of overlapping calls, the two have held the same state at every point so
    far if and only if no landing so far did harm; and while they do, they let in the same calls.
   */
  lemma {:induction false} OverlappingRunsAgreeExactly(c: Config, pairs: seq<Pair>, acts: seq<Act>, k: nat)
    requires c.rate.None? && Overlapping(c, pairs, acts) && k <= |acts|
    ensures (forall j :: 0 <= j <= k ==> AgreeAt(pairs[j])) <==> (forall j :: 0 <= j < k ==> Harmless(pairs[j].library, acts[j]))
    ensures (forall j :: 0 <= j < k ==> AgreeAt(pairs[j])) ==> forall j :: 0 <= j < k ==> SameDecision(c, pairs[j], acts[j])
  {
    hide Inv, AgreeAt, Play, Harmless, SameDecision, Enabled;
    if k == 0 {
      StartAgrees();
    } else {
      OverlappingRunsAgreeExactly(c, pairs, acts, k - 1);
      OverlappingInv(c, pairs, acts, k - 1);
      assert pairs[k - 1 + 1] == Play(c, pairs[k - 1], acts[k - 1]);
      if AgreeAt(pairs[k - 1]) {
        ActAgreesExactly(c, pairs[k - 1], acts[k - 1]);
      }
    }
  }

  lemma StartAgrees()
    ensures AgreeAt(Pair(DEMO_START, START))
  {
  }

  /** The shortest such run: one failure opens, the next call probes, and a call let in before lands on the probe. */
  lemma StragglerInstance(c: Config)
    requires c == Config(1, 0.0, 1, None)
    ensures var d := Land(c, DEMO_START, false, 0.0);
            var (d, probe) := Allow(c, d, 0.0);
            && probe && d.state == HALF_OPEN && Land(c, d, true, 0.0).state == CLOSED
    ensures var straggler := Admit(c, FRESH, 0.0).answer.ticket;
            var s := Record(c, FRESH, straggler, FAILURE, 0, 0.0).core;
            var reply := Admit(c, s, 0.0);
            && reply.answer.Admitted? && reply.core.state == HALF_OPEN
            && Record(c, reply.core, straggler, SUCCESS, 0, 0.0).core == reply.core
  {
  }
}
