/**
  One breaker per circuit key: circuits are created on first use under a lock, looked up
  without it, and run independently of one another.
 */
module Keyed {
  import opened Options
  import opened BreakerCore
  import opened BreakerRuns
  import BreakerTheorems

  // ---- creating circuits ----

  type Key = int
  type Circuit = nat

  /**
    A request in `_KeyedStates.get`: not started, past an unlocked lookup that missed,
    inside the creation lock, or holding its circuit.
   */
  datatype Getter =
    | Start(key: Key)
    | Missed(key: Key)
    | Locked(key: Key)
    | Got(key: Key, circuit: Circuit)

  /** `states` is the shared map; `made` counts the circuits ever built, so a new one never equals an old one. */
  datatype Registry = Registry(states: map<Key, Circuit>, made: nat, lock: Option<nat>, getters: seq<Getter>)

  /** One step of getter `i`: the unlocked lookup, taking the lock, or the locked second look. */
  function Advance(r: Registry, i: nat): Registry
    requires i < |r.getters| && CanAdvance(r, i)
  {
    match r.getters[i]
    case Start(key) =>
      r.(getters := r.getters[i := if key in r.states then Got(key, r.states[key]) else Missed(key)])
    case Missed(key) =>
      r.(lock := Some(i), getters := r.getters[i := Locked(key)])
    case Locked(key) =>
      if key in r.states then r.(lock := None, getters := r.getters[i := Got(key, r.states[key])])
      else Registry(r.states[key := r.made], r.made + 1, None, r.getters[i := Got(key, r.made)])
    case Got(_, _) => r
  }

  predicate CanAdvance(r: Registry, i: nat) {
    i < |r.getters| && match r.getters[i] case Missed(_) => r.lock.None? case _ => true
  }

  /** Only the lock holder is between its second look and the end; circuits are distinct; every getter holds its key's circuit. */
  ghost predicate RegistryOk(r: Registry) {
    && (forall i :: 0 <= i < |r.getters| && r.getters[i].Locked? ==> r.lock == Some(i))
    && (forall k :: k in r.states ==> r.states[k] < r.made)
    && (forall k, l :: k in r.states && l in r.states && k != l ==> r.states[k] != r.states[l])
    && (forall i :: 0 <= i < |r.getters| && r.getters[i].Got? ==>
          r.getters[i].key in r.states && r.getters[i].circuit == r.states[r.getters[i].key])
  }

  /** Racing first requests install one circuit per key, and no step ever replaces it. */
  lemma AdvanceKeeps(r: Registry, i: nat)
    requires RegistryOk(r) && CanAdvance(r, i)
    ensures RegistryOk(Advance(r, i))
    ensures forall k :: k in r.states ==> k in Advance(r, i).states && Advance(r, i).states[k] == r.states[k]
  {
  }

  ghost predicate Advancing(rs: seq<Registry>) {
    && rs != [] && RegistryOk(rs[0])
    && forall k :: 0 <= k < |rs| - 1 ==> AdvancedBy(rs[k], rs[k + 1])
  }

  ghost predicate AdvancedBy(r: Registry, r': Registry) {
    exists i: nat :: CanAdvance(r, i) && r' == Advance(r, i)
  }

  /** Over any interleaving, two requests for one key get the same circuit and two for different keys get different ones. */
  lemma {:induction false} OneCircuitPerKey(rs: seq<Registry>)
    requires Advancing(rs)
    ensures var last := rs[|rs| - 1];
            && RegistryOk(last)
            && (forall k :: k in rs[0].states ==> k in last.states && last.states[k] == rs[0].states[k])
            && forall i, j :: 0 <= i < |last.getters| && 0 <= j < |last.getters|
                              && last.getters[i].Got? && last.getters[j].Got? ==>
                 (last.getters[i].circuit == last.getters[j].circuit <==> last.getters[i].key == last.getters[j].key)
  {
    if |rs| > 1 {
      var n := |rs| - 1;
      forall k | 0 <= k < n - 1 ensures AdvancedBy(rs[..n][k], rs[..n][k + 1]) {
        assert AdvancedBy(rs[k], rs[k + 1]);
      }
      OneCircuitPerKey(rs[..n]);
      assert AdvancedBy(rs[n - 1], rs[n - 1 + 1]);
      var i: nat :| CanAdvance(rs[n - 1], i) && rs[n] == Advance(rs[n - 1], i);
      AdvanceKeeps(rs[n - 1], i);
    }
  }

  // ---- requests on the circuits they got ----

  /** A request once it has its circuit: not admitted yet, being forwarded, or recorded or refused. */
  datatype Phase = Waiting | Sending(flight: InFlight) | Over

  /** The registry, the circuits it has built, and how far each of its requests is. */
  datatype World = World(registry: Registry, circuits: map<Circuit, Sys>, phases: seq<Phase>)

  /** Request `i` gets on with finding its circuit; or asks it, or reports to it, whichever circuit it found. */
  datatype Move = Fetch(i: nat) | Ask(i: nat, now: real) | Report(i: nat, outcome: Outcome, slot: int, openedAt: real)

  predicate Possible(w: World, m: Move) {
    && m.i < |w.registry.getters| == |w.phases|
    && if m.Fetch? then CanAdvance(w.registry, m.i)
       else
         && w.registry.getters[m.i].Got? && w.registry.getters[m.i].circuit in w.circuits
         && if m.Ask? then w.phases[m.i].Waiting? else w.phases[m.i].Sending?
  }

  /** The circuit the moving request holds. */
  function CircuitOf(w: World, m: Move): Sys
    requires Possible(w, m) && !m.Fetch?
  {
    w.circuits[w.registry.getters[m.i].circuit]
  }

  function StepOf(w: World, m: Move): Step
    requires Possible(w, m) && !m.Fetch?
  {
    if m.Ask? then DoAdmit(m.now) else DoRecord(w.phases[m.i].flight, m.outcome, m.slot, m.openedAt)
  }

  function Make(c: Config, w: World, m: Move): World
    requires Possible(w, m)
  {
    if m.Fetch? then
      var registry := Advance(w.registry, m.i);
      World(registry, if registry.made > w.registry.made then w.circuits[w.registry.made := START] else w.circuits, w.phases)
    else
      var s, step := CircuitOf(w, m), StepOf(w, m);
      var reply, s' := Answered(c, s, step), Next(c, s, step);
      World(w.registry, w.circuits[w.registry.getters[m.i].circuit := s'],
            w.phases[m.i := if reply.answer.Admitted? then Sending(InFlight(reply.answer.ticket, s'.era)) else Over])
  }

  /** What one request has in flight on `circuit`. */
  function Flight(g: Getter, phase: Phase, circuit: Circuit): multiset<InFlight> {
    if g.Got? && g.circuit == circuit && phase.Sending? then multiset{phase.flight} else multiset{}
  }

  function Held(gs: seq<Getter>, phases: seq<Phase>, circuit: Circuit): multiset<InFlight>
    requires |gs| == |phases|
  {
    if gs == [] then multiset{}
    else
      var n := |gs| - 1;
      Held(gs[..n], phases[..n], circuit) + Flight(gs[n], phases[n], circuit)
  }

  lemma AddRight(a: multiset<InFlight>, b: multiset<InFlight>, d: multiset<InFlight>, e: multiset<InFlight>,
      x: multiset<InFlight>)
    requires a + b == d + e
    ensures (a + x) + b == (d + x) + e
  {
    assert (a + x) + b == (a + b) + x;
  }

  lemma {:induction false} HeldUpdate(gs: seq<Getter>, phases: seq<Phase>, i: nat, g: Getter, phase: Phase, circuit: Circuit)
    requires |gs| == |phases| && i < |gs|
    ensures Held(gs[i := g], phases[i := phase], circuit) + Flight(gs[i], phases[i], circuit)
         == Held(gs, phases, circuit) + Flight(g, phase, circuit)
  {
    hide Flight;
    var n, gs', phases' := |gs| - 1, gs[i := g], phases[i := phase];
    if i == n {
      assert gs'[..n] == gs[..n] && phases'[..n] == phases[..n];
    } else {
      assert gs'[..n] == gs[..n][i := g] && phases'[..n] == phases[..n][i := phase];
      HeldUpdate(gs[..n], phases[..n], i, g, phase, circuit);
      AddRight(Held(gs'[..n], phases'[..n], circuit), Flight(gs[i], phases[i], circuit),
               Held(gs[..n], phases[..n], circuit), Flight(g, phase, circuit), Flight(gs[n], phases[n], circuit));
    }
  }

  lemma {:induction false} HeldMember(gs: seq<Getter>, phases: seq<Phase>, i: nat, circuit: Circuit)
    requires |gs| == |phases| && i < |gs|
    ensures Flight(gs[i], phases[i], circuit) <= Held(gs, phases, circuit)
  {
    var n := |gs| - 1;
    if i < n {
      HeldMember(gs[..n], phases[..n], i, circuit);
    }
  }

  /** Every circuit built is running, and in flight on it is what the requests that got it are forwarding. */
  ghost predicate WorldOk(w: World) {
    && RegistryOk(w.registry) && |w.phases| == |w.registry.getters|
    && (forall q: Circuit :: q in w.circuits <==> q < w.registry.made)
    && (forall i :: 0 <= i < |w.phases| && !w.registry.getters[i].Got? ==> w.phases[i].Waiting?)
    && (forall q :: q in w.circuits ==> InFlightIs(w, q))
  }

  ghost predicate InFlightIs(w: World, circuit: Circuit)
    requires |w.phases| == |w.registry.getters| && circuit in w.circuits
  {
    w.circuits[circuit].inFlight == Held(w.registry.getters, w.phases, circuit)
  }

  lemma {:induction false} NothingHeld(gs: seq<Getter>, phases: seq<Phase>, circuit: Circuit)
    requires |gs| == |phases| && forall i :: 0 <= i < |gs| && gs[i].Got? ==> gs[i].circuit != circuit
    ensures Held(gs, phases, circuit) == multiset{}
  {
    if gs != [] {
      NothingHeld(gs[..|gs| - 1], phases[..|gs| - 1], circuit);
    }
  }

  /** Getting on with the search for a circuit leaves every running circuit as it is. */
  lemma FetchKeeps(c: Config, w: World, i: nat)
    requires WorldOk(w) && Possible(w, Fetch(i))
    ensures WorldOk(Make(c, w, Fetch(i)))
  {
    hide Advance, Held, Flight, RegistryOk, CanAdvance;
    AdvanceKeeps(w.registry, i);
    FetchShape(w.registry, i);
    var w', g' := Make(c, w, Fetch(i)), Advance(w.registry, i).getters[i];
    GotBelow(w.registry);
    assert w.phases[i := w.phases[i]] == w.phases;
    forall q | q in w'.circuits
      ensures InFlightIs(w', q)
    {
      if q !in w.circuits {
        NothingHeld(w.registry.getters, w.phases, q);
      } else {
        assert InFlightIs(w, q);
      }
      HeldUpdate(w.registry.getters, w.phases, i, g', w.phases[i], q);
      FetchedNothing(w, i, g', q);
      Cancel(Held(w'.registry.getters, w'.phases, q), Held(w.registry.getters, w.phases, q), Flight(g', w.phases[i], q));
    }
  }

  lemma Cancel(a: multiset<InFlight>, b: multiset<InFlight>, x: multiset<InFlight>)
    requires a + x == b + x
    ensures a == b
  {
    forall r ensures a[r] == b[r] {
      assert (a + x)[r] == (b + x)[r];
    }
  }

  lemma GotBelow(r: Registry)
    requires RegistryOk(r)
    ensures forall i :: 0 <= i < |r.getters| && r.getters[i].Got? ==>
              r.getters[i].circuit < r.made && r.getters[i].key in r.states && r.getters[i].circuit == r.states[r.getters[i].key]
  {
  }

  lemma FetchShape(r: Registry, i: nat)
    requires CanAdvance(r, i)
    ensures var r' := Advance(r, i);
            && |r'.getters| == |r.getters| && r'.getters == r.getters[i := r'.getters[i]]
            && r.made <= r'.made <= r.made + 1
            && (r.getters[i].Got? ==> r'.getters[i] == r.getters[i])
            && r'.getters[i].key == r.getters[i].key
  {
  }

  lemma FetchedNothing(w: World, i: nat, g: Getter, circuit: Circuit)
    requires i < |w.registry.getters| == |w.phases|
    requires !w.registry.getters[i].Got? ==> w.phases[i].Waiting?
    requires w.registry.getters[i].Got? ==> g == w.registry.getters[i]
    ensures Flight(g, w.phases[i], circuit) == Flight(w.registry.getters[i], w.phases[i], circuit)
  {
  }

  /** A request acting on its circuit keeps the book on that one and touches no other. */
  lemma ActKeeps(c: Config, w: World, m: Move)
    requires WorldOk(w) && Possible(w, m) && !m.Fetch?
    ensures Enabled(CircuitOf(w, m), StepOf(w, m))
    ensures WorldOk(Make(c, w, m))
  {
    hide Next, Answered, Held, Flight, RegistryOk, CanAdvance;
    var own, s, step, w' := w.registry.getters[m.i].circuit, CircuitOf(w, m), StepOf(w, m), Make(c, w, m);
    var gs := w.registry.getters;
    assert InFlightIs(w, own);
    OwnFlight(gs[m.i], w.phases[m.i], own);
    HeldMember(gs, w.phases, m.i, own);
    assert gs[m.i := gs[m.i]] == gs;
    forall q | q in w'.circuits
      ensures InFlightIs(w', q)
    {
      assert InFlightIs(w, q);
      HeldUpdate(gs, w.phases, m.i, gs[m.i], w'.phases[m.i], q);
      OwnFlight(gs[m.i], w.phases[m.i], q);
      OwnFlight(gs[m.i], w'.phases[m.i], q);
      if q == own {
        FlightMoves(c, s, step, w.phases[m.i], w'.phases[m.i]);
        Replace(Held(gs, w'.phases, q), Flight(gs[m.i], w.phases[m.i], q), Held(gs, w.phases, q),
            Flight(gs[m.i], w'.phases[m.i], q), w'.circuits[q].inFlight);
      } else {
        Cancel(Held(gs, w'.phases, q), Held(gs, w.phases, q), multiset{});
      }
    }
  }

  lemma OwnFlight(g: Getter, phase: Phase, circuit: Circuit)
    requires g.Got?
    ensures Flight(g, phase, circuit) == if g.circuit == circuit && phase.Sending? then multiset{phase.flight} else multiset{}
  {
  }

  /** An admission adds the flight its request gets; a recording takes its own away. */
  lemma FlightMoves(c: Config, s: Sys, step: Step, phase: Phase, phase': Phase)
    requires Enabled(s, step)
    requires if step.DoAdmit? then phase.Waiting? else phase == Sending(step.request)
    requires var reply := Answered(c, s, step);
             phase' == if reply.answer.Admitted? then Sending(InFlight(reply.answer.ticket, Next(c, s, step).era)) else Over
    ensures Next(c, s, step).inFlight + (if phase.Sending? then multiset{phase.flight} else multiset{})
         == s.inFlight + if phase'.Sending? then multiset{phase'.flight} else multiset{}
  {
    hide Answered;
  }

  lemma Replace(held': multiset<InFlight>, gone: multiset<InFlight>, held: multiset<InFlight>,
      more: multiset<InFlight>, after: multiset<InFlight>)
    requires held' + gone == held + more && after + gone == held + more
    ensures after == held'
  {
    Cancel(after, held', gone);
  }

  // ---- runs, seen from one key ----

  ghost predicate Beginning(w: World) {
    && w.registry.states == map[] && w.registry.made == 0 && w.registry.lock.None? && w.circuits == map[]
    && |w.phases| == |w.registry.getters|
    && forall i :: 0 <= i < |w.phases| ==> w.registry.getters[i].Start? && w.phases[i].Waiting?
  }

  ghost predicate Run(c: Config, worlds: seq<World>, moves: seq<Move>) {
    && |worlds| == |moves| + 1 && Beginning(worlds[0])
    && forall k :: 0 <= k < |moves| ==> Possible(worlds[k], moves[k]) && worlds[k + 1] == Make(c, worlds[k], moves[k])
  }

  /** Whether move `m` is a request with this key asking or reporting. */
  predicate ActsOn(w: World, m: Move, key: Key) {
    Possible(w, m) && !m.Fetch? && w.registry.getters[m.i].key == key
  }

  /** What the requests with this key did to the circuits they had got, in order, and what those answered. */
  function StepsOn(worlds: seq<World>, moves: seq<Move>, key: Key, k: nat): seq<Step>
    requires k <= |moves| < |worlds|
  {
    if k == 0 then []
    else
      var w, m := worlds[k - 1], moves[k - 1];
      StepsOn(worlds, moves, key, k - 1) + if ActsOn(w, m, key) then [StepOf(w, m)] else []
  }

  function RepliesOn(c: Config, worlds: seq<World>, moves: seq<Move>, key: Key, k: nat): seq<Reply>
    requires k <= |moves| < |worlds|
  {
    if k == 0 then []
    else
      var w, m := worlds[k - 1], moves[k - 1];
      RepliesOn(c, worlds, moves, key, k - 1) + if ActsOn(w, m, key) then [Answered(c, CircuitOf(w, m), StepOf(w, m))] else []
  }

  /** A single breaker's replies to `steps`. */
  function SingleReplies(c: Config, steps: seq<Step>): seq<Reply> {
    if steps == [] then [] else
      SingleReplies(c, steps[..|steps| - 1]) + [Answered(c, After(c, steps[..|steps| - 1]), steps[|steps| - 1])]
  }

  /** The circuit of a key is as a single breaker is after `steps`; no circuit, no steps. */
  ghost predicate Stands(c: Config, w: World, key: Key, steps: seq<Step>) {
    if key in w.registry.states then w.registry.states[key] in w.circuits && w.circuits[w.registry.states[key]] == After(c, steps)
    else steps == []
  }

  /**
    However requests race to find or create their circuits while others use theirs, those
    with one key run a single breaker: its steps are legal, its state is that circuit's, and
    they got its answers and events.
   */
  lemma {:induction false} KeysAreIndependent(c: Config, worlds: seq<World>, moves: seq<Move>, key: Key, k: nat)
    requires Run(c, worlds, moves) && k <= |moves|
    ensures WorldOk(worlds[k])
    ensures var steps := StepsOn(worlds, moves, key, k);
            Legal(c, steps) && Stands(c, worlds[k], key, steps) && RepliesOn(c, worlds, moves, key, k) == SingleReplies(c, steps)
  {
    hide WorldOk, Stands, Possible, Make, Next, Answered, Legal, After;
    if k == 0 {
      BeginningOk(c, worlds[0], key);
    } else {
      var w, m, before := worlds[k - 1], moves[k - 1], StepsOn(worlds, moves, key, k - 1);
      KeysAreIndependent(c, worlds, moves, key, k - 1);
      assert Possible(w, m) && worlds[k - 1 + 1] == Make(c, w, m);
      if ActsOn(w, m, key) {
        OwnStep(c, w, m, key, before);
        AfterAppend(c, before, StepOf(w, m));
        assert (before + [StepOf(w, m)])[..|before|] == before;
      } else {
        OtherStep(c, w, m, key, before);
        assert before + [] == before;
        assert RepliesOn(c, worlds, moves, key, k) == RepliesOn(c, worlds, moves, key, k - 1);
      }
    }
  }

  lemma BeginningOk(c: Config, w: World, key: Key)
    requires Beginning(w)
    ensures WorldOk(w) && Stands(c, w, key, []) && Legal(c, [])
  {
  }

  /** A request acts on its key's circuit: the registry gave it that one. */
  lemma OwnStep(c: Config, w: World, m: Move, key: Key, steps: seq<Step>)
    requires WorldOk(w) && ActsOn(w, m, key) && Stands(c, w, key, steps) && Legal(c, steps)
    ensures WorldOk(Make(c, w, m)) && CircuitOf(w, m) == After(c, steps)
    ensures Legal(c, steps + [StepOf(w, m)]) && Stands(c, Make(c, w, m), key, steps + [StepOf(w, m)])
  {
    hide Next, Answered, RegistryOk, CanAdvance, Held;
    GotBelow(w.registry);
    ActKeeps(c, w, m);
    AfterAppend(c, steps, StepOf(w, m));
  }

  /** Nothing else moves it: other keys have other circuits, and one that is installed stays. */
  lemma OtherStep(c: Config, w: World, m: Move, key: Key, steps: seq<Step>)
    requires WorldOk(w) && Possible(w, m) && !ActsOn(w, m, key) && Stands(c, w, key, steps)
    ensures WorldOk(Make(c, w, m)) && Stands(c, Make(c, w, m), key, steps)
  {
    hide Next, Answered, Held, Legal;
    if m.Fetch? {
      FetchKeeps(c, w, m.i);
      AdvanceKeeps(w.registry, m.i);
    } else {
      ActKeeps(c, w, m);
      GotBelow(w.registry);
    }
  }

  /** Two requests with one key never run probes at once, wherever each found the circuit. */
  lemma OneProbePerKey(c: Config, worlds: seq<World>, moves: seq<Move>, i: nat, j: nat)
    requires Run(c, worlds, moves)
    requires var w := worlds[|moves|];
             && i < |w.phases| == |w.registry.getters| && j < |w.phases|
             && w.registry.getters[i].key == w.registry.getters[j].key
             && w.phases[i].Sending? && w.phases[i].flight.ticket % 2 == 1
             && w.phases[j].Sending? && w.phases[j].flight.ticket % 2 == 1
    ensures i == j
  {
    hide After, Legal, Next, Held, StepsOn, RepliesOn, SingleReplies;
    var w := worlds[|moves|];
    var key := w.registry.getters[i].key;
    KeysAreIndependent(c, worlds, moves, key, |moves|);
    GotBelow(w.registry);
    var q, steps := w.registry.states[key], StepsOn(worlds, moves, key, |moves|);
    LegalReaches(c, steps);
    assert InFlightIs(w, q);
    HeldMember(w.registry.getters, w.phases, i, q);
    HeldMember(w.registry.getters, w.phases, j, q);
    BreakerTheorems.OneProbe(c, w.circuits[q]);
    assert w.phases[i].flight in w.circuits[q].inFlight && w.phases[j].flight in w.circuits[q].inFlight;
    if i != j {
      HeldTwice(w.registry.getters, w.phases, if i < j then i else j, if i < j then j else i, q);
    }
  }

  lemma {:induction false} HeldTwice(gs: seq<Getter>, phases: seq<Phase>, i: nat, j: nat, circuit: Circuit)
    requires |gs| == |phases| && i < j < |gs|
    requires gs[i].Got? && gs[j].Got? && gs[i].circuit == gs[j].circuit == circuit
    requires phases[i].Sending? && phases[j] == phases[i]
    ensures Held(gs, phases, circuit)[phases[i].flight] >= 2
  {
    var n := |gs| - 1;
    if j == n {
      HeldMember(gs[..n], phases[..n], i, circuit);
    } else {
      HeldTwice(gs[..n], phases[..n], i, j, circuit);
    }
  }
}
