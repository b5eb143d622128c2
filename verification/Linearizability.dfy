/**
  Any number of threads in `_call_sync`, interleaved between any two statements, do no
  more than the atomic breaker of `BreakerRuns`. An unlocked read takes effect when it
  reads `closed_ticket`. A critical section takes effect at its write of `closed_ticket`,
  or, if it will not write it, as soon as that is decided.
 */
module Linearizability {
  import opened Options
  import opened BreakerCore
  import opened BreakerRuns
  import opened BreakerThreads

  /** Whether `p` has nothing of a transition left to write on any path. */
  predicate Silent(p: Program) {
    match p
    case Return(_) => true
    case Do(write, next) => !write.WriteState? && !write.BumpEpoch? && !write.PublishTicket? && Silent(next)
    case If(_, yes, no) => Silent(yes) && Silent(no)
  }

  /** Whether every path of `p` makes at most one transition: state, epoch and ticket one after the other. */
  predicate PublishesOnce(p: Program) {
    match p
    case Return(_) => true
    case Do(write, next) =>
      if write.PublishTicket? then Silent(next)
      else PublishesOnce(next) && (write.WriteState? || write.BumpEpoch? ==> MidMove(next))
    case If(_, yes, no) => PublishesOnce(yes) && PublishesOnce(no)
  }

  /** Whether the state has been written but not yet the ticket. */
  predicate MidMove(p: Program) {
    p.Do? && (p.write.PublishTicket? || p.write.BumpEpoch?)
  }

  lemma {:induction false} SilentPublishesOnce(p: Program)
    requires Silent(p)
    ensures PublishesOnce(p)
  {
    match p {
      case Return(_) =>
      case Do(_, next) => SilentPublishesOnce(next);
      case If(_, yes, no) => SilentPublishesOnce(yes); SilentPublishesOnce(no);
    }
  }

  lemma RejectIsSilent(now: real, retryAfter: Option<real>)
    ensures Silent(RejectProgram(now, retryAfter))
  {
    var rest := Do(QueueNoted, TakeAnd(CircuitOpen(retryAfter)));
    assert Silent(rest);
    assert Silent(Do(Note(NoteRejected(retryAfter)), Do(ClearSuppressed, rest)));
    var late := Do(WriteEmittedAt(Some(now)), Do(Note(NoteRejected(retryAfter)), Do(ClearSuppressed, rest)));
    assert Silent(late);
    assert Silent(If(EmittedRecently(now), Do(BumpSuppressed, Return(CircuitOpen(retryAfter))), late));
  }

  lemma MoveToPublishesOnce(state: CircuitState, next: Program)
    requires Silent(next)
    ensures PublishesOnce(MoveToProgram(state, next))
  {
    assert PublishesOnce(Do(PublishTicket, next));
    assert PublishesOnce(Do(BumpEpoch, Do(PublishTicket, next)));
  }

  lemma EnterOpenPublishesOnce(openedAt: real, kind: Noted)
    ensures PublishesOnce(EnterOpenProgram(openedAt, kind))
  {
    var rest := Do(ClearSuccesses, Do(QueueNoted, TakeAnd(Done)));
    assert Silent(rest);
    MoveToPublishesOnce(OPEN, Do(WriteOpenedAt(openedAt), Do(ClearFailures, rest)));
    assert PublishesOnce(Do(ClearSuppressed, Do(ClearRejections, EnterOpenRest(openedAt))));
  }

  lemma ProbeSuccessPublishesOnce(c: Config)
    ensures PublishesOnce(ProbeSuccessProgram(c))
  {
    var queue := Do(Note(NoteClosed), Do(QueueNoted, TakeAnd(Done)));
    var cleared := if c.rate.Some? then Do(ClearWindow, queue) else queue;
    assert Silent(queue) && Silent(cleared);
    MoveToPublishesOnce(CLOSED, Do(ClearFailures, Do(ClearSuccesses, cleared)));
  }

  lemma ProgramPublishesOnce(c: Config, call: Call, s: Core)
    ensures PublishesOnce(ProgramOf(c, call, s))
  {
    SilentPublishesOnce(TakeAnd(Done));
    match call {
      case AdmitCall(now) =>
        RejectIsSilent(now, Some(Remaining(c, s, now)));
        RejectIsSilent(now, None);
        SilentPublishesOnce(RejectProgram(now, Some(Remaining(c, s, now))));
        SilentPublishesOnce(RejectProgram(now, None));
        assert Silent(Do(QueueNoted, TakeAnd(ProbeTicket)));
        MoveToPublishesOnce(HALF_OPEN, Do(WriteProbe(true), Do(Note(NoteHalfOpened), Do(QueueNoted, TakeAnd(ProbeTicket)))));
        assert PublishesOnce(If(InState(OPEN),
          If(Cooling(now), RejectProgram(now, Some(Remaining(c, s, now))),
             MoveToProgram(HALF_OPEN, Do(WriteProbe(true), Do(Note(NoteHalfOpened), Do(QueueNoted, TakeAnd(ProbeTicket)))))),
          If(ProbeBusy, RejectProgram(now, None), Do(WriteProbe(true), Return(ProbeTicket)))));
      case RecordCall(ticket, outcome, slot, openedAt) =>
        EnterOpenPublishesOnce(openedAt, NoteOpened);
        EnterOpenPublishesOnce(openedAt, NoteProbeFailed);
        EnterOpenPublishesOnce(openedAt, NoteOpenedByRate);
        ProbeSuccessPublishesOnce(c);
        assert PublishesOnce(RateTail(openedAt));
        assert PublishesOnce(RecordClosedProgram(c, outcome == FAILURE, slot, openedAt));
        assert PublishesOnce(ClosedBranch(c, outcome, slot, openedAt)) && PublishesOnce(ProbeBranch(c, outcome, openedAt));
    }
  }

  // ---- threads ----

  /**
    Where one thread is in `_call_sync`. Inside the lock it has `rest` left of its critical
    section, which it entered at `before`.
   */
  datatype Thread =
    | Idle
    | Missed
    | Running(ticket: int)
    | Finished(ticket: int, outcome: Outcome)
    | Inside(call: Call, before: Core, rest: Program, noted: Option<Event>, taken: seq<Event>)

  datatype World = World(core: Core, lock: Option<nat>, threads: seq<Thread>)

  /**
    One statement of thread `i`. The clock readings a critical section will take are
    named when it takes the lock; they may be any numbers.
   */
  datatype Move =
    | ReadTicket(i: nat)
    | TakeLock(i: nat, now: real, slot: int, openedAt: real)
    | Tick(i: nat)
    | Respond(i: nat, outcome: Outcome)

  predicate Possible(w: World, m: Move) {
    && m.i < |w.threads|
    && match m
       case ReadTicket(i) => w.threads[i].Idle?
       case TakeLock(i, _, _, _) => w.lock.None? && (w.threads[i].Missed? || w.threads[i].Finished?)
       case Tick(i) => w.threads[i].Inside?
       case Respond(i, _) => w.threads[i].Running?
  }

  function CallOf(t: Thread, now: real, slot: int, openedAt: real): Call {
    if t.Finished? then RecordCall(t.ticket, t.outcome, slot, openedAt) else AdmitCall(now)
  }

  /** One statement inside the lock; the last one releases it. */
  function TickOf(c: Config, w: World, i: nat): World
    requires i < |w.threads| && w.threads[i].Inside?
  {
    var t := w.threads[i];
    match t.rest
    case Return(result) =>
      var answer := AnswerOf(result, w.core);
      World(w.core, None, w.threads[i := if answer.Admitted? then Running(answer.ticket) else Idle])
    case Do(write, next) =>
      var f := Apply(write, Frame(w.core, t.noted, t.taken));
      World(f.core, w.lock, w.threads[i := t.(rest := next, noted := f.noted, taken := f.taken)])
    case If(test, yes, no) =>
      w.(threads := w.threads[i := t.(rest := if Holds(c, test, w.core) then yes else no)])
  }

  function Make(c: Config, w: World, m: Move): World
    requires Possible(w, m)
  {
    var t := w.threads[m.i];
    match m
    case ReadTicket(i) =>
      w.(threads := w.threads[i := if w.core.closedTicket.Some? then Running(w.core.closedTicket.value) else Missed])
    case TakeLock(i, now, slot, openedAt) =>
      var call := CallOf(t, now, slot, openedAt);
      World(w.core, Some(i), w.threads[i := Inside(call, w.core, ProgramOf(c, call, w.core), None, [])])
    case Tick(i) => TickOf(c, w, i)
    case Respond(i, outcome) => w.(threads := w.threads[i := Finished(t.ticket, outcome)])
  }

  // ---- what the atomic machine has seen ----

  /** The atomic state a thread's critical section stands for. */
  function EffectOf(c: Config, t: Thread): Core
    requires t.Inside?
  {
    if Silent(t.rest) then Atomic(c, t.call, t.before).core else t.before
  }

  function Visible(c: Config, w: World): Core {
    if w.lock.Some? && w.lock.value < |w.threads| && w.threads[w.lock.value].Inside?
    then EffectOf(c, w.threads[w.lock.value]) else w.core
  }

  /** The ticket the atomic machine counts as in flight for a thread. */
  function Ticket(c: Config, t: Thread): Option<int> {
    match t
    case Idle => None
    case Missed => None
    case Running(ticket) => Some(ticket)
    case Finished(ticket, _) => Some(ticket)
    case Inside(call, before, rest, _, _) =>
      if !Silent(rest) then (if call.RecordCall? then Some(call.ticket) else None)
      else var answer := Atomic(c, call, before).answer; if answer.Admitted? then Some(answer.ticket) else None
  }

  function Carried(c: Config, t: Thread): multiset<InFlight> {
    match Ticket(c, t)
    case None => multiset{}
    case Some(ticket) => if ticket >= 0 then multiset{InFlight(ticket, ticket / 2)} else multiset{}
  }

  function AllCarried(c: Config, ts: seq<Thread>): multiset<InFlight> {
    if ts == [] then multiset{} else Carried(c, ts[0]) + AllCarried(c, ts[1..])
  }

  lemma {:induction false} CarriedUpdate(c: Config, ts: seq<Thread>, i: nat, t: Thread)
    requires i < |ts|
    ensures AllCarried(c, ts[i := t]) + Carried(c, ts[i]) == AllCarried(c, ts) + Carried(c, t)
  {
    if i == 0 {
      assert ts[0 := t][1..] == ts[1..];
    } else {
      assert ts[i := t][1..] == ts[1..][i - 1 := t];
      CarriedUpdate(c, ts[1..], i - 1, t);
      AddBoth(Carried(c, ts[0]), AllCarried(c, ts[i := t][1..]), Carried(c, ts[i]), AllCarried(c, ts[1..]), Carried(c, t));
    }
  }

  lemma AddBoth(x: multiset<InFlight>, a: multiset<InFlight>, b: multiset<InFlight>, d: multiset<InFlight>, e: multiset<InFlight>)
    requires a + b == d + e
    ensures (x + a) + b == (x + d) + e
  {
    assert (x + a) + b == x + (a + b);
  }

  lemma {:induction false} CarriedMember(c: Config, ts: seq<Thread>, i: nat)
    requires i < |ts|
    ensures Carried(c, ts[i]) <= AllCarried(c, ts)
  {
    if i > 0 {
      CarriedMember(c, ts[1..], i - 1);
    }
  }

  /** A critical section is on its way from `before` to what the atomic call gives, and has not moved the ticket early. */
  predicate OnTrack(c: Config, core: Core, t: Thread) {
    t.Inside? ==>
      && PublishesOnce(t.rest)
      && Finish(c, t.rest, Frame(core, t.noted, t.taken)) == Atomic(c, t.call, t.before)
      && core.closedTicket == EffectOf(c, t).closedTicket
      && (!Silent(t.rest) && !MidMove(t.rest) ==> core.state == t.before.state)
  }

  predicate WorldOk(c: Config, w: World) {
    && (w.lock.Some? ==> w.lock.value < |w.threads|)
    && (forall i :: 0 <= i < |w.threads| ==> (w.threads[i].Inside? <==> w.lock == Some(i)))
    && (forall i :: 0 <= i < |w.threads| && Ticket(c, w.threads[i]).Some? ==> Ticket(c, w.threads[i]).value >= 0)
    && (w.lock.Some? ==> OnTrack(c, w.core, w.threads[w.lock.value]))
  }

  /** `w` is explained by the atomic state `s`. */
  ghost predicate Explains(c: Config, w: World, s: Sys) {
    && WorldOk(c, w)
    && s.core == Visible(c, w)
    && s.inFlight == AllCarried(c, w.threads)
  }

  function StepOf(call: Call): Step {
    match call
    case AdmitCall(now) => DoAdmit(now)
    case RecordCall(ticket, outcome, slot, openedAt) =>
      DoRecord(InFlight(ticket, if ticket >= 0 then ticket / 2 else 0), outcome, slot, openedAt)
  }

  /**
    The call of the moving thread that takes effect at `m`, if one does. An unlocked read
    makes no clock reading; any will do.
   */
  function Effect(c: Config, w: World, m: Move): Option<Call> {
    if !Possible(w, m) then None
    else
      match m
      case ReadTicket(_) => if w.core.closedTicket.Some? then Some(AdmitCall(0.0)) else None
      case TakeLock(i, now, slot, openedAt) =>
        var call := CallOf(w.threads[i], now, slot, openedAt);
        if Silent(ProgramOf(c, call, w.core)) then Some(call) else None
      case Tick(i) =>
        var t := w.threads[i];
        if !t.rest.Return? && !Silent(t.rest) && Silent(TickOf(c, w, i).threads[i].rest) then Some(t.call) else None
      case Respond(_, _) => None
  }

  function One(ticket: Option<int>): multiset<InFlight> {
    if ticket.Some? && ticket.value >= 0 then multiset{InFlight(ticket.value, ticket.value / 2)} else multiset{}
  }

  lemma AnsweredIsAtomic(c: Config, s: Sys, call: Call)
    ensures Answered(c, s, StepOf(call)) == Atomic(c, call, s.core)
  {
  }

  /** A call taking effect on the atomic machine: its new state, and the tickets it takes out of and puts in flight. */
  lemma TakesEffect(c: Config, s: Sys, call: Call)
    requires Inv(c, s)
    requires call.RecordCall? ==> call.ticket >= 0 && InFlight(call.ticket, call.ticket / 2) in s.inFlight
    ensures Enabled(s, StepOf(call))
    ensures var s', reply := Next(c, s, StepOf(call)), Atomic(c, call, s.core);
            && s'.core == reply.core
            && (reply.answer.Admitted? ==> reply.answer.ticket >= 0)
            && s'.inFlight + One(if call.RecordCall? then Some(call.ticket) else None)
               == s.inFlight + One(if reply.answer.Admitted? then Some(reply.answer.ticket) else None)
  {
    hide Next, Answered, Atomic, CountersOk, RejectionsOk;
    var step := StepOf(call);
    var s', reply := Next(c, s, step), Atomic(c, call, s.core);
    AnsweredIsAtomic(c, s, call);
    NextInFlight(c, s, step);
    TicketsKept(c, s, step);
    if reply.answer.Admitted? {
      var r := InFlight(reply.answer.ticket, s'.era);
      assert r in s'.inFlight;
      assert TicketOk(s', r);
    }
  }

  lemma NextInFlight(c: Config, s: Sys, step: Step)
    requires Enabled(s, step)
    ensures var s', reply := Next(c, s, step), Answered(c, s, step);
            var done := if step.DoRecord? then multiset{step.request} else multiset{};
            s'.core == reply.core
            && (reply.answer.Admitted? ==> InFlight(reply.answer.ticket, s'.era) in s'.inFlight)
            && s'.inFlight + done
               == s.inFlight + if reply.answer.Admitted? then multiset{InFlight(reply.answer.ticket, s'.era)} else multiset{}
  {
    hide Answered;
  }

  /** Nothing took effect: thread `i` moved on, with the same ticket in flight and the same visible state. */
  lemma Unseen(c: Config, w: World, s: Sys, w': World, i: nat)
    requires Explains(c, w, s) && i < |w.threads|
    requires |w'.threads| == |w.threads| && w'.threads == w.threads[i := w'.threads[i]]
    requires Ticket(c, w'.threads[i]) == Ticket(c, w.threads[i])
    requires WorldOk(c, w') && Visible(c, w') == Visible(c, w)
    ensures Explains(c, w', s)
  {
    hide Atomic;
    CarriedUpdate(c, w.threads, i, w'.threads[i]);
    CancelOne(AllCarried(c, w'.threads), AllCarried(c, w.threads), Carried(c, w.threads[i]), AllCarried(c, w.threads),
        Carried(c, w'.threads[i]));
  }

  /** Thread `i`'s call took effect: its ticket and the visible state changed as the atomic call says. */
  lemma Seen(c: Config, w: World, s: Sys, w': World, i: nat, call: Call)
    requires Inv(c, s) && Explains(c, w, s) && i < |w.threads|
    requires |w'.threads| == |w.threads| && w'.threads == w.threads[i := w'.threads[i]]
    requires Ticket(c, w.threads[i]) == if call.RecordCall? then Some(call.ticket) else None
    requires WorldOk(c, w')
    requires var reply := Atomic(c, call, s.core);
             && Visible(c, w') == reply.core
             && Ticket(c, w'.threads[i]) == if reply.answer.Admitted? then Some(reply.answer.ticket) else None
    ensures Enabled(s, StepOf(call)) && Explains(c, w', Next(c, s, StepOf(call)))
  {
    hide Atomic, Next, Inv, OnTrack;
    CarriedMember(c, w.threads, i);
    if call.RecordCall? {
      assert InFlight(call.ticket, call.ticket / 2) in Carried(c, w.threads[i]);
    }
    TakesEffect(c, s, call);
    CarriedUpdate(c, w.threads, i, w'.threads[i]);
    CancelOne(Next(c, s, StepOf(call)).inFlight, AllCarried(c, w'.threads), Carried(c, w.threads[i]), s.inFlight,
        Carried(c, w'.threads[i]));
  }

  lemma CancelOne(a: multiset<InFlight>, b: multiset<InFlight>, x: multiset<InFlight>, d: multiset<InFlight>,
      y: multiset<InFlight>)
    requires a + x == d + y && b + x == d + y
    ensures a == b
  {
    forall r ensures a[r] == b[r] {
      assert (a + x)[r] == (b + x)[r];
    }
  }

  // ---- one statement of one thread ----

  /** The atomic state, after the effect if there is one, explains `w`. */
  ghost predicate Explained(c: Config, w: World, s: Sys, effect: Option<Call>) {
    if effect.None? then Explains(c, w, s)
    else Enabled(s, StepOf(effect.value)) && Explains(c, w, Next(c, s, StepOf(effect.value)))
  }

  lemma SimulateRead(c: Config, w: World, s: Sys, i: nat)
    requires Inv(c, s) && Explains(c, w, s) && Possible(w, ReadTicket(i))
    ensures Explained(c, Make(c, w, ReadTicket(i)), s, Effect(c, w, ReadTicket(i)))
  {
    hide Next, CountersOk, RejectionsOk;
    var w' := Make(c, w, ReadTicket(i));
    assert forall j :: 0 <= j < |w.threads| && j != i ==> w'.threads[j] == w.threads[j];
    assert w.core.closedTicket == s.core.closedTicket;
    if w.core.closedTicket.Some? {
      Seen(c, w, s, w', i, AdmitCall(0.0));
    } else {
      Unseen(c, w, s, w', i);
    }
  }

  lemma SimulateLock(c: Config, w: World, s: Sys, i: nat, now: real, slot: int, openedAt: real)
    requires Inv(c, s) && Explains(c, w, s) && Possible(w, TakeLock(i, now, slot, openedAt))
    ensures Explained(c, Make(c, w, TakeLock(i, now, slot, openedAt)), s, Effect(c, w, TakeLock(i, now, slot, openedAt)))
  {
    hide Atomic, Next, Inv;
    var w' := Make(c, w, TakeLock(i, now, slot, openedAt));
    var call := CallOf(w.threads[i], now, slot, openedAt);
    assert forall j :: 0 <= j < |w.threads| && j != i ==> w'.threads[j] == w.threads[j];
    FinishIsAtomic(c, call, w.core);
    ProgramPublishesOnce(c, call, w.core);
    if Silent(ProgramOf(c, call, w.core)) {
      SilentKeepsTicket(c, ProgramOf(c, call, w.core), Frame(w.core, None, []));
      EffectTicketOk(c, w, s, i, call);
      Seen(c, w, s, w', i, call);
    } else {
      Unseen(c, w, s, w', i);
    }
  }

  /** A silent program leaves the state and the ticket as they are. */
  lemma {:induction false} SilentKeepsTicket(c: Config, p: Program, f: Frame)
    requires Silent(p)
    ensures Finish(c, p, f).core.closedTicket == f.core.closedTicket && Finish(c, p, f).core.state == f.core.state
  {
    match p {
      case Return(_) =>
      case Do(write, next) => SilentKeepsTicket(c, next, Apply(write, f));
      case If(test, yes, no) => if Holds(c, test, f.core) { SilentKeepsTicket(c, yes, f); } else { SilentKeepsTicket(c, no, f); }
    }
  }

  lemma EffectTicketOk(c: Config, w: World, s: Sys, i: nat, call: Call)
    requires Inv(c, s) && Explains(c, w, s) && i < |w.threads|
    requires Ticket(c, w.threads[i]) == if call.RecordCall? then Some(call.ticket) else None
    ensures call.RecordCall? ==> call.ticket >= 0
    ensures var answer := Atomic(c, call, s.core).answer; answer.Admitted? ==> answer.ticket >= 0
  {
    hide Next, Inv, Atomic;
    CarriedMember(c, w.threads, i);
    if call.RecordCall? {
      assert InFlight(call.ticket, call.ticket / 2) in Carried(c, w.threads[i]);
    }
    TakesEffect(c, s, call);
  }

  lemma SimulateTick(c: Config, w: World, s: Sys, i: nat)
    requires Inv(c, s) && Explains(c, w, s) && Possible(w, Tick(i))
    ensures Explained(c, Make(c, w, Tick(i)), s, Effect(c, w, Tick(i)))
  {
    hide Atomic, Next, Inv;
    var t, w' := w.threads[i], Make(c, w, Tick(i));
    assert w.lock == Some(i);
    assert forall j :: 0 <= j < |w.threads| && j != i ==> w'.threads[j] == w.threads[j];
    if t.rest.Return? {
      Unseen(c, w, s, w', i);
    } else {
      var t' := w'.threads[i];
      TickOnTrack(c, w, i);
      if Silent(t'.rest) && !Silent(t.rest) {
        EffectTicketOk(c, w, s, i, t.call);
        Seen(c, w, s, w', i, t.call);
      } else {
        Unseen(c, w, s, w', i);
      }
    }
  }

  /** A statement inside the lock keeps the critical section on track, and a silent one stays silent. */
  lemma TickOnTrack(c: Config, w: World, i: nat)
    requires WorldOk(c, w) && i < |w.threads| && w.threads[i].Inside? && !w.threads[i].rest.Return?
    ensures var t, w' := w.threads[i], TickOf(c, w, i);
            var t' := w'.threads[i];
            && t'.Inside? && t'.call == t.call && t'.before == t.before && w'.lock == w.lock
            && OnTrack(c, w'.core, t')
            && (Silent(t.rest) ==> Silent(t'.rest))
  {
    hide Atomic;
    var t, w' := w.threads[i], TickOf(c, w, i);
    var t' := w'.threads[i];
    assert w.lock == Some(i);
    if t.rest.Do? {
      if t.rest.write.PublishTicket? {
      } else {
        assert w'.core.closedTicket == w.core.closedTicket;
      }
      SilentPublishes(t.rest);
    }
    if Silent(t'.rest) {
      SilentKeepsTicket(c, t'.rest, Frame(w'.core, t'.noted, t'.taken));
      SilentPublishesOnce(t'.rest);
    }
  }

  lemma SilentPublishes(p: Program)
    requires PublishesOnce(p) && p.Do?
    ensures p.write.PublishTicket? ==> Silent(p.next)
    ensures !p.write.PublishTicket? ==> PublishesOnce(p.next)
    ensures p.write.WriteState? || p.write.BumpEpoch? ==> MidMove(p.next)
  {
  }

  /** What other threads and the atomic machine see as the circuit's state changes only when `closed_ticket` is written. */
  lemma TransitionAtTicketWrite(c: Config, w: World, s: Sys, m: Move)
    requires Inv(c, s) && Explains(c, w, s) && Possible(w, m)
    requires Visible(c, Make(c, w, m)).state != Visible(c, w).state
    ensures m.Tick? && w.threads[m.i].rest.Do? && w.threads[m.i].rest.write == PublishTicket
  {
    match m {
      case ReadTicket(_) =>
      case Respond(_, _) =>
      case TakeLock(i, now, slot, openedAt) =>
        var call := CallOf(w.threads[i], now, slot, openedAt);
        FinishIsAtomic(c, call, w.core);
        SilentKeepsIfSilent(c, ProgramOf(c, call, w.core), Frame(w.core, None, []));
      case Tick(i) =>
        assert w.lock == Some(i);
        if !w.threads[i].rest.Return? {
          TickOnTrack(c, w, i);
          var t' := TickOf(c, w, i).threads[i];
          SilentKeepsIfSilent(c, t'.rest, Frame(TickOf(c, w, i).core, t'.noted, t'.taken));
        }
    }
  }

  lemma SilentKeepsIfSilent(c: Config, p: Program, f: Frame)
    ensures Silent(p) ==> Finish(c, p, f).core.state == f.core.state
  {
    if Silent(p) {
      SilentKeepsTicket(c, p, f);
    }
  }

  lemma SimulateRespond(c: Config, w: World, s: Sys, i: nat, outcome: Outcome)
    requires Inv(c, s) && Explains(c, w, s) && Possible(w, Respond(i, outcome))
    ensures Explained(c, Make(c, w, Respond(i, outcome)), s, Effect(c, w, Respond(i, outcome)))
  {
    hide Inv;
    var w' := Make(c, w, Respond(i, outcome));
    assert forall j :: 0 <= j < |w.threads| && j != i ==> w'.threads[j] == w.threads[j];
    Unseen(c, w, s, w', i);
  }

  /** What the atomic machine answers to the call that takes effect at `m`. */
  ghost predicate AnswersAs(c: Config, w: World, s: Sys, m: Move, call: Call)
    requires Possible(w, m)
  {
    var reply, t := Answered(c, s, StepOf(call)), w.threads[m.i];
    if m.ReadTicket? then w.core.closedTicket.Some? && reply == Reply(s.core, Admitted(w.core.closedTicket.value), [])
    else reply == Atomic(c, call, if t.Inside? then t.before else w.core)
  }

  /**
    Each statement of each thread is no step of the atomic breaker, or the step of the call
    that takes effect there: an unlocked read is given the ticket it read, and a critical
    section what the atomic call gives on the fields it was entered with.
   */
  lemma Simulate(c: Config, w: World, s: Sys, m: Move)
    requires Inv(c, s) && Explains(c, w, s) && Possible(w, m)
    ensures Explained(c, Make(c, w, m), s, Effect(c, w, m))
    ensures Effect(c, w, m).Some? ==> AnswersAs(c, w, s, m, Effect(c, w, m).value)
  {
    hide Inv, Atomic, Admit, Record, Answered, Next, OnTrack;
    match m {
      case ReadTicket(i) => SimulateRead(c, w, s, i);
      case TakeLock(i, now, slot, openedAt) => SimulateLock(c, w, s, i, now, slot, openedAt);
      case Tick(i) => SimulateTick(c, w, s, i);
      case Respond(i, outcome) => SimulateRespond(c, w, s, i, outcome);
    }
    EffectAnswers(c, w, s, m);
  }

  lemma EffectAnswers(c: Config, w: World, s: Sys, m: Move)
    requires Explains(c, w, s) && Possible(w, m)
    ensures Effect(c, w, m).Some? ==> AnswersAs(c, w, s, m, Effect(c, w, m).value)
  {
    hide Record, Finish, Silent, ProgramOf;
    if m.Tick? {
      assert w.lock == Some(m.i);
    }
  }

  // ---- whole runs ----

  ghost predicate Start(w: World) {
    w.core == FRESH && w.lock == None && forall i :: 0 <= i < |w.threads| ==> w.threads[i] == Idle
  }

  /** `worlds` is a run: each world after the first is one statement of one thread later. */
  ghost predicate Interleaving(c: Config, worlds: seq<World>, moves: seq<Move>) {
    && |worlds| == |moves| + 1 && Start(worlds[0])
    && forall k :: 0 <= k < |moves| ==> Possible(worlds[k], moves[k]) && worlds[k + 1] == Make(c, worlds[k], moves[k])
  }

  lemma {:induction false} NothingCarried(c: Config, ts: seq<Thread>)
    requires forall i :: 0 <= i < |ts| ==> ts[i] == Idle
    ensures AllCarried(c, ts) == multiset{}
  {
    if ts != [] {
      NothingCarried(c, ts[1..]);
    }
  }

  predicate Timed(worlds: seq<World>, moves: seq<Move>, k: int) {
    |worlds| == |moves| + 1 && 0 <= k <= |moves|
  }

  /** The run of the atomic breaker that explains `worlds[k]`: the calls that took effect by then, in order. */
  function Run(c: Config, worlds: seq<World>, moves: seq<Move>, k: nat): seq<Step>
    requires Timed(worlds, moves, k)
  {
    if k == 0 then []
    else
      var effect := Effect(c, worlds[k - 1], moves[k - 1]);
      Run(c, worlds, moves, k - 1) + if effect.Some? then [StepOf(effect.value)] else []
  }

  lemma {:induction false} RunExplains(c: Config, worlds: seq<World>, moves: seq<Move>, k: nat)
    requires Interleaving(c, worlds, moves) && k <= |moves|
    ensures var s := After(c, Run(c, worlds, moves, k)); Inv(c, s) && Explains(c, worlds[k], s)
    ensures Legal(c, Run(c, worlds, moves, k))
  {
    hide Explains, Explained, Inv, After, Legal, Next, Enabled, Effect, Make;
    if k == 0 {
      StartExplains(c, worlds[0]);
    } else {
      RunExplains(c, worlds, moves, k - 1);
      RunStep(c, worlds[k - 1], moves[k - 1], Run(c, worlds, moves, k - 1));
      assert worlds[k - 1 + 1] == Make(c, worlds[k - 1], moves[k - 1]);
    }
  }

  lemma StartExplains(c: Config, w: World)
    requires Start(w)
    ensures Legal(c, []) && Inv(c, After(c, [])) && Explains(c, w, After(c, []))
  {
    NothingCarried(c, w.threads);
    ReachableStart(c);
    ReachableInv(c, START);
  }

  lemma RunStep(c: Config, w: World, m: Move, steps: seq<Step>)
    requires Legal(c, steps) && Inv(c, After(c, steps)) && Explains(c, w, After(c, steps)) && Possible(w, m)
    ensures var effect := Effect(c, w, m);
            var more := steps + if effect.Some? then [StepOf(effect.value)] else [];
            Legal(c, more) && Inv(c, After(c, more)) && Explains(c, Make(c, w, m), After(c, more))
  {
    hide Explains, Inv, Next, Enabled, Effect, Make;
    var effect := Effect(c, w, m);
    Simulate(c, w, After(c, steps), m);
    if effect.Some? {
      var step := StepOf(effect.value);
      AfterAppend(c, steps, step);
      InvKept(c, After(c, steps), step);
    } else {
      assert steps + [] == steps;
    }
  }

  lemma {:induction false} RunGrows(c: Config, worlds: seq<World>, moves: seq<Move>, k: nat, l: nat)
    requires Timed(worlds, moves, l) && k <= l
    ensures Run(c, worlds, moves, k) <= Run(c, worlds, moves, l)
  {
    hide Effect;
    if k < l {
      RunGrows(c, worlds, moves, k, l - 1);
    }
  }

  // ---- calls, from start to return ----

  /** What a call gives its thread. */
  datatype Given = Given(answer: Answer, taken: seq<Event>)

  /** What the call that returns with move `m` gives, if one does. */
  function Returned(w: World, m: Move): Option<Given> {
    if !Possible(w, m) then None
    else if m.ReadTicket? && w.core.closedTicket.Some? then Some(Given(Admitted(w.core.closedTicket.value), []))
    else if m.Tick? && w.threads[m.i].rest.Return? then
      Some(Given(AnswerOf(w.threads[m.i].rest.result, w.core), w.threads[m.i].taken))
    else None
  }

  function CallReturned(w: World, m: Move): Call
    requires Returned(w, m).Some?
  {
    if m.ReadTicket? then AdmitCall(0.0) else w.threads[m.i].call
  }

  /** An admission starts with the unlocked read, whether or not it finds a ticket; a recording when the response is there. */
  predicate Starts(m: Move) {
    m.ReadTicket? || m.Respond?
  }

  /** The last move before `k` with which thread `i` started a call. */
  function LastStart(moves: seq<Move>, i: nat, k: nat): (b: int)
    requires k <= |moves|
    ensures -1 <= b < k && (b >= 0 ==> moves[b].i == i && Starts(moves[b]))
  {
    if k == 0 then -1
    else if moves[k - 1].i == i && Starts(moves[k - 1]) then k - 1
    else LastStart(moves, i, k - 1)
  }

  /** The last move before `k` at which a call of thread `i` took effect. */
  function LastEffect(c: Config, worlds: seq<World>, moves: seq<Move>, i: nat, k: nat): (j: int)
    requires Timed(worlds, moves, k)
    ensures -1 <= j < k && (j >= 0 ==> moves[j].i == i && Effect(c, worlds[j], moves[j]).Some?)
  {
    if k == 0 then -1
    else if moves[k - 1].i == i && Effect(c, worlds[k - 1], moves[k - 1]).Some? then k - 1
    else LastEffect(c, worlds, moves, i, k - 1)
  }

  /** What the atomic machine answered to the call that took effect at move `j`. */
  function ReplyAt(c: Config, worlds: seq<World>, moves: seq<Move>, j: nat): Reply
    requires Timed(worlds, moves, j) && j < |moves| && Effect(c, worlds[j], moves[j]).Some?
  {
    Answered(c, After(c, Run(c, worlds, moves, j)), StepOf(Effect(c, worlds[j], moves[j]).value))
  }

  /**
    How far thread `i`'s present call is: it has not taken effect since it started, or it
    has, and the atomic machine said how it will end.
   */
  ghost predicate Owed(c: Config, worlds: seq<World>, moves: seq<Move>, i: nat, k: nat)
    requires Timed(worlds, moves, k)
  {
    i < |worlds[k].threads| ==>
      var t, b, j := worlds[k].threads[i], LastStart(moves, i, k), LastEffect(c, worlds, moves, i, k);
      && (t.Missed? || t.Finished? || t.Inside? ==> b >= 0)
      && (t.Missed? || t.Finished? || (t.Inside? && !Silent(t.rest)) ==> j < b)
      && (t.Inside? && Silent(t.rest) ==>
            && j >= b && Effect(c, worlds[j], moves[j]) == Some(t.call)
            && ReplyAt(c, worlds, moves, j) == Atomic(c, t.call, t.before))
  }

  lemma {:induction false} CallsOwed(c: Config, worlds: seq<World>, moves: seq<Move>, i: nat, k: nat)
    requires Interleaving(c, worlds, moves) && k <= |moves|
    ensures Owed(c, worlds, moves, i, k)
  {
    hide Silent, Explains, Atomic, After, Legal, Run, Inv, Make, Possible, Effect, Answered;
    if k > 0 {
      var w, m := worlds[k - 1], moves[k - 1];
      CallsOwed(c, worlds, moves, i, k - 1);
      assert worlds[k - 1 + 1] == Make(c, w, m) && Possible(w, m);
      if m.i == i {
        RunExplains(c, worlds, moves, k - 1);
        OwnMove(c, worlds, moves, k - 1);
      } else {
        OthersStay(c, w, m);
      }
    }
  }

  lemma OthersStay(c: Config, w: World, m: Move)
    requires Possible(w, m)
    ensures |Make(c, w, m).threads| == |w.threads|
    ensures forall i :: 0 <= i < |w.threads| && i != m.i ==> Make(c, w, m).threads[i] == w.threads[i]
  {
    hide Effect, ProgramOf, Apply, Holds;
  }

  /** How the moving thread's call goes on, and when it takes effect. */
  lemma ThreadMoves(c: Config, w: World, m: Move)
    requires WorldOk(c, w) && Possible(w, m)
    ensures var t, t', effect := w.threads[m.i], Make(c, w, m).threads[m.i], Effect(c, w, m);
            if Starts(m) then !t'.Inside? && (t'.Missed? || t'.Finished? ==> effect.None?)
            else if m.TakeLock? then
              !t.Inside? && (t.Missed? || t.Finished?) && t'.Inside? && t'.before == w.core
              && effect == if Silent(t'.rest) then Some(t'.call) else None
            else if t.rest.Return? then (t'.Running? || t'.Idle?) && effect.None?
            else
              && t'.Inside? && t'.call == t.call && t'.before == t.before && (Silent(t.rest) ==> Silent(t'.rest))
              && effect == if Silent(t'.rest) && !Silent(t.rest) then Some(t.call) else None
  {
    hide Silent, Atomic, AnswerOf, Finish, ProgramOf, OnTrack;
    if m.Tick? && !w.threads[m.i].rest.Return? {
      TickOnTrack(c, w, m.i);
    }
  }

  lemma OwnMove(c: Config, worlds: seq<World>, moves: seq<Move>, k: nat)
    requires Interleaving(c, worlds, moves) && k < |moves| && Owed(c, worlds, moves, moves[k].i, k)
    requires var s := After(c, Run(c, worlds, moves, k)); Inv(c, s) && Explains(c, worlds[k], s)
    ensures Owed(c, worlds, moves, moves[k].i, k + 1)
  {
    hide Silent, Atomic, After, Run, Inv, Answered, WorldOk, Make, Effect, Next;
    var w, m := worlds[k], moves[k];
    assert worlds[k + 1] == Make(c, w, m) && Possible(w, m);
    Simulate(c, w, After(c, Run(c, worlds, moves, k)), m);
    ThreadMoves(c, w, m);
  }

  // ---- every call that returns ----

  predicate Returns(worlds: seq<World>, moves: seq<Move>, k: nat)
    requires Timed(worlds, moves, k)
  {
    k < |moves| && Returned(worlds[k], moves[k]).Some?
  }

  /** The move at which the call that returns with move `k` took effect. */
  function TookEffect(c: Config, worlds: seq<World>, moves: seq<Move>, k: nat): int
    requires Timed(worlds, moves, k) && Returns(worlds, moves, k)
  {
    LastEffect(c, worlds, moves, moves[k].i, k + 1)
  }

  /**
    The call that returned with move `k` took effect between its start and its return, and
    was given there, by the atomic machine, the answer and the events its thread got.
   */
  lemma ReturnsAtomicAnswer(c: Config, worlds: seq<World>, moves: seq<Move>, k: nat)
    requires Interleaving(c, worlds, moves) && k < |moves| && Returns(worlds, moves, k)
    ensures var b, j := LastStart(moves, moves[k].i, k + 1), TookEffect(c, worlds, moves, k);
            && 0 <= b <= j <= k
            && Effect(c, worlds[j], moves[j]) == Some(CallReturned(worlds[k], moves[k]))
            && Given(ReplyAt(c, worlds, moves, j).answer, ReplyAt(c, worlds, moves, j).events)
                == Returned(worlds[k], moves[k]).value
  {
    hide Silent, Atomic, After, Run, Inv, Answered, ProgramOf, Explained, Next;
    var w, m, s := worlds[k], moves[k], After(c, Run(c, worlds, moves, k));
    assert Possible(w, m);
    RunExplains(c, worlds, moves, k);
    if m.ReadTicket? {
      Simulate(c, w, s, m);
    } else {
      CallsOwed(c, worlds, moves, m.i, k);
      assert w.lock == Some(m.i);
      ReturnIsSilent(w.threads[m.i].rest);
    }
  }

  lemma ReturnIsSilent(p: Program)
    requires p.Return?
    ensures Silent(p)
  {
  }

  /** Where in the run the call that returned with move `k` stands. */
  function Place(c: Config, worlds: seq<World>, moves: seq<Move>, k: nat): int
    requires Timed(worlds, moves, k) && Returns(worlds, moves, k)
  {
    var j := TookEffect(c, worlds, moves, k);
    if j < 0 then -1 else |Run(c, worlds, moves, j)|
  }

  /**
    The call that returned with move `k` stands in the run after its start and before its
    return, and there the atomic machine answers as its thread was told.
   */
  ghost predicate Settled(c: Config, worlds: seq<World>, moves: seq<Move>, k: nat)
    requires Timed(worlds, moves, k) && Returns(worlds, moves, k)
  {
    var b, n, run := LastStart(moves, moves[k].i, k + 1), Place(c, worlds, moves, k), Run(c, worlds, moves, |moves|);
    && 0 <= b
    && |Run(c, worlds, moves, b)| <= n < |Run(c, worlds, moves, k + 1)| <= |run|
    && run[n] == StepOf(CallReturned(worlds[k], moves[k]))
    && var reply := Answered(c, After(c, run[..n]), run[n]);
       Given(reply.answer, reply.events) == Returned(worlds[k], moves[k]).value
  }

  lemma EffectPlace(c: Config, worlds: seq<World>, moves: seq<Move>, j: nat, k: nat)
    requires Timed(worlds, moves, k) && j < k && Effect(c, worlds[j], moves[j]).Some?
    ensures var n, run := |Run(c, worlds, moves, j)|, Run(c, worlds, moves, k);
            n < |run| && run[..n] == Run(c, worlds, moves, j) && run[n] == StepOf(Effect(c, worlds[j], moves[j]).value)
  {
    hide Effect, StepOf;
    RunGrows(c, worlds, moves, j + 1, k);
  }

  lemma ReturnSettles(c: Config, worlds: seq<World>, moves: seq<Move>, k: nat)
    requires Interleaving(c, worlds, moves) && k < |moves| && Returns(worlds, moves, k)
    ensures Settled(c, worlds, moves, k)
  {
    hide Effect, StepOf, Answered, After, Run, Returned, CallReturned;
    ReturnsAtomicAnswer(c, worlds, moves, k);
    var b, j := LastStart(moves, moves[k].i, k + 1), TookEffect(c, worlds, moves, k);
    RunGrows(c, worlds, moves, b, j);
    RunGrows(c, worlds, moves, k + 1, |moves|);
    EffectPlace(c, worlds, moves, j, k + 1);
    EffectPlace(c, worlds, moves, j, |moves|);
  }

  /** A thread that is in a call after an earlier one returned has started anew. */
  lemma {:induction false} StartsAnew(c: Config, worlds: seq<World>, moves: seq<Move>, k: nat, l: nat)
    requires Interleaving(c, worlds, moves) && k < l <= |moves| && Returns(worlds, moves, k)
    ensures moves[k].i < |worlds[l].threads|
    ensures var t := worlds[l].threads[moves[k].i];
            t.Missed? || t.Finished? || t.Inside? ==> LastStart(moves, moves[k].i, l) > k
  {
    hide Silent, Make, Effect, Explains, Explained, Answered, AnswerOf, Inv, After, Run;
    var w, m := worlds[l - 1], moves[l - 1];
    assert worlds[l - 1 + 1] == Make(c, w, m) && Possible(w, m);
    WorldsOk(c, worlds, moves, l - 1);
    OthersStay(c, w, m);
    ThreadMoves(c, w, m);
    if m.ReadTicket? && Returned(w, m).Some? {
      ReadReturns(c, w, m);
    }
    if k < l - 1 {
      StartsAnew(c, worlds, moves, k, l - 1);
    }
  }

  lemma ReadReturns(c: Config, w: World, m: Move)
    requires Possible(w, m) && m.ReadTicket? && Returned(w, m).Some?
    ensures Make(c, w, m).threads[m.i].Running?
  {
  }

  lemma WorldsOk(c: Config, worlds: seq<World>, moves: seq<Move>, k: nat)
    requires Interleaving(c, worlds, moves) && k <= |moves|
    ensures WorldOk(c, worlds[k])
  {
    RunExplains(c, worlds, moves, k);
  }

  lemma StartedAfter(c: Config, worlds: seq<World>, moves: seq<Move>, k: nat, l: nat)
    requires Interleaving(c, worlds, moves) && k < l < |moves| && Returns(worlds, moves, k) && Returns(worlds, moves, l)
    requires moves[k].i == moves[l].i
    ensures LastStart(moves, moves[l].i, l + 1) > k
  {
    hide Make, WorldOk;
    StartsAnew(c, worlds, moves, k, l);
    assert Possible(worlds[l], moves[l]);
  }

  /** No two calls share their place in the run. */
  lemma OwnPlace(c: Config, worlds: seq<World>, moves: seq<Move>, k: nat, l: nat)
    requires Interleaving(c, worlds, moves) && k < l < |moves| && Returns(worlds, moves, k) && Returns(worlds, moves, l)
    ensures Place(c, worlds, moves, k) != Place(c, worlds, moves, l)
  {
    hide Effect, StepOf, Answered, After, Run, Returned, CallReturned;
    ReturnsAtomicAnswer(c, worlds, moves, k);
    ReturnsAtomicAnswer(c, worlds, moves, l);
    var i, j := TookEffect(c, worlds, moves, k), TookEffect(c, worlds, moves, l);
    if moves[k].i == moves[l].i {
      StartedAfter(c, worlds, moves, k, l);
    }
    if i < j {
      EffectPlace(c, worlds, moves, i, j);
    } else {
      EffectPlace(c, worlds, moves, j, i);
    }
  }

  // ---- the events, in order of effect ----

  /** The first move from `j` on with which a call of thread `i` returns, or `|moves|`. */
  function NextReturn(worlds: seq<World>, moves: seq<Move>, i: nat, j: nat): (k: nat)
    requires Timed(worlds, moves, j)
    ensures j <= k <= |moves| && (k < |moves| ==> moves[k].i == i && Returns(worlds, moves, k))
    ensures forall l :: j <= l < k && Returns(worlds, moves, l) ==> moves[l].i != i
    decreases |moves| - j
  {
    if j == |moves| || (moves[j].i == i && Returns(worlds, moves, j)) then j else NextReturn(worlds, moves, i, j + 1)
  }

  /** The events handed to the thread whose call took effect at move `j`. */
  function TakenFrom(c: Config, worlds: seq<World>, moves: seq<Move>, j: nat): seq<Event>
    requires Timed(worlds, moves, j) && j < |moves|
  {
    var k := NextReturn(worlds, moves, moves[j].i, j);
    if Effect(c, worlds[j], moves[j]).None? || k == |moves| then [] else Returned(worlds[k], moves[k]).value.taken
  }

  /** The events threads were handed by the calls that took effect before `k`, in order of effect. */
  function Takings(c: Config, worlds: seq<World>, moves: seq<Move>, k: nat): seq<Event>
    requires Timed(worlds, moves, k)
  {
    if k == 0 then [] else Takings(c, worlds, moves, k - 1) + TakenFrom(c, worlds, moves, k - 1)
  }

  /**
    Between taking effect and returning, a call is the last of its thread to have taken
    effect, and its thread is in the lock.
   */
  lemma {:induction false} StaysInside(c: Config, worlds: seq<World>, moves: seq<Move>, j: nat, k: nat)
    requires Interleaving(c, worlds, moves) && j < k <= |moves| && Effect(c, worlds[j], moves[j]).Some?
    requires forall l :: j <= l < k && Returns(worlds, moves, l) ==> moves[l].i != moves[j].i
    ensures var i := moves[j].i;
            && i < |worlds[k].threads| && worlds[k].threads[i].Inside? && Silent(worlds[k].threads[i].rest)
            && LastEffect(c, worlds, moves, i, k) == j
  {
    hide Silent, Make, Explains, Explained, Answered, AnswerOf, Inv, After, Run, WorldOk;
    var w, m := worlds[k - 1], moves[k - 1];
    assert worlds[k - 1 + 1] == Make(c, w, m) && Possible(w, m);
    assert Returns(worlds, moves, k - 1) ==> m.i != moves[j].i;
    WorldsOk(c, worlds, moves, k - 1);
    OthersStay(c, w, m);
    ThreadMoves(c, w, m);
    if j < k - 1 {
      StaysInside(c, worlds, moves, j, k - 1);
    }
  }

  lemma TakenIsReplied(c: Config, worlds: seq<World>, moves: seq<Move>, j: nat)
    requires Interleaving(c, worlds, moves) && j < |moves| && Effect(c, worlds[j], moves[j]).Some?
    requires worlds[|moves|].lock.None?
    ensures TakenFrom(c, worlds, moves, j) == ReplyAt(c, worlds, moves, j).events
  {
    hide Silent, Make, Effect, Explains, Answered, Inv, After, Run, Returned, CallReturned;
    var i := moves[j].i;
    var k := NextReturn(worlds, moves, i, j);
    if k == |moves| {
      StaysInside(c, worlds, moves, j, k);
      WorldsOk(c, worlds, moves, k);
      assert false;
    } else {
      if j < k {
        StaysInside(c, worlds, moves, j, k);
        InsideReturns(c, worlds[k], moves[k]);
      }
      ReturnsAtomicAnswer(c, worlds, moves, k);
    }
  }

  /** A return from inside the lock is no effect of its own. */
  lemma InsideReturns(c: Config, w: World, m: Move)
    requires Possible(w, m) && w.threads[m.i].Inside? && Returned(w, m).Some?
    ensures Effect(c, w, m).None?
  {
  }

  /** With nobody in the lock, the atomic machine handed over, in order, exactly what the threads took. */
  lemma {:induction false} EventsInOrder(c: Config, worlds: seq<World>, moves: seq<Move>, k: nat)
    requires Interleaving(c, worlds, moves) && k <= |moves| && worlds[|moves|].lock.None?
    ensures After(c, Run(c, worlds, moves, k)).events == Takings(c, worlds, moves, k)
  {
    hide Effect, StepOf, Answered, TakenFrom;
    if k > 0 {
      EventsInOrder(c, worlds, moves, k - 1);
      var before, effect := Run(c, worlds, moves, k - 1), Effect(c, worlds[k - 1], moves[k - 1]);
      if effect.Some? {
        TakenIsReplied(c, worlds, moves, k - 1);
        AfterAppend(c, before, StepOf(effect.value));
      } else {
        NothingTaken(c, worlds, moves, k - 1);
        assert before + [] == before;
      }
    }
  }

  lemma NothingTaken(c: Config, worlds: seq<World>, moves: seq<Move>, j: nat)
    requires Timed(worlds, moves, j) && j < |moves| && Effect(c, worlds[j], moves[j]).None?
    ensures TakenFrom(c, worlds, moves, j) == []
  {
  }

  /**
    Every interleaving of any number of threads is a run of the atomic breaker: the run so
    far explains each world, and only grows; each call that returned has a place of its own
    in it, between its start and its return, and was answered and handed events as the
    atomic machine does there; and the machine's events are the threads' takings, in order.
   */
  lemma Linearizable(c: Config, worlds: seq<World>, moves: seq<Move>)
    requires Interleaving(c, worlds, moves)
    ensures forall k :: 0 <= k <= |moves| ==>
              Legal(c, Run(c, worlds, moves, k)) && Explains(c, worlds[k], After(c, Run(c, worlds, moves, k)))
    ensures forall k, l :: 0 <= k <= l <= |moves| ==> Run(c, worlds, moves, k) <= Run(c, worlds, moves, l)
    ensures forall k :: 0 <= k < |moves| && Returns(worlds, moves, k) ==> Settled(c, worlds, moves, k)
    ensures forall k, l :: 0 <= k < l < |moves| && Returns(worlds, moves, k) && Returns(worlds, moves, l) ==>
              Place(c, worlds, moves, k) != Place(c, worlds, moves, l)
    ensures worlds[|moves|].lock.None? ==> After(c, Run(c, worlds, moves, |moves|)).events == Takings(c, worlds, moves, |moves|)
  {
    hide Explains, Settled, Legal, After, Run, Takings, Returns, Place;
    forall k | 0 <= k <= |moves|
      ensures Legal(c, Run(c, worlds, moves, k)) && Explains(c, worlds[k], After(c, Run(c, worlds, moves, k)))
    {
      RunExplains(c, worlds, moves, k);
    }
    forall k, l | 0 <= k <= l <= |moves|
      ensures Run(c, worlds, moves, k) <= Run(c, worlds, moves, l)
    {
      RunGrows(c, worlds, moves, k, l);
    }
    forall k | 0 <= k < |moves| && Returns(worlds, moves, k)
      ensures Settled(c, worlds, moves, k)
    {
      ReturnSettles(c, worlds, moves, k);
    }
    forall k, l | 0 <= k < l < |moves| && Returns(worlds, moves, k) && Returns(worlds, moves, l)
      ensures Place(c, worlds, moves, k) != Place(c, worlds, moves, l)
    {
      OwnPlace(c, worlds, moves, k, l);
    }
    if worlds[|moves|].lock.None? {
      EventsInOrder(c, worlds, moves, |moves|);
    }
  }

  /** However the threads interleave, no two of them ever run a probe at once. */
  lemma OneProbeThread(c: Config, worlds: seq<World>, moves: seq<Move>, i: nat, j: nat)
    requires Interleaving(c, worlds, moves)
    requires var ts := worlds[|moves|].threads;
             && i < |ts| && j < |ts|
             && (ts[i].Running? || ts[i].Finished?) && ts[i].ticket % 2 == 1
             && (ts[j].Running? || ts[j].Finished?) && ts[j].ticket % 2 == 1
    ensures i == j
  {
    hide TicketsOk, CountersOk, RejectionsOk, Explains, After, Run;
    RunExplains(c, worlds, moves, |moves|);
    OneProbeCarried(c, worlds[|moves|], After(c, Run(c, worlds, moves, |moves|)), i, j);
  }

  lemma OneProbeCarried(c: Config, w: World, s: Sys, i: nat, j: nat)
    requires TicketsOk(s) && Explains(c, w, s) && i < |w.threads| && j < |w.threads|
    requires Ticket(c, w.threads[i]).Some? && Ticket(c, w.threads[i]).value % 2 == 1
    requires Ticket(c, w.threads[j]).Some? && Ticket(c, w.threads[j]).value % 2 == 1
    ensures i == j
  {
    hide TicketsOk, Visible, OnTrack, Atomic;
    var a := ProbeIsCurrent(c, w, s, i);
    var _ := ProbeIsCurrent(c, w, s, j);
    if i != j {
      CarriedTwice(c, w.threads, if i < j then i else j, if i < j then j else i, a);
    }
  }

  /** A thread's odd ticket is the current probe's, and in flight once. */
  lemma ProbeIsCurrent(c: Config, w: World, s: Sys, i: nat) returns (r: InFlight)
    requires TicketsOk(s) && Explains(c, w, s) && i < |w.threads|
    requires Ticket(c, w.threads[i]).Some? && Ticket(c, w.threads[i]).value % 2 == 1
    ensures r in Carried(c, w.threads[i]) && r == InFlight(s.core.epoch + 1, s.era) && AllCarried(c, w.threads)[r] <= 1
  {
    hide Visible, OnTrack, Atomic, AllCarried, Ticket;
    var a := Ticket(c, w.threads[i]).value;
    CarriedMember(c, w.threads, i);
    r := InFlight(a, a / 2);
    assert r in Carried(c, w.threads[i]);
    assert TicketOk(s, r);
  }

  lemma {:induction false} CarriedTwice(c: Config, ts: seq<Thread>, i: nat, j: nat, r: InFlight)
    requires i < j < |ts| && r in Carried(c, ts[i]) && r in Carried(c, ts[j])
    ensures AllCarried(c, ts)[r] >= 2
  {
    if i == 0 {
      CarriedMember(c, ts[1..], j - 1);
    } else {
      CarriedTwice(c, ts[1..], i - 1, j - 1, r);
    }
  }
}
