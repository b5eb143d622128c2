/**
  The synchronous breaker as threads run it: admission reads `closed_ticket` without the
  lock, and every assignment inside the lock is a step of its own, so other threads may
  read between any two of them.
 */
module BreakerThreads {
  import opened Options
  import opened RingLog
  import opened BreakerCore

  // ---- critical sections, statement by statement ----

  datatype Write =
    | WriteState(state: CircuitState)
    | BumpEpoch
    | PublishTicket
    | WriteProbe(inFlight: bool)
    | BumpFailures
    | ClearFailures
    | BumpSuccesses
    | ClearSuccesses
    | WriteOpenedAt(at: real)
    | WriteEmittedAt(emittedAt: Option<real>)
    | BumpSuppressed
    | ClearSuppressed
    | BumpRejections
    | ClearRejections
    | FileOutcome(slot: int, failed: bool)
    | LookAtWindow(slot: int)
    | ClearWindow
    | Note(kind: Noted)
    | QueueNoted
    | TakeEvents

  /** Which event the next `QueueNoted` appends; its attributes are read when it is noted. */
  datatype Noted =
    | NoteOpened
    | NoteProbeFailed
    | NoteOpenedByRate
    | NoteHalfOpened
    | NoteRejected(retryAfter: Option<real>)
    | NoteClosed

  datatype Test =
    | TicketPublished
    | InState(state: CircuitState)
    | Cooling(now: real)
    | ProbeBusy
    | EmittedRecently(now: real)
    | TicketIsEpoch(ticket: int)
    | TicketIsProbe(ticket: int)
    | FailuresReached
    | SuccessesReached
    | RateReached

  datatype Result = PublishedTicket | ProbeTicket | CircuitOpen(retryAfter: Option<real>) | Done

  datatype Program =
    | Return(result: Result)
    | Do(write: Write, next: Program)
    | If(test: Test, yes: Program, no: Program)

  /** The shared fields together with the running thread's own `noted` event and the events it has taken. */
  datatype Frame = Frame(core: Core, noted: Option<Event>, taken: seq<Event>)

  function EventOf(kind: Noted, s: Core): Event {
    match kind
    case NoteOpened => Opened(s.failures)
    case NoteProbeFailed => Opened(1)
    case NoteOpenedByRate => OpenedByRate(Live(s.window, false) + Live(s.window, true), Live(s.window, true))
    case NoteHalfOpened => HalfOpened
    case NoteRejected(retryAfter) => Rejected(retryAfter, s.suppressed)
    case NoteClosed => Closed(s.rejections)
  }

  function Apply(write: Write, f: Frame): Frame {
    var s := f.core;
    match write
    case WriteState(state) => f.(core := s.(state := state))
    case BumpEpoch => f.(core := s.(epoch := s.epoch + 2))
    case PublishTicket => f.(core := s.(closedTicket := if s.state == CLOSED then Some(s.epoch) else None))
    case WriteProbe(inFlight) => f.(core := s.(probeInFlight := inFlight))
    case BumpFailures => f.(core := s.(failures := s.failures + 1))
    case ClearFailures => f.(core := s.(failures := 0))
    case BumpSuccesses => f.(core := s.(successes := s.successes + 1))
    case ClearSuccesses => f.(core := s.(successes := 0))
    case WriteOpenedAt(at) => f.(core := s.(openedAt := at))
    case WriteEmittedAt(emittedAt) => f.(core := s.(emittedAt := emittedAt))
    case BumpSuppressed => f.(core := s.(suppressed := s.suppressed + 1))
    case ClearSuppressed => f.(core := s.(suppressed := 0))
    case BumpRejections => f.(core := s.(rejections := s.rejections + 1))
    case ClearRejections => f.(core := s.(rejections := 0))
    case FileOutcome(slot, failed) => f.(core := s.(window := s.window + [Log(slot, failed)]))
    case LookAtWindow(slot) => f.(core := s.(window := s.window + [Look(slot)]))
    case ClearWindow => f.(core := s.(window := s.window + [RingLog.Clear]))
    case Note(kind) => f.(noted := Some(EventOf(kind, s)))
    case QueueNoted => f.(core := s.(queue := if f.noted.Some? then s.queue + [f.noted.value] else s.queue), noted := None)
    case TakeEvents => Frame(s.(queue := []), f.noted, s.queue)
  }

  predicate Holds(c: Config, test: Test, s: Core) {
    match test
    case TicketPublished => s.closedTicket.Some?
    case InState(state) => s.state == state
    case Cooling(now) => now - s.openedAt < c.resetTimeout
    case ProbeBusy => s.probeInFlight
    case EmittedRecently(now) => TooSoon(s, now)
    case TicketIsEpoch(ticket) => ticket == s.epoch
    case TicketIsProbe(ticket) => ticket == s.epoch + 1
    case FailuresReached => s.failures >= c.failureThreshold
    case SuccessesReached => s.successes >= c.successThreshold
    case RateReached => c.rate.Some? && TripsRate(c.rate.value, s.window)
  }

  function AnswerOf(result: Result, s: Core): Answer {
    match result
    case PublishedTicket => if s.closedTicket.Some? then Admitted(s.closedTicket.value) else Recorded
    case ProbeTicket => Admitted(s.epoch + 1)
    case CircuitOpen(retryAfter) => Refused(retryAfter)
    case Done => Recorded
  }

  /** The whole program with nothing in between. */
  function Finish(c: Config, p: Program, f: Frame): Reply {
    match p
    case Return(result) => Reply(f.core, AnswerOf(result, f.core), f.taken)
    case Do(write, next) => Finish(c, next, Apply(write, f))
    case If(test, yes, no) => if Holds(c, test, f.core) then Finish(c, yes, f) else Finish(c, no, f)
  }

  function MoveToProgram(state: CircuitState, next: Program): Program {
    Do(WriteState(state), Do(BumpEpoch, Do(PublishTicket, next)))
  }

  function TakeAnd(result: Result): Program {
    Do(TakeEvents, Return(result))
  }

  function RejectProgram(now: real, retryAfter: Option<real>): Program {
    Do(BumpRejections,
       If(EmittedRecently(now),
          Do(BumpSuppressed, Return(CircuitOpen(retryAfter))),
          Do(WriteEmittedAt(Some(now)),
             Do(Note(NoteRejected(retryAfter)), Do(ClearSuppressed, Do(QueueNoted, TakeAnd(CircuitOpen(retryAfter))))))))
  }

  /** `remaining` is the wait an OPEN circuit reports; it is computed from fields only lock holders write. */
  function AdmitProgram(now: real, remaining: real): Program {
    If(TicketPublished, Return(PublishedTicket),
       If(InState(OPEN),
          If(Cooling(now), RejectProgram(now, Some(remaining)),
             MoveToProgram(HALF_OPEN, Do(WriteProbe(true), Do(Note(NoteHalfOpened), Do(QueueNoted, TakeAnd(ProbeTicket)))))),
          If(ProbeBusy, RejectProgram(now, None),
             Do(WriteProbe(true), Return(ProbeTicket)))))
  }

  function EnterOpenRest(openedAt: real): Program {
    MoveToProgram(OPEN, Do(WriteOpenedAt(openedAt), Do(ClearFailures, Do(ClearSuccesses, Do(QueueNoted, TakeAnd(Done))))))
  }

  function EnterOpenProgram(openedAt: real, kind: Noted): Program {
    Do(Note(kind),
       If(InState(CLOSED),
          Do(WriteEmittedAt(None), Do(ClearSuppressed, Do(ClearRejections, EnterOpenRest(openedAt)))),
          EnterOpenRest(openedAt)))
  }

  function RateTail(openedAt: real): Program {
    If(RateReached, EnterOpenProgram(openedAt, NoteOpenedByRate), TakeAnd(Done))
  }

  function RecordClosedProgram(c: Config, failed: bool, slot: int, openedAt: real): Program {
    if c.rate.Some? then
      Do(FileOutcome(slot, failed), Do(LookAtWindow(slot), RateTail(openedAt)))
    else if failed then
      Do(BumpFailures, If(FailuresReached, EnterOpenProgram(openedAt, NoteOpened), TakeAnd(Done)))
    else TakeAnd(Done)
  }

  function ProbeSuccessProgram(c: Config): Program {
    var queue := Do(Note(NoteClosed), Do(QueueNoted, TakeAnd(Done)));
    Do(BumpSuccesses,
       If(SuccessesReached,
          MoveToProgram(CLOSED,
            Do(ClearFailures, Do(ClearSuccesses, if c.rate.Some? then Do(ClearWindow, queue) else queue))),
          TakeAnd(Done)))
  }

  function ClosedBranch(c: Config, outcome: Outcome, slot: int, openedAt: real): Program {
    if outcome == SUCCESS && c.rate.None? then Do(ClearFailures, TakeAnd(Done))
    else if outcome != FOREIGN then RecordClosedProgram(c, outcome == FAILURE, slot, openedAt)
    else TakeAnd(Done)
  }

  function ProbeBranch(c: Config, outcome: Outcome, openedAt: real): Program {
    Do(WriteProbe(false),
       if outcome == SUCCESS then ProbeSuccessProgram(c)
       else if outcome == FAILURE then EnterOpenProgram(openedAt, NoteProbeFailed)
       else TakeAnd(Done))
  }

  function RecordProgram(c: Config, ticket: int, outcome: Outcome, slot: int, openedAt: real): Program {
    If(TicketIsEpoch(ticket), ClosedBranch(c, outcome, slot, openedAt),
       If(TicketIsProbe(ticket), ProbeBranch(c, outcome, openedAt), TakeAnd(Done)))
  }

  datatype Call = AdmitCall(now: real) | RecordCall(ticket: int, outcome: Outcome, slot: int, openedAt: real)

  function ProgramOf(c: Config, call: Call, s: Core): Program {
    match call
    case AdmitCall(now) => AdmitProgram(now, Remaining(c, s, now))
    case RecordCall(ticket, outcome, slot, openedAt) => RecordProgram(c, ticket, outcome, slot, openedAt)
  }

  function Atomic(c: Config, call: Call, s: Core): Reply {
    match call
    case AdmitCall(now) => Admit(c, s, now)
    case RecordCall(ticket, outcome, slot, openedAt) => Record(c, s, ticket, outcome, slot, openedAt)
  }

  // ---- the programs do what the atomic breaker does ----

  lemma FinishMoveTo(c: Config, state: CircuitState, next: Program, f: Frame)
    ensures Finish(c, MoveToProgram(state, next), f) == Finish(c, next, f.(core := MoveTo(f.core, state)))
  {
    var f1 := Apply(WriteState(state), f);
    assert Finish(c, Do(BumpEpoch, Do(PublishTicket, next)), f1) == Finish(c, Do(PublishTicket, next), Apply(BumpEpoch, f1));
  }

  lemma FinishTake(c: Config, result: Result, f: Frame)
    ensures Finish(c, TakeAnd(result), f) == Reply(f.core.(queue := []), AnswerOf(result, f.core.(queue := [])), f.core.queue)
  {
  }

  lemma FinishQueue(c: Config, event: Event, result: Result, f: Frame)
    requires f.noted == Some(event)
    ensures Finish(c, Do(QueueNoted, TakeAnd(result)), f)
         == var s := f.core.(queue := []); Reply(s, AnswerOf(result, s), f.core.queue + [event])
  {
    FinishTake(c, result, Apply(QueueNoted, f));
  }

  lemma FinishReject(c: Config, now: real, retryAfter: Option<real>, f: Frame)
    requires f.taken == []
    ensures Finish(c, RejectProgram(now, retryAfter), f) == Reject(f.core, now, retryAfter)
  {
    var f1 := Apply(BumpRejections, f);
    var soon := Do(BumpSuppressed, Return(CircuitOpen(retryAfter)));
    var rest := Do(QueueNoted, TakeAnd(CircuitOpen(retryAfter)));
    var noted := Do(Note(NoteRejected(retryAfter)), Do(ClearSuppressed, rest));
    var late := Do(WriteEmittedAt(Some(now)), noted);
    assert Finish(c, RejectProgram(now, retryAfter), f) == Finish(c, If(EmittedRecently(now), soon, late), f1);
    if TooSoon(f1.core, now) {
      assert Finish(c, soon, f1) == Finish(c, Return(CircuitOpen(retryAfter)), Apply(BumpSuppressed, f1));
    } else {
      var f2 := Apply(WriteEmittedAt(Some(now)), f1);
      var f3 := Apply(Note(NoteRejected(retryAfter)), f2);
      var f4 := Apply(ClearSuppressed, f3);
      assert Finish(c, late, f1) == Finish(c, noted, f2) == Finish(c, Do(ClearSuppressed, rest), f3) == Finish(c, rest, f4);
      FinishQueue(c, Rejected(retryAfter, f1.core.suppressed), CircuitOpen(retryAfter), f4);
    }
  }

  lemma FinishHalfOpen(c: Config, f: Frame)
    ensures Finish(c, MoveToProgram(HALF_OPEN, Do(WriteProbe(true),
        Do(Note(NoteHalfOpened), Do(QueueNoted, TakeAnd(ProbeTicket))))), f)
         == var s := MoveTo(f.core, HALF_OPEN);
            Take(s.(probeInFlight := true, queue := s.queue + [HalfOpened]), Admitted(s.epoch + 1))
  {
    var queue := Do(QueueNoted, TakeAnd(ProbeTicket));
    var next := Do(WriteProbe(true), Do(Note(NoteHalfOpened), queue));
    FinishMoveTo(c, HALF_OPEN, next, f);
    var f1 := f.(core := MoveTo(f.core, HALF_OPEN));
    var f2 := Apply(WriteProbe(true), f1);
    var f3 := Apply(Note(NoteHalfOpened), f2);
    assert Finish(c, next, f1) == Finish(c, Do(Note(NoteHalfOpened), queue), f2) == Finish(c, queue, f3);
    FinishQueue(c, HalfOpened, ProbeTicket, f3);
  }

  lemma FinishAdmit(c: Config, now: real, f: Frame)
    requires f.taken == []
    ensures Finish(c, AdmitProgram(now, Remaining(c, f.core, now)), f) == Admit(c, f.core, now)
  {
    var s, remaining := f.core, Remaining(c, f.core, now);
    var probe := Do(WriteProbe(true), Do(Note(NoteHalfOpened), Do(QueueNoted, TakeAnd(ProbeTicket))));
    var open := If(Cooling(now), RejectProgram(now, Some(remaining)), MoveToProgram(HALF_OPEN, probe));
    var half := If(ProbeBusy, RejectProgram(now, None), Do(WriteProbe(true), Return(ProbeTicket)));
    assert AdmitProgram(now, remaining) == If(TicketPublished, Return(PublishedTicket), If(InState(OPEN), open, half));
    if s.closedTicket.None? {
      assert Finish(c, AdmitProgram(now, remaining), f) == Finish(c, If(InState(OPEN), open, half), f);
      if s.state == OPEN {
        assert Finish(c, If(InState(OPEN), open, half), f) == Finish(c, open, f);
        FinishReject(c, now, Some(remaining), f);
        FinishHalfOpen(c, f);
      } else {
        assert Finish(c, If(InState(OPEN), open, half), f) == Finish(c, half, f);
        FinishReject(c, now, None, f);
        assert Finish(c, Do(WriteProbe(true), Return(ProbeTicket)), f)
            == Finish(c, Return(ProbeTicket), Apply(WriteProbe(true), f));
      }
    }
  }

  lemma FinishEnterOpenRest(c: Config, openedAt: real, event: Event, f: Frame)
    requires f.noted == Some(event)
    ensures Finish(c, EnterOpenRest(openedAt), f)
         == Take(MoveTo(f.core, OPEN).(openedAt := openedAt, failures := 0, successes := 0,
                                       queue := f.core.queue + [event]), Recorded)
  {
    var p3 := Do(QueueNoted, TakeAnd(Done));
    var p2 := Do(ClearSuccesses, p3);
    var p1 := Do(ClearFailures, p2);
    var p0 := Do(WriteOpenedAt(openedAt), p1);
    FinishMoveTo(c, OPEN, p0, f);
    var f0 := f.(core := MoveTo(f.core, OPEN));
    var f1 := Apply(WriteOpenedAt(openedAt), f0);
    var f2 := Apply(ClearFailures, f1);
    var f3 := Apply(ClearSuccesses, f2);
    assert Finish(c, p0, f0) == Finish(c, p1, f1) == Finish(c, p2, f2) == Finish(c, p3, f3);
    FinishQueue(c, event, Done, f3);
  }

  lemma FinishEnterOpen(c: Config, openedAt: real, kind: Noted, f: Frame)
    ensures Finish(c, EnterOpenProgram(openedAt, kind), f) == Take(EnterOpen(f.core, openedAt, EventOf(kind, f.core)), Recorded)
  {
    var event := EventOf(kind, f.core);
    var f1 := Apply(Note(kind), f);
    if f.core.state == CLOSED {
      var p2 := Do(ClearRejections, EnterOpenRest(openedAt));
      var p1 := Do(ClearSuppressed, p2);
      var f2 := Apply(WriteEmittedAt(None), f1);
      var f3 := Apply(ClearSuppressed, f2);
      var f4 := Apply(ClearRejections, f3);
      assert Finish(c, Do(WriteEmittedAt(None), p1), f1) == Finish(c, p1, f2) == Finish(c, p2, f3)
          == Finish(c, EnterOpenRest(openedAt), f4);
      FinishEnterOpenRest(c, openedAt, event, f4);
    } else {
      FinishEnterOpenRest(c, openedAt, event, f1);
    }
  }

  lemma FinishRateTail(c: Config, openedAt: real, f: Frame)
    requires c.rate.Some?
    ensures Finish(c, RateTail(openedAt), f)
         == Take(if Holds(c, RateReached, f.core) then EnterOpen(f.core, openedAt, EventOf(NoteOpenedByRate, f.core))
             else f.core, Recorded)
  {
    FinishEnterOpen(c, openedAt, NoteOpenedByRate, f);
    FinishTake(c, Done, f);
  }

  lemma OutcomeThenTail(c: Config, failed: bool, slot: int, openedAt: real, s: Core, s': Core)
    requires c.rate.Some?
    requires s' == s.(window := s.window + [Log(slot, failed)] + [Look(slot)])
    ensures RecordOutcome(c, s, failed, slot, openedAt)
         == if Holds(c, RateReached, s') then EnterOpen(s', openedAt, EventOf(NoteOpenedByRate, s')) else s'
  {
  }

  lemma FinishRecordByRate(c: Config, failed: bool, slot: int, openedAt: real, f: Frame)
    requires c.rate.Some?
    ensures Finish(c, RecordClosedProgram(c, failed, slot, openedAt), f)
        == Take(RecordOutcome(c, f.core, failed, slot, openedAt), Recorded)
  {
    var rest := RateTail(openedAt);
    var f1 := Apply(FileOutcome(slot, failed), f);
    var f2 := Apply(LookAtWindow(slot), f1);
    assert Finish(c, Do(FileOutcome(slot, failed), Do(LookAtWindow(slot), rest)), f)
        == Finish(c, Do(LookAtWindow(slot), rest), f1) == Finish(c, rest, f2);
    FinishRateTail(c, openedAt, f2);
    OutcomeThenTail(c, failed, slot, openedAt, f.core, f2.core);
  }

  lemma FinishRecordClosed(c: Config, failed: bool, slot: int, openedAt: real, f: Frame)
    ensures Finish(c, RecordClosedProgram(c, failed, slot, openedAt), f)
        == Take(RecordClosed(c, f.core, failed, slot, openedAt), Recorded)
  {
    if c.rate.Some? {
      FinishRecordByRate(c, failed, slot, openedAt, f);
    } else if failed {
      var f1 := Apply(BumpFailures, f);
      assert Finish(c, RecordClosedProgram(c, failed, slot, openedAt), f)
          == Finish(c, If(FailuresReached, EnterOpenProgram(openedAt, NoteOpened), TakeAnd(Done)), f1);
      FinishEnterOpen(c, openedAt, NoteOpened, f1);
      FinishTake(c, Done, f1);
    } else {
      FinishTake(c, Done, f);
    }
  }

  lemma FinishClose(c: Config, f: Frame)
    ensures var queue := Do(Note(NoteClosed), Do(QueueNoted, TakeAnd(Done)));
            var p := Do(ClearFailures, Do(ClearSuccesses, if c.rate.Some? then Do(ClearWindow, queue) else queue));
            Finish(c, p, f)
            == var s := f.core.(failures := 0, successes := 0);
               var s := if c.rate.Some? then s.(window := s.window + [RingLog.Clear]) else s;
               Take(s.(queue := s.queue + [Closed(s.rejections)]), Recorded)
  {
    var queue := Do(QueueNoted, TakeAnd(Done));
    var noted := Do(Note(NoteClosed), queue);
    var cleared := if c.rate.Some? then Do(ClearWindow, noted) else noted;
    var p1 := Do(ClearSuccesses, cleared);
    var f3 := Apply(ClearFailures, f);
    var f4 := Apply(ClearSuccesses, f3);
    var f5 := if c.rate.Some? then Apply(ClearWindow, f4) else f4;
    var f6 := Apply(Note(NoteClosed), f5);
    assert Finish(c, Do(ClearFailures, p1), f) == Finish(c, p1, f3) == Finish(c, cleared, f4) == Finish(c, noted, f5)
        == Finish(c, queue, f6);
    FinishQueue(c, Closed(f.core.rejections), Done, f6);
  }

  lemma FinishProbeSuccess(c: Config, f: Frame)
    ensures Finish(c, ProbeSuccessProgram(c), f) == Take(RecordProbeSuccess(c, f.core), Recorded)
  {
    var f1 := Apply(BumpSuccesses, f);
    var queue := Do(Note(NoteClosed), Do(QueueNoted, TakeAnd(Done)));
    var p := Do(ClearFailures, Do(ClearSuccesses, if c.rate.Some? then Do(ClearWindow, queue) else queue));
    assert ProbeSuccessProgram(c) == Do(BumpSuccesses, If(SuccessesReached, MoveToProgram(CLOSED, p), TakeAnd(Done)));
    if f1.core.successes >= c.successThreshold {
      assert Finish(c, ProbeSuccessProgram(c), f) == Finish(c, MoveToProgram(CLOSED, p), f1);
      FinishMoveTo(c, CLOSED, p, f1);
      FinishClose(c, f1.(core := MoveTo(f1.core, CLOSED)));
    } else {
      assert Finish(c, ProbeSuccessProgram(c), f) == Finish(c, TakeAnd(Done), f1);
      FinishTake(c, Done, f1);
    }
  }

  lemma FinishClosedBranch(c: Config, ticket: int, outcome: Outcome, slot: int, openedAt: real, f: Frame)
    requires ticket == f.core.epoch
    ensures Finish(c, ClosedBranch(c, outcome, slot, openedAt), f) == Record(c, f.core, ticket, outcome, slot, openedAt)
  {
    FinishRecordClosed(c, outcome == FAILURE, slot, openedAt, f);
    FinishTake(c, Done, Apply(ClearFailures, f));
    FinishTake(c, Done, f);
  }

  lemma FinishProbeBranch(c: Config, ticket: int, outcome: Outcome, slot: int, openedAt: real, f: Frame)
    requires ticket == f.core.epoch + 1
    ensures Finish(c, ProbeBranch(c, outcome, openedAt), f) == Record(c, f.core, ticket, outcome, slot, openedAt)
  {
    var f1 := Apply(WriteProbe(false), f);
    FinishProbeSuccess(c, f1);
    FinishEnterOpen(c, openedAt, NoteProbeFailed, f1);
    FinishTake(c, Done, f1);
  }

  lemma FinishRecord(c: Config, ticket: int, outcome: Outcome, slot: int, openedAt: real, f: Frame)
    ensures Finish(c, RecordProgram(c, ticket, outcome, slot, openedAt), f) == Record(c, f.core, ticket, outcome, slot, openedAt)
  {
    if ticket == f.core.epoch {
      FinishClosedBranch(c, ticket, outcome, slot, openedAt, f);
    } else if ticket == f.core.epoch + 1 {
      FinishProbeBranch(c, ticket, outcome, slot, openedAt, f);
    } else {
      FinishTake(c, Done, f);
    }
  }

  /** A critical section run to its end from `s` is the atomic call on `s`. */
  lemma FinishIsAtomic(c: Config, call: Call, s: Core)
    ensures Finish(c, ProgramOf(c, call, s), Frame(s, None, [])) == Atomic(c, call, s)
  {
    match call {
      case AdmitCall(now) => FinishAdmit(c, now, Frame(s, None, []));
      case RecordCall(ticket, outcome, slot, openedAt) => FinishRecord(c, ticket, outcome, slot, openedAt, Frame(s, None, []));
    }
  }
}
