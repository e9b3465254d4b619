/** Callers and the one worker of the browser transport, exchanging commands over a queue. */
module BrowserQueue {
  import opened Wrappers
  import opened ProviderErrors

  const NON_RETRYABLE_OPERATIONS := {"click", "fill", "submit", "download", "upload"}

  datatype Command = Command(operation: string, session: string, deadline: real) {
    predicate Mutating() {
      operation in NON_RETRYABLE_OPERATIONS
    }
  }

  datatype Reply = Value | Error(code: Code)

  /** How a call ends for its caller. `Rejected` is the error for a full queue or a closed
      transport, `Abandoned` the caller's own timeout, `Answered` what the worker replied. */
  datatype Outcome = Rejected | Abandoned | Answered(reply: Reply)

  datatype Caller = Submitting | Waiting(until: real) | Leaving | Done(outcome: Outcome)

  /** One command: where its caller is, its cancelled flag, its response slot, and how often it
      has been taken from the queue, dispatched and answered. */
  datatype Ticket = Ticket(command: Command, caller: Caller, cancelled: bool, response: Option<Reply>,
                           takes: nat, dispatches: nat, answers: nat)

  datatype Worker =
    | Idle
    | Taken(id: nat)
    | Cleared(id: nat)
    | Dispatched(id: nat)
    | Returned(id: nat)
    | Answering(id: nat, reply: Reply)
    | Stopped

  // None on the queue tells the worker to stop.
  datatype System = System(now: real, tickets: map<nat, Ticket>, queue: seq<Option<nat>>, capacity: nat,
                           worker: Worker, contexts: set<string>, closed: bool)

  /** An exception while serving a command: a tool error, or one of the engine's own. */
  datatype Failure = Tool(code: Code) | Engine(timeoutNamed: bool, noExecutable: bool)

  /** Atomic steps of the callers, the worker, the clock, and closing; they may come in any order. */
  datatype Move =
    | Tick(to: real)
    | Call(id: nat, operation: string, session: string, timeout: real)
    | Put(id: nat)
    | PutTimesOut(id: nat)
    | Receive(id: nat)
    | WaitTimesOut(id: nat)
    | Leave(id: nat)
    | Close
    | Take
    | Check
    | StartFails(failure: Failure)
    | Dispatch
    | DispatchFails(failure: Failure)
    | DispatchReturns
    | Judge
    | Respond
    | Reap(session: string)
    | Stop
  {
    predicate ByCaller() {
      Call? || Put? || PutTimesOut? || Receive? || WaitTimesOut? || Leave?
    }
  }

  // The code the caller of an abandoned or rejected call is given.
  function CodeSeen(c: Command, o: Outcome): Option<Code> {
    match o
    case Rejected => Some(UNAVAILABLE)
    case Abandoned => Some(if c.Mutating() then SIDE_EFFECT_UNKNOWN else TIMEOUT)
    case Answered(Value) => None
    case Answered(Error(code)) => Some(code)
  }

  function TransportCode(f: Failure): Code {
    match f
    case Tool(code) => code
    case Engine(timeoutNamed, noExecutable) =>
      if timeoutNamed then TIMEOUT else if noExecutable then NOT_IMPLEMENTED else PROVIDER_ERROR
  }

  // A timeout of an interaction may have come after its effect.
  predicate Doubtful(c: Command, f: Failure) {
    c.Mutating() && TransportCode(f) == TIMEOUT
  }

  function CommandError(c: Command, f: Failure): Reply {
    Error(if Doubtful(c, f) then SIDE_EFFECT_UNKNOWN else TransportCode(f))
  }

  predicate Late(s: System, t: Ticket) {
    t.cancelled || s.now >= t.command.deadline
  }

  function Longer(a: real, b: real): real {
    if a < b then b else a
  }

  function Busy(s: System): Option<nat> {
    match s.worker
    case Idle => None
    case Stopped => None
    case _ => Some(s.worker.id)
  }

  function With(s: System, id: nat, t: Ticket): System {
    s.(tickets := s.tickets[id := t])
  }

  // ---- steps of a caller ----

  function CallerStep(s: System, m: Move): System
    requires m.ByCaller()
  {
    if m.Call? then
      if m.id in s.tickets then s
      else
        var c := Command(m.operation, m.session, s.now + Longer(0.001, m.timeout));
        With(s, m.id, Ticket(c, if s.closed then Done(Rejected) else Submitting, false, None, 0, 0, 0))
    else if m.id !in s.tickets then s
    else
      var t := s.tickets[m.id];
      match m
      case Put(id) =>
        if !t.caller.Submitting? || |s.queue| >= s.capacity then s
        else With(s, id, t.(caller := Waiting(s.now + Longer(0.001, t.command.deadline - s.now) + 0.05)))
             .(queue := s.queue + [Some(id)])
      case PutTimesOut(id) =>
        if !t.caller.Submitting? || |s.queue| < s.capacity || s.now < t.command.deadline then s
        else With(s, id, t.(caller := Done(Rejected), cancelled := true))
      case Receive(id) =>
        if !t.caller.Waiting? || t.response.None? then s
        else With(s, id, t.(caller := Done(Answered(t.response.value)), response := None))
      case WaitTimesOut(id) =>
        if !t.caller.Waiting? || t.response.Some? || s.now < t.caller.until then s
        else With(s, id, t.(caller := Leaving))
      case Leave(id) =>
        if !t.caller.Leaving? then s else With(s, id, t.(caller := Done(Abandoned), cancelled := true))
      case Call(_, _, _, _) => s
  }

  // ---- steps of the worker ----

  function TakeNext(s: System): System {
    if !s.worker.Idle? || s.queue == [] then s
    else if s.queue[0].None? then s.(queue := s.queue[1..], worker := Stopped, contexts := {})
    else
      var id := s.queue[0].value;
      if id !in s.tickets then s
      else With(s, id, s.tickets[id].(takes := s.tickets[id].takes + 1)).(queue := s.queue[1..], worker := Taken(id))
  }

  // The worker's step on the command it holds.
  function Serve(s: System, id: nat, t: Ticket, m: Move): System {
    match m
    case Check =>
      if !s.worker.Taken? then s
      else if Late(s, t) then s.(worker := Answering(id, Error(TIMEOUT)))
      else s.(worker := Cleared(id))
    case StartFails(f) =>
      if !s.worker.Cleared? then s else Fail(s, id, t, f)
    case Dispatch =>
      if !s.worker.Cleared? then s
      else With(s, id, t.(dispatches := t.dispatches + 1))
           .(worker := Dispatched(id), contexts := s.contexts + {t.command.session})
    case DispatchFails(f) =>
      if !s.worker.Dispatched? then s else Fail(s, id, t, f)
    case DispatchReturns =>
      if !s.worker.Dispatched? then s else s.(worker := Returned(id))
    case Judge =>
      if !s.worker.Returned? then s
      else if t.command.Mutating() && Late(s, t) then
        s.(worker := Answering(id, Error(SIDE_EFFECT_UNKNOWN)), contexts := s.contexts - {t.command.session})
      else s.(worker := Answering(id, Value))
    case Respond =>
      // The slot takes one reply; it is never found full.
      if !s.worker.Answering? || t.response.Some? then s
      else With(s, id, t.(response := Some(s.worker.reply), answers := t.answers + 1)).(worker := Idle)
    case _ => s
  }

  function Fail(s: System, id: nat, t: Ticket, f: Failure): System {
    s.(worker := Answering(id, CommandError(t.command, f)),
       contexts := if Doubtful(t.command, f) then s.contexts - {t.command.session} else s.contexts)
  }

  function Step(s: System, m: Move): System {
    match m
    case Tick(to) => if to > s.now then s.(now := to) else s
    case Close =>
      if s.closed then s
      else s.(closed := true, queue := if |s.queue| < s.capacity then s.queue + [None] else s.queue)
    case Stop => if s.closed && s.worker.Idle? then s.(worker := Stopped, contexts := {}) else s
    case Reap(session) => s.(contexts := s.contexts - {session})
    case Take => TakeNext(s)
    case Call(_, _, _, _) => CallerStep(s, m)
    case Put(_) => CallerStep(s, m)
    case PutTimesOut(_) => CallerStep(s, m)
    case Receive(_) => CallerStep(s, m)
    case WaitTimesOut(_) => CallerStep(s, m)
    case Leave(_) => CallerStep(s, m)
    case _ =>
      if Busy(s).None? || Busy(s).value !in s.tickets then s
      else Serve(s, Busy(s).value, s.tickets[Busy(s).value], m)
  }

  function Initial(capacity: nat, now: real): System {
    System(now, map[], [], capacity, Idle, {}, false)
  }

  function Run(capacity: nat, now: real, ms: seq<Move>): System {
    if ms == [] then Initial(capacity, now) else Step(Run(capacity, now, ms[..|ms| - 1]), ms[|ms| - 1])
  }

  // ---- what every reachable state satisfies ----

  /** A reply tells the truth: a value was dispatched once; a clean timeout of an interaction was
      never dispatched. */
  predicate Truthful(t: Ticket, r: Reply) {
    && (r.Value? ==> t.dispatches == 1)
    && (r == Error(TIMEOUT) && t.command.Mutating() ==> t.dispatches == 0)
  }

  predicate Counted(t: Ticket, busy: bool) {
    && t.takes <= 1 && t.dispatches <= t.takes
    && (busy ==> t.takes == 1)
    && t.answers == (if busy then 0 else t.takes)
    && (t.response.Some? ==> t.answers == 1 && Truthful(t, t.response.value))
  }

  predicate CallerOk(t: Ticket, queued: bool) {
    match t.caller
    case Submitting => t.takes == 0 && !queued
    case Waiting(_) => t.answers == 1 ==> t.response.Some?
    case Leaving => true
    case Done(Rejected) => t.takes == 0 && !queued
    case Done(Abandoned) => true
    case Done(Answered(r)) => t.answers == 1 && Truthful(t, r)
  }

  predicate WorkerOk(w: Worker, t: Ticket) {
    match w
    case Taken(_) => t.dispatches == 0
    case Cleared(_) => t.dispatches == 0
    case Dispatched(_) => t.dispatches == 1
    case Returned(_) => t.dispatches == 1
    case Answering(_, r) => Truthful(t, r)
    case _ => true
  }

  predicate TicketOk(s: System, id: nat) {
    id in s.tickets ==>
      var t, queued, busy := s.tickets[id], Some(id) in s.queue, Busy(s) == Some(id);
      && Counted(t, busy) && CallerOk(t, queued)
      && (queued ==> t.takes == 0)
      && (busy ==> WorkerOk(s.worker, t))
  }

  predicate QueueOk(s: System) {
    && (forall i :: 0 <= i < |s.queue| && s.queue[i].Some? ==> s.queue[i].value in s.tickets)
    && (forall i, j :: 0 <= i < j < |s.queue| && s.queue[i].Some? ==> s.queue[i] != s.queue[j])
    && (Busy(s).Some? ==> Busy(s).value in s.tickets)
  }

  ghost predicate Inv(s: System) {
    QueueOk(s) && forall id: nat :: TicketOk(s, id)
  }

  lemma CallerStepKeepsQueue(s: System, m: Move)
    ensures m.ByCaller() && QueueOk(s) && TicketOk(s, m.id) ==> QueueOk(CallerStep(s, m))
  {
  }

  lemma CallerStepKeepsTicket(s: System, m: Move, id: nat)
    ensures m.ByCaller() && QueueOk(s) && TicketOk(s, id) ==> TicketOk(CallerStep(s, m), id)
  {
  }

  lemma TakeKeepsOk(s: System, id: nat)
    requires QueueOk(s) && TicketOk(s, id)
    ensures QueueOk(TakeNext(s)) && TicketOk(TakeNext(s), id)
  {
    if s.queue != [] {
      assert forall i :: 0 <= i < |s.queue[1..]| ==> s.queue[1..][i] == s.queue[i + 1];
    }
  }

  lemma ServeKeepsOk(s: System, m: Move, id: nat)
    requires QueueOk(s) && TicketOk(s, id) && Busy(s).Some?
    requires TicketOk(s, Busy(s).value)
    ensures var s' := Serve(s, Busy(s).value, s.tickets[Busy(s).value], m);
            QueueOk(s') && TicketOk(s', id)
  {
  }

  lemma StepKeepsInv(s: System, m: Move)
    requires Inv(s)
    ensures Inv(Step(s, m))
  {
    forall id: nat ensures QueueOk(Step(s, m)) && TicketOk(Step(s, m), id) {
      StepKeepsOk(s, m, id);
    }
    assert TicketOk(Step(s, m), 0);
  }

  lemma OutsideStepKeepsOk(s: System, m: Move, id: nat)
    ensures (m.Tick? || m.Close? || m.Stop? || m.Reap?) && QueueOk(s) && TicketOk(s, id) ==>
              QueueOk(Step(s, m)) && TicketOk(Step(s, m), id)
  {
    hide CallerStep, TakeNext, Serve;
  }

  lemma StepKeepsOk(s: System, m: Move, id: nat)
    requires Inv(s)
    ensures QueueOk(Step(s, m)) && TicketOk(Step(s, m), id)
  {
    assert QueueOk(s) && TicketOk(s, id);
    if m.ByCaller() {
      hide CallerStep, TakeNext, Serve, TicketOk, QueueOk;
      assert TicketOk(s, m.id);
      CallerStepKeepsQueue(s, m);
      CallerStepKeepsTicket(s, m, id);
    } else if m.Take? {
      hide CallerStep, TakeNext, Serve, TicketOk, QueueOk;
      TakeKeepsOk(s, id);
    } else if m.Tick? || m.Close? || m.Stop? || m.Reap? {
      hide CallerStep, TakeNext, Serve, TicketOk, QueueOk;
      OutsideStepKeepsOk(s, m, id);
    } else if Busy(s).Some? {
      hide CallerStep, TakeNext, Serve, TicketOk;
      assert TicketOk(s, Busy(s).value);
      ServeKeepsOk(s, m, id);
    }
  }

  lemma {:induction false} Reachable(capacity: nat, now: real, ms: seq<Move>)
    ensures Inv(Run(capacity, now, ms))
  {
    hide Step;
    if ms == [] {
    } else {
      Reachable(capacity, now, ms[..|ms| - 1]);
      StepKeepsInv(Run(capacity, now, ms[..|ms| - 1]), ms[|ms| - 1]);
    }
  }

  // ---- what a caller may conclude ----

  lemma DoneIsFinalStep(s: System, m: Move, id: nat)
    requires id in s.tickets
    ensures id in Step(s, m).tickets && Step(s, m).tickets[id].command == s.tickets[id].command
    ensures s.tickets[id].caller.Done? ==> Step(s, m).tickets[id].caller == s.tickets[id].caller
  {
  }

  /** Outcomes are final. */
  lemma {:induction false} DoneIsFinal(capacity: nat, now: real, ms: seq<Move>, n: nat, id: nat)
    requires n <= |ms| && id in Run(capacity, now, ms[..n]).tickets
    ensures var was, later := Run(capacity, now, ms[..n]).tickets[id], Run(capacity, now, ms);
            && id in later.tickets && later.tickets[id].command == was.command
            && (was.caller.Done? ==> later.tickets[id].caller == was.caller)
  {
    hide Step;
    if n == |ms| {
      assert ms[..n] == ms;
    } else {
      var last := |ms| - 1;
      assert ms[..last][..n] == ms[..n];
      DoneIsFinal(capacity, now, ms[..last], n, id);
      DoneIsFinalStep(Run(capacity, now, ms[..last]), ms[last], id);
    }
  }

  /** A caller of an interaction that sees TIMEOUT may conclude that the command was never
      dispatched and never will be; one that sees success, that it was dispatched exactly once,
      for good; one that was rejected, that it was never even taken. */
  lemma CodesTellTheTruth(capacity: nat, now: real, ms: seq<Move>, n: nat, id: nat)
    requires n <= |ms| && id in Run(capacity, now, ms[..n]).tickets
    requires Run(capacity, now, ms[..n]).tickets[id].caller.Done?
    ensures id in Run(capacity, now, ms).tickets
    ensures var t := Run(capacity, now, ms[..n]).tickets[id];
            var seen, dispatches := CodeSeen(t.command, t.caller.outcome), Run(capacity, now, ms).tickets[id].dispatches;
            && (t.command.Mutating() && seen == Some(TIMEOUT) ==> dispatches == 0)
            && (seen == None ==> dispatches == 1)
            && (t.caller.outcome == Rejected ==> dispatches == 0 && Run(capacity, now, ms).tickets[id].takes == 0)
  {
    hide Run, Step, QueueOk;
    DoneIsFinal(capacity, now, ms, n, id);
    Reachable(capacity, now, ms);
    assert TicketOk(Run(capacity, now, ms), id);
  }

  // ---- codes given without an answer from the worker ----

  ghost predicate QueuedAfter(capacity: nat, now: real, ms: seq<Move>, n: nat, id: nat) {
    n <= |ms| && Some(id) in Run(capacity, now, ms[..n]).queue
  }

  ghost predicate EverQueued(capacity: nat, now: real, ms: seq<Move>, id: nat) {
    exists n: nat :: QueuedAfter(capacity, now, ms, n, id)
  }

  lemma QueuedEarlier(capacity: nat, now: real, ms: seq<Move>, n: nat, id: nat)
    requires ms != []
    ensures n < |ms| ==> (QueuedAfter(capacity, now, ms, n, id) <==> QueuedAfter(capacity, now, ms[..|ms| - 1], n, id))
    ensures QueuedAfter(capacity, now, ms, |ms|, id) <==> Some(id) in Run(capacity, now, ms).queue
  {
    hide Run;
    assert ms[..|ms|] == ms;
    if n < |ms| {
      assert ms[..|ms| - 1][..n] == ms[..n];
    }
  }

  lemma QueuedNow(capacity: nat, now: real, ms: seq<Move>, id: nat)
    ensures Some(id) in Run(capacity, now, ms).queue ==> EverQueued(capacity, now, ms, id)
  {
    hide Run;
    assert ms[..|ms|] == ms;
    assert QueuedAfter(capacity, now, ms, |ms|, id) <==> Some(id) in Run(capacity, now, ms).queue;
  }

  lemma EverQueuedStep(capacity: nat, now: real, ms: seq<Move>, id: nat)
    requires ms != []
    ensures EverQueued(capacity, now, ms, id)
            <==> EverQueued(capacity, now, ms[..|ms| - 1], id) || Some(id) in Run(capacity, now, ms).queue
  {
    var fewer := ms[..|ms| - 1];
    QueuedEarlier(capacity, now, ms, |ms|, id);
    if EverQueued(capacity, now, ms, id) {
      var n: nat :| QueuedAfter(capacity, now, ms, n, id);
      QueuedEarlier(capacity, now, ms, n, id);
    }
    if EverQueued(capacity, now, fewer, id) {
      var n: nat :| QueuedAfter(capacity, now, fewer, n, id);
      QueuedEarlier(capacity, now, ms, n, id);
    }
    hide QueuedAfter, Run;
  }

  // The caller got its command into the queue.
  predicate GotIn(s: System, id: nat) {
    id in s.tickets && !s.tickets[id].caller.Submitting? && s.tickets[id].caller != Done(Rejected)
  }

  lemma GotInCaller(s: System, m: Move, id: nat)
    requires m.ByCaller()
    requires TicketOk(s, id) && (Some(id) in s.queue ==> GotIn(s, id))
    ensures GotIn(CallerStep(s, m), id) <==> GotIn(s, id) || Some(id) in CallerStep(s, m).queue
  {
    if m.id != id {
      hide TicketOk;
    }
  }

  lemma GotInTake(s: System, id: nat)
    requires Some(id) in s.queue ==> GotIn(s, id)
    ensures GotIn(TakeNext(s), id) <==> GotIn(s, id) || Some(id) in TakeNext(s).queue
  {
    assert s.queue != [] ==> forall x :: x in s.queue[1..] ==> x in s.queue;
  }

  lemma GotInServe(s: System, m: Move, id: nat)
    requires Busy(s).Some? && Busy(s).value in s.tickets && (Some(id) in s.queue ==> GotIn(s, id))
    ensures var s' := Serve(s, Busy(s).value, s.tickets[Busy(s).value], m);
            GotIn(s', id) <==> GotIn(s, id) || Some(id) in s'.queue
  {
  }

  lemma GotInStep(s: System, m: Move, id: nat)
    requires TicketOk(s, id) && (Some(id) in s.queue ==> GotIn(s, id))
    ensures GotIn(Step(s, m), id) <==> GotIn(s, id) || Some(id) in Step(s, m).queue
  {
    hide CallerStep, TakeNext, Serve, TicketOk;
    if m.ByCaller() {
      hide GotIn;
      GotInCaller(s, m, id);
    } else if m.Take? {
      hide GotIn;
      GotInTake(s, id);
    } else if !(m.Tick? || m.Close? || m.Stop? || m.Reap?) && Busy(s).Some? && Busy(s).value in s.tickets {
      hide GotIn;
      GotInServe(s, m, id);
    }
  }

  lemma {:induction false} QueuedExactlyWhen(capacity: nat, now: real, ms: seq<Move>, id: nat)
    ensures EverQueued(capacity, now, ms, id) <==> GotIn(Run(capacity, now, ms), id)
  {
    if ms == [] {
      assert forall n: nat :: !QueuedAfter(capacity, now, [], n, id);
    } else {
      var last := |ms| - 1;
      var s := Run(capacity, now, ms[..last]);
      QueuedExactlyWhen(capacity, now, ms[..last], id);
      EverQueuedStep(capacity, now, ms, id);
      Reachable(capacity, now, ms[..last]);
      assert TicketOk(s, id) && QueueOk(s);
      QueuedNow(capacity, now, ms[..last], id);
      hide EverQueued, Step, TicketOk, QueueOk, GotIn;
      GotInStep(s, ms[last], id);
    }
  }

  /** A caller that ends without an answer from the worker learns by its code whether its command ever
      entered the queue. UNAVAILABLE: it never did, and is not taken now or later. Otherwise, where it
      may have been dispatched or still be, an interaction is reported as SIDE_EFFECT_UNKNOWN, never
      as something that could be tried again; reading, which has no effect, as TIMEOUT. */
  lemma UnansweredCodes(capacity: nat, now: real, ms: seq<Move>, n: nat, id: nat)
    requires n <= |ms| && id in Run(capacity, now, ms[..n]).tickets
    requires var caller := Run(capacity, now, ms[..n]).tickets[id].caller; caller.Done? && !caller.outcome.Answered?
    ensures var t := Run(capacity, now, ms[..n]).tickets[id];
            CodeSeen(t.command, t.caller.outcome)
            == if !EverQueued(capacity, now, ms[..n], id) then Some(UNAVAILABLE)
               else if t.command.operation in {"click", "fill", "submit", "download", "upload"} then Some(SIDE_EFFECT_UNKNOWN)
               else Some(TIMEOUT)
    ensures !EverQueued(capacity, now, ms[..n], id) ==>
              !EverQueued(capacity, now, ms, id) && id in Run(capacity, now, ms).tickets
              && Run(capacity, now, ms).tickets[id].takes == Run(capacity, now, ms).tickets[id].dispatches == 0
  {
    hide Run, Step, EverQueued, QueueOk, TicketOk;
    QueuedExactlyWhen(capacity, now, ms[..n], id);
    QueuedExactlyWhen(capacity, now, ms, id);
    DoneIsFinal(capacity, now, ms, n, id);
    CodesTellTheTruth(capacity, now, ms, n, id);
  }

  // ---- codes the worker answers with ----

  // A failure that is reported with this code.
  predicate Causes(m: Move, code: Code) {
    (m.StartFails? || m.DispatchFails?)
    && (m.failure == Tool(code) || (m.failure.Engine? && code in {NOT_IMPLEMENTED, PROVIDER_ERROR}))
  }

  // The worker has answered, or is about to answer, a command with this code.
  predicate Reports(s: System, id: nat, code: Code) {
    || (id in s.tickets && (s.tickets[id].response == Some(Error(code)) || s.tickets[id].caller == Done(Answered(Error(code)))))
    || s.worker == Answering(id, Error(code))
  }

  lemma ReportsStep(s: System, m: Move, id: nat, code: Code)
    requires Reports(Step(s, m), id, code) && code !in {TIMEOUT, SIDE_EFFECT_UNKNOWN}
    ensures Reports(s, id, code) || Causes(m, code)
  {
  }

  /** Apart from the two codes for lateness and doubt, the worker invents no code: what it reports, a
      failure in the history caused. */
  lemma {:induction false} CodesHaveCauses(capacity: nat, now: real, ms: seq<Move>, id: nat, code: Code)
    requires Reports(Run(capacity, now, ms), id, code) && code !in {TIMEOUT, SIDE_EFFECT_UNKNOWN}
    ensures exists i :: 0 <= i < |ms| && Causes(ms[i], code)
  {
    hide Step, Reports, Causes;
    if ms == [] {
      NothingReported(capacity, now, id, code);
    } else {
      var last := |ms| - 1;
      ReportsStep(Run(capacity, now, ms[..last]), ms[last], id, code);
      if Reports(Run(capacity, now, ms[..last]), id, code) {
        CodesHaveCauses(capacity, now, ms[..last], id, code);
        var i :| 0 <= i < last && Causes(ms[..last][i], code);
        assert Causes(ms[i], code);
      }
    }
  }

  lemma NothingReported(capacity: nat, now: real, id: nat, code: Code)
    ensures !Reports(Run(capacity, now, []), id, code)
  {
  }

  /** A command is taken at most once, dispatched at most once, and answered exactly once when
      taken: after the worker is done with it, and not before. */
  lemma EveryTakenCommandIsAnsweredOnce(capacity: nat, now: real, ms: seq<Move>, id: nat)
    requires id in Run(capacity, now, ms).tickets
    ensures var s := Run(capacity, now, ms);
            var t := s.tickets[id];
            && t.takes <= 1 && t.dispatches <= t.takes
            && t.answers == if Busy(s) == Some(id) then 0 else t.takes
  {
    hide Run, Step, QueueOk;
    Reachable(capacity, now, ms);
    assert TicketOk(Run(capacity, now, ms), id);
  }

  /** Answering never waits: the response slot is free whenever the worker has a reply for it. */
  lemma AnsweringNeverBlocks(capacity: nat, now: real, ms: seq<Move>)
    requires Run(capacity, now, ms).worker.Answering?
    ensures var s := Run(capacity, now, ms);
            && Step(s, Respond).worker == Idle
            && s.worker.id in s.tickets
            && Step(s, Respond).tickets[s.worker.id].response == Some(s.worker.reply)
  {
    hide Run;
    Reachable(capacity, now, ms);
    var s := Run(capacity, now, ms);
    assert TicketOk(s, s.worker.id);
  }

  /** Serving an interaction never yields a clean TIMEOUT once it may have started; whenever its
      outcome is in doubt the whole session is closed before the reply is given. */
  lemma DoubtClosesTheSession(s: System, id: nat, t: Ticket, m: Move)
    requires Busy(s) == Some(id) && t.command.Mutating()
    requires s.worker.Cleared? || s.worker.Dispatched? || s.worker.Returned?
    ensures var s' := Serve(s, id, t, m);
            s'.worker.Answering? ==>
              && s'.worker.reply != Error(TIMEOUT)
              && (((m.StartFails? || m.DispatchFails?) && TransportCode(m.failure) == TIMEOUT) || (m.Judge? && Late(s, t))
                  ==> s'.worker.reply == Error(SIDE_EFFECT_UNKNOWN) && t.command.session !in s'.contexts)
  {
  }

  // ---- late commands are not started ----

  /** A caller waits past its deadline, by a small grace, before it gives up, and not longer. */
  predicate Patient(s: System, id: nat) {
    id in s.tickets ==>
      var t := s.tickets[id];
      && (t.caller.Waiting? ==>
            t.command.deadline + 0.05 <= t.caller.until <= Longer(t.command.deadline, s.now + 0.001) + 0.05)
      && (t.caller.Leaving? || t.caller == Done(Abandoned) ==> s.now >= t.command.deadline + 0.05)
  }

  lemma StepKeepsPatient(s: System, m: Move, id: nat)
    requires Patient(s, id)
    ensures Patient(Step(s, m), id)
  {
  }

  lemma {:induction false} CallersArePatient(capacity: nat, now: real, ms: seq<Move>, id: nat)
    ensures Patient(Run(capacity, now, ms), id)
  {
    hide Step;
    if ms == [] {
    } else {
      CallersArePatient(capacity, now, ms[..|ms| - 1], id);
      StepKeepsPatient(Run(capacity, now, ms[..|ms| - 1]), ms[|ms| - 1], id);
    }
  }

  /** Past its deadline or cancelled, and not yet let through to the browser. */
  predicate Missed(s: System, id: nat) {
    id in s.tickets && Late(s, s.tickets[id]) && s.tickets[id].dispatches == 0 && s.worker != Cleared(id)
  }

  lemma MissedIsForGoodStep(s: System, m: Move, id: nat)
    requires Missed(s, id)
    ensures Missed(Step(s, m), id)
  {
  }

  /** A command the worker has not let through by its deadline, or before it was cancelled, is
      never dispatched; once its caller has given up on it, that is settled. */
  lemma {:induction false} MissedIsForGood(capacity: nat, now: real, ms: seq<Move>, n: nat, id: nat)
    requires n <= |ms|
    requires var s := Run(capacity, now, ms[..n]);
             Missed(s, id) || (id in s.tickets && s.tickets[id].caller == Done(Abandoned)
                               && s.tickets[id].dispatches == 0 && s.worker != Cleared(id))
    ensures Missed(Run(capacity, now, ms), id)
    ensures Run(capacity, now, ms).tickets[id].dispatches == 0
  {
    hide Step;
    if n == |ms| {
      assert ms[..n] == ms;
      CallersArePatient(capacity, now, ms, id);
    } else {
      var last := |ms| - 1;
      assert ms[..last][..n] == ms[..n];
      MissedIsForGood(capacity, now, ms[..last], n, id);
      MissedIsForGoodStep(Run(capacity, now, ms[..last]), ms[last], id);
    }
  }

  // A command whose dispatch outlasts its caller's patience.
  function SlowCommand(operation: string): seq<Move> {
    [Call(0, operation, "s", 1.0), Put(0), Take, Check, Dispatch, Tick(2.0), WaitTimesOut(0), Leave(0)]
  }

  /** For every operation a caller can give up after the command was dispatched; an interaction is then
      reported as SIDE_EFFECT_UNKNOWN, anything else as TIMEOUT. */
  lemma GivingUpAfterDispatch(operation: string)
    ensures var t := Run(1, 0.0, SlowCommand(operation)).tickets;
            && 0 in t && t[0].command.operation == operation && t[0].caller.Done? && t[0].dispatches == 1
            && CodeSeen(t[0].command, t[0].caller.outcome)
               == Some(if operation in NON_RETRYABLE_OPERATIONS then SIDE_EFFECT_UNKNOWN else TIMEOUT)
  {
    hide Run, Step;
    var c, ms := Command(operation, "s", 1.0), SlowCommand(operation);
    SlowIsQueued(c);
    SlowIsDispatched(c);
    SlowIsAbandoned(c);
    RunStep(1, 0.0, ms, 0);
    RunStep(1, 0.0, ms, 1);
    RunStep(1, 0.0, ms, 2);
    RunStep(1, 0.0, ms, 3);
    RunStep(1, 0.0, ms, 4);
    RunStep(1, 0.0, ms, 5);
    RunStep(1, 0.0, ms, 6);
    RunStep(1, 0.0, ms, 7);
    assert ms[..8] == ms;
  }

  /** For every read-only operation a caller can see TIMEOUT after the command was dispatched. */
  lemma ReadTimeoutSaysNothing(operation: string)
    requires operation !in NON_RETRYABLE_OPERATIONS
    ensures var t := Run(1, 0.0, SlowCommand(operation)).tickets;
            && 0 in t && t[0].command.operation == operation
            && t[0].caller.Done? && CodeSeen(t[0].command, t[0].caller.outcome) == Some(TIMEOUT)
            && t[0].dispatches == 1
  {
    hide Run, CodeSeen;
    GivingUpAfterDispatch(operation);
  }

  // A command that is served at once.
  function PromptCommand(operation: string): seq<Move> {
    SlowCommand(operation)[..5] + [DispatchReturns, Judge, Respond, Receive(0)]
  }

  // The state once the command has been dispatched, or is about to be answered.
  function SlowBusy(c: Command, worker: Worker): System {
    System(0.0, map[0 := Ticket(c, Waiting(1.05), false, None, 1, 1, 0)], [], 1, worker, {"s"}, false)
  }

  lemma PromptIsJudged(c: Command)
    requires c == Command(c.operation, "s", 1.0)
    ensures Step(Step(SlowBusy(c, Dispatched(0)), DispatchReturns), Judge) == SlowBusy(c, Answering(0, Value))
  {
    hide TakeNext, CallerStep;
    assert Step(SlowBusy(c, Dispatched(0)), DispatchReturns) == SlowBusy(c, Returned(0));
  }

  lemma PromptIsAnswered(c: Command)
    requires c == Command(c.operation, "s", 1.0)
    ensures Step(Step(SlowBusy(c, Answering(0, Value)), Respond), Receive(0))
            == SlowBusy(c, Idle).(tickets := map[0 := Ticket(c, Done(Answered(Value)), false, None, 1, 1, 1)])
  {
    hide TakeNext;
    var s8 := SlowBusy(c, Idle).(tickets := map[0 := Ticket(c, Waiting(1.05), false, Some(Value), 1, 1, 1)]);
    assert Step(SlowBusy(c, Answering(0, Value)), Respond) == s8;
  }

  /** Every operation served at once succeeds, and its session stays open. */
  lemma PromptCallSucceeds(operation: string)
    ensures var s := Run(1, 0.0, PromptCommand(operation));
            && 0 in s.tickets && s.tickets[0].command.operation == operation && s.tickets[0].caller.Done?
            && CodeSeen(s.tickets[0].command, s.tickets[0].caller.outcome) == None
            && s.tickets[0].dispatches == 1 && s.contexts == {"s"}
  {
    hide Run, Step;
    var c, ms := Command(operation, "s", 1.0), PromptCommand(operation);
    SlowIsQueued(c);
    SlowIsDispatched(c);
    PromptIsJudged(c);
    PromptIsAnswered(c);
    RunStep(1, 0.0, ms, 0);
    RunStep(1, 0.0, ms, 1);
    RunStep(1, 0.0, ms, 2);
    RunStep(1, 0.0, ms, 3);
    RunStep(1, 0.0, ms, 4);
    RunStep(1, 0.0, ms, 5);
    RunStep(1, 0.0, ms, 6);
    RunStep(1, 0.0, ms, 7);
    RunStep(1, 0.0, ms, 8);
    assert ms[..9] == ms;
  }

  // The last three steps.
  lemma SlowIsAbandoned(c: Command)
    requires c == Command(c.operation, "s", 1.0)
    ensures var t := Ticket(c, Waiting(1.05), false, None, 1, 1, 0);
            var ms := SlowCommand(c.operation);
            var s5 := System(0.0, map[0 := t], [], 1, Dispatched(0), {"s"}, false);
            var s6 := Step(s5, ms[5]);
            var s7 := Step(s6, ms[6]);
            var s8 := Step(s7, ms[7]);
            0 in s8.tickets && s8.tickets[0] == t.(caller := Done(Abandoned), cancelled := true)
  {
    hide Serve, TakeNext;
    var t, ms := Ticket(c, Waiting(1.05), false, None, 1, 1, 0), SlowCommand(c.operation);
    var s5 := System(0.0, map[0 := t], [], 1, Dispatched(0), {"s"}, false);
    var s6 := s5.(now := 2.0);
    assert Step(s5, ms[5]) == s6;
    var s7 := s6.(tickets := map[0 := t.(caller := Leaving)]);
    assert Step(s6, ms[6]) == s7;
  }

  // The state once the command waits in the queue.
  function SlowQueued(c: Command): System {
    System(0.0, map[0 := Ticket(c, Waiting(1.05), false, None, 0, 0, 0)], [Some(0)], 1, Idle, {}, false)
  }

  // The first two steps.
  lemma SlowIsQueued(c: Command)
    requires c == Command(c.operation, "s", 1.0)
    ensures var ms := SlowCommand(c.operation);
            Step(Step(Initial(1, 0.0), ms[0]), ms[1]) == SlowQueued(c)
  {
    hide Serve, TakeNext;
    var t, ms := Ticket(c, Submitting, false, None, 0, 0, 0), SlowCommand(c.operation);
    var s1 := System(0.0, map[0 := t], [], 1, Idle, {}, false);
    assert Step(Initial(1, 0.0), ms[0]) == s1;
  }

  // The next three.
  lemma SlowIsDispatched(c: Command)
    requires c == Command(c.operation, "s", 1.0)
    ensures var ms := SlowCommand(c.operation);
            var s3 := Step(SlowQueued(c), ms[2]);
            var s4 := Step(s3, ms[3]);
            Step(s4, ms[4])
            == System(0.0, map[0 := Ticket(c, Waiting(1.05), false, None, 1, 1, 0)], [], 1, Dispatched(0), {"s"}, false)
  {
    hide CallerStep;
    var ms, t := SlowCommand(c.operation), Ticket(c, Waiting(1.05), false, None, 1, 0, 0);
    var s3 := System(0.0, map[0 := t], [], 1, Taken(0), {}, false);
    assert Step(SlowQueued(c), ms[2]) == s3;
    var s4 := s3.(worker := Cleared(0));
    assert Step(s3, ms[3]) == s4;
  }

  // A caller of `operation` who has seen TIMEOUT has not had it dispatched.
  ghost predicate CleanTimeout(operation: string, s: System, id: nat) {
    id in s.tickets && s.tickets[id].command.operation == operation && s.tickets[id].caller.Done?
    && CodeSeen(s.tickets[id].command, s.tickets[id].caller.outcome) == Some(TIMEOUT)
    ==> s.tickets[id].dispatches == 0
  }

  /** TIMEOUT means "never dispatched" on every run exactly for the operations listed as not
      retryable. */
  lemma TimeoutIsCleanExactlyWhenNonRetryable(operation: string)
    ensures (forall capacity: nat, now: real, ms: seq<Move>, id: nat ::
               CleanTimeout(operation, Run(capacity, now, ms), id))
            <==> operation in NON_RETRYABLE_OPERATIONS
  {
    hide Run;
    if operation in NON_RETRYABLE_OPERATIONS {
      forall capacity: nat, now: real, ms: seq<Move>, id: nat
        ensures CleanTimeout(operation, Run(capacity, now, ms), id)
      {
        var s := Run(capacity, now, ms);
        if id in s.tickets && s.tickets[id].caller.Done? {
          assert ms[..|ms|] == ms;
          CodesTellTheTruth(capacity, now, ms, |ms|, id);
        }
      }
    } else {
      ReadTimeoutSaysNothing(operation);
      assert !CleanTimeout(operation, Run(1, 0.0, SlowCommand(operation)), 0);
    }
  }

  lemma RunStep(capacity: nat, now: real, ms: seq<Move>, i: nat)
    requires i < |ms|
    ensures Run(capacity, now, ms[..i + 1]) == Step(Run(capacity, now, ms[..i]), ms[i])
    ensures Run(capacity, now, ms[..0]) == Initial(capacity, now)
  {
    assert ms[..i + 1][..i] == ms[..i];
  }
}
