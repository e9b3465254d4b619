/** Starting and continuing runs. A run is kept as a record between its segments, each of which has a
    loop and a budget of its own. */
module AgentServices {
  import opened AgentAccounts
  import opened AgentLoops
  import opened AgentTrace
  import opened Budgets
  import opened Helpers
  import opened LoopHistories
  import opened TaskManagement
  import opened Wrappers

  ghost predicate WaitsForOne(b: Board, pending: seq<string>) {
    exists id, c :: PausedOn(b, id, c) && pending == [c]
  }

  /** The invariant of every record the service keeps: completions in `done` respect dependencies, a
      waiting run waits for one task and one confirmation, and a run that is over is at the fixpoint. */
  ghost predicate Stored(record: RunRecord, done: seq<string>)
    reads set t | t in record.tasks
  {
    && Consistent(record.State(), done)
    && (record.status == RunWaitingForUser ==> WaitsForOne(record.State(), record.pending))
    && (record.status in {RunCompleted, RunFailed} ==> Concluded(record.status, record.State()))
  }

  lemma {:induction false} NobodyIsAsked(plan: seq<Task>)
    requires forall t :: t in plan ==> t.waitingOn == []
    ensures forall id :: id in PlanBoard(plan).tasks ==> PlanBoard(plan).tasks[id].waitingOn == []
    decreases |plan|
  {
    if plan == [] {
    } else {
      assert Last(plan) in plan && forall t :: t in Front(plan) ==> t in plan;
      NobodyIsAsked(Front(plan));
    }
  }

  lemma PausedIsStored(record: RunRecord, steps: seq<Step>, done: seq<string>)
    requires AwaitsOne(record.State(), steps, record.pending) && record.status == RunWaitingForUser
    requires Consistent(record.State(), done)
    ensures Stored(record, done)
  {
    assert PausedOn(record.State(), Last(steps).id, Last(steps).confirmation);
  }

  lemma EndedIsStored(record: RunRecord, ending: Ending, done: seq<string>)
    requires record.status == StatusOf(ending, record.State()) && ending != Paused
    requires ending == Normal ==> Concluded(record.status, record.State())
    requires record.status != RunWaitingForUser && Consistent(record.State(), done)
    ensures Stored(record, done)
  {
  }

  // The one confirmation a waiting record waits for is the one that has been resolved.
  lemma ResolvesThePause(b: Board, pending: seq<string>, resolved: map<string, bool>)
    requires WaitsForOne(b, pending) && resolved != map[] && forall c :: c in resolved ==> c in pending
    ensures AnswersThePause(b, resolved)
  {
    var id, c :| PausedOn(b, id, c) && pending == [c];
    var r :| r in resolved;
    assert r == c;
  }

  lemma OnePause(b: Board, id: string, c: string, pending: seq<string>)
    requires PausedOn(b, id, c) && WaitsForOne(b, pending)
    ensures pending == [c]
  {
    var id', c' :| PausedOn(b, id', c') && pending == [c'];
    assert id' == id;
  }

  // The task a run waited for is completed if its confirmation was executed, and failed otherwise.
  lemma AnswerDecides(b: Board, id: string, c: string, pending: seq<string>, resolutions: map<string, bool>,
                      resolved: map<string, bool>, end: Board, ending: Ending)
    requires PausedOn(b, id, c) && WaitsForOne(b, pending) && c in resolutions
    requires forall x :: x in resolved <==> x in pending && x in resolutions
    requires forall x :: x in resolved ==> resolved[x] == resolutions[x]
    requires ResolutionsStand(Settled(b, resolved), end, ending)
    ensures end.Has(id, if resolutions[c] then Completed else Failed)
  {
    OnePause(b, id, c, pending);
    assert b.tasks[id].waitingOn == [c] && c in resolved;
    assert Answer([c], resolved) == Some(resolutions[c]);
    assert Settled(b, resolved).tasks[id].status == Resolved(Some(resolutions[c]));
  }

  // How a segment ended, and why: over budget for a cap that refused, paused for an operator who waits.
  ghost predicate Ended(record: RunRecord, ending: Ending, c: Caps, startedAt: real, u: Usage, script: nat -> Pass,
                        steps: seq<Step>)
    reads set t | t in record.tasks
  {
    && record.status == StatusOf(ending, record.State())
    && (ending == OutOfBudget ==>
          OverBudgetAt(c, startedAt, u, record.usage, script, AllStarts(steps), AllSkips(steps)))
    && (ending == Paused ==> AllStarts(steps) > 0 && MayWait(script(AllStarts(steps) - 1)))
  }

  lemma SegmentEnded(record: RunRecord, ending: Ending, c: Caps, startedAt: real, u: Usage, script: nat -> Pass, steps: seq<Step>,
                     from: Board)
    requires record.status == StatusOf(ending, record.State())
    requires ending == OutOfBudget ==>
               OverBudgetAt(c, startedAt, u, record.usage, script, AllStarts(steps), AllSkips(steps))
    requires ending == Paused ==>
               AllStarts(steps) > 0 && Pauses(from, record.State(), steps, script(AllStarts(steps) - 1))
    ensures Ended(record, ending, c, startedAt, u, script, steps)
  {
    hide OverBudgetAt, Pauses, MayWait, StatusOf;
    if ending == Paused {
      PausesFacts(from, record.State(), steps, script(AllStarts(steps) - 1));
    }
  }

  class AgentService {
    const service: ExecutionService
    const caps: Caps
    const maxReplans: int
    const nonRetryable: set<string>

    constructor (service: ExecutionService, caps: Caps, maxReplans: int, nonRetryable: set<string>)
      ensures this.service == service && this.caps == caps
      ensures this.maxReplans == maxReplans && this.nonRetryable == nonRetryable
    {
      this.service, this.caps, this.maxReplans, this.nonRetryable := service, caps, maxReplans, nonRetryable;
    }

    method StartRun(plan: seq<Task>, script: nat -> Pass, startedAt: real)
      returns (record: RunRecord, ghost ending: Ending, ghost steps: seq<Step>)
      requires forall t :: t in plan ==> t.status == Pending && t.attempt == 0 && t.waitingOn == []
      modifies plan, service
      ensures Legal(old(PlanBoard(plan)), steps) && record.State() == Replay(old(PlanBoard(plan)), steps)
      ensures Stored(record, Completions(steps)) && forall t :: t in record.tasks ==> fresh(t)
      ensures Ended(record, ending, caps, startedAt, Usage(0, 0, 0, 0, 0.0), script, steps)
      ensures Accounted(caps, Usage(0, 0, 0, 0, 0.0), old(service.Record()), record.usage, service.Record())
      ensures LoggedBy(old(service.Record()), service.Record(), First(script, AllStarts(steps)), 0)
    {
      hide *;
      NobodyIsAsked(plan);
      UnaskedPlan(PlanBoard(plan));
      var budget := new AgentBudget(caps, startedAt);
      var loop := new AgentLoop(budget, service, maxReplans, nonRetryable);
      loop.SnapshotFields();
      ghost var entry;
      record, ending, entry, steps := loop.Run(plan, script);
      SegmentEnded(record, ending, caps, startedAt, Usage(0, 0, 0, 0, 0.0), script, steps, entry);
      if ending == Paused {
        PausedIsStored(record, steps, Completions(steps));
      } else {
        EndedIsStored(record, ending, Completions(steps));
      }
    }

    lemma UnaskedPlan(b: Board)
      requires forall id :: id in b.tasks ==> b.tasks[id].waitingOn == []
      ensures Unasked(b)
    {
    }

    /** Go on with a stored run, unless it is not waiting or nothing it waits for has been resolved.
        However often a run is paused and continued, its record keeps the invariant: it is over
        budget, or it waits for one confirmation, or it has ended as a run that never paused would. */
    method ContinueRun(previous: RunRecord, resolutions: map<string, bool>, script: nat -> Pass, startedAt: real,
                       ghost done: seq<string>)
      returns (record: RunRecord, ghost ending: Option<Ending>, ghost steps: seq<Step>)
      requires Stored(previous, done)
      modifies previous.tasks, service
      ensures Legal(old(previous.State()), steps) && record.State() == Replay(old(previous.State()), steps)
      ensures Stored(record, done + Completions(steps))
      ensures ending.None? <==> previous.status != RunWaitingForUser || forall c :: c in previous.pending ==> c !in resolutions
      ensures ending.None? ==> record == previous && steps == [] && service.Record() == old(service.Record())
      ensures ending.Some? ==> Ended(record, ending.value, caps, startedAt, previous.usage, script, steps)
      ensures ending.Some? ==>
                forall id, c :: PausedOn(old(previous.State()), id, c) && c in resolutions ==>
                                  record.State().Has(id, if resolutions[c] then Completed else Failed)
      ensures Accounted(caps, previous.usage, old(service.Record()), record.usage, service.Record())
      ensures LoggedBy(old(service.Record()), service.Record(), First(script, AllStarts(steps)), previous.usage.iterations)
    {
      hide *;
      record, ending, steps := previous, None, [];
      var resolved := map c | c in previous.pending && c in resolutions :: resolutions[c];
      assert forall c :: c in resolved <==> c in previous.pending && c in resolutions;
      if previous.status != RunWaitingForUser || resolved == map[] {
        ReplayNothing(previous.State());
        NothingCompleted(done);
        AccountedRefl(caps, previous.usage, service.Record());
        NothingStarted(service.Record(), script, previous.usage.iterations);
        return;
      }
      assert exists c :: c in resolved;
      StoredFacts(previous, done);
      ResolvesThePause(previous.State(), previous.pending, resolved);
      var budget := new AgentBudget(caps, startedAt);
      var loop := new AgentLoop(budget, service, maxReplans, nonRetryable);
      ghost var e, entry;
      record, e, entry, steps := loop.Resume(previous, resolved, script, done);
      ending := Some(e);
      SegmentEnded(record, e, caps, startedAt, previous.usage, script, steps, Settled(entry, resolved));
      if e == Paused {
        PausedIsStored(record, steps, done + Completions(steps));
      } else {
        EndedIsStored(record, e, done + Completions(steps));
      }
      forall id, c | PausedOn(entry, id, c) && c in resolutions
        ensures record.State().Has(id, if resolutions[c] then Completed else Failed)
      {
        AnswerDecides(entry, id, c, previous.pending, resolutions, resolved, record.State(), e);
      }
    }

    lemma NothingStarted(r: Log, script: nat -> Pass, iterations: int)
      ensures LoggedBy(r, r, First(script, AllStarts([])), iterations)
    {
    }

    lemma NothingCompleted(done: seq<string>)
      ensures done + Completions([]) == done
    {
    }

    lemma StoredFacts(record: RunRecord, done: seq<string>)
      ensures Stored(record, done) ==> Consistent(record.State(), done)
      ensures Stored(record, done) ==>
                (record.status == RunWaitingForUser ==> WaitsForOne(record.State(), record.pending))
    {
    }
  }
}
