/** The agent's execution loop. Everything it cannot see - brain, verifier, operator, execution
    service and clock - is an arbitrary script of passes. */
module AgentLoops {
  import opened AgentAccounts
  import opened AgentTrace
  import opened Budgets
  import opened Helpers
  import opened LoopHistories
  import opened TaskManagement
  import opened TaskOutcomes
  import opened Wrappers

  /** What is kept of a segment: its status, copies of its tasks, the confirmations it waits for, and
      the usage to go on from. */
  datatype RunRecord = RunRecord(status: RunStatus, tasks: seq<Task>, pending: seq<string>, usage: Usage) {
    ghost function State(): Board
      reads set t | t in tasks
    {
      PlanBoard(tasks)
    }
  }

  /* ---------- The execution service ---------- */

  class ExecutionService {
    // The calls it was asked for, and those that can have reached a provider.
    var requests: seq<Request>
    var dispatches: seq<Request>

    constructor ()
      ensures Record() == Log([], [])
    {
      requests, dispatches := [], [];
    }

    function Record(): Log
      reads this
    {
      Log(requests, dispatches)
    }

    // A call whose confirmation is required goes no further than this.
    method Receive(r: Request, confirm: bool)
      modifies this
      ensures requests == old(requests) + [r] && dispatches == old(dispatches) + if confirm then [] else [r]
    {
      requests := requests + [r];
      if !confirm {
        dispatches := dispatches + [r];
      }
    }

    // An operator has approved a call that was not dispatched when it was requested.
    method Approve(r: Request)
      modifies this
      ensures requests == old(requests) && dispatches == old(dispatches) + [r]
    {
      dispatches := dispatches + [r];
    }
  }

  class AgentLoop {
    const budget: AgentBudget
    const service: ExecutionService
    const maxReplans: int
    const nonRetryable: set<string>

    constructor (budget: AgentBudget, service: ExecutionService, maxReplans: int, nonRetryable: set<string>)
      ensures this.budget == budget && this.service == service
      ensures this.maxReplans == maxReplans && this.nonRetryable == nonRetryable
    {
      this.budget, this.service, this.maxReplans, this.nonRetryable := budget, service, maxReplans, nonRetryable;
    }

    /** The brain's model calls, each made and charged only while the budget allows one. */
    method Think(uses: seq<LlmUse>)
      modifies budget
      ensures budget.Snapshot() == AfterThinking(budget.caps, budget.startedAt, old(budget.Snapshot()), uses)
    {
      for n := 0 to |uses|
        invariant budget.Snapshot() == AfterThinking(budget.caps, budget.startedAt, old(budget.Snapshot()), uses[..n])
      {
        assert Front(uses[..n + 1]) == uses[..n];
        if budget.CanLlmCall(uses[n].askedAt).None? {
          budget.RecordLlmCall(uses[n].tokens, uses[n].costUsd);
        }
      }
      assert uses[..|uses|] == uses;
    }

    lemma DispatchedSoFar(calls: seq<Call>, n: nat)
      requires n < |calls|
      ensures Dispatched(calls[..n + 1]) == Dispatched(calls[..n]) + if MayReachProvider(calls[n]) then 1 else 0
    {
      assert Front(calls[..n + 1]) == calls[..n];
    }

    lemma LoggedOneMore(r: Log, request: Request, n: nat, dispatched: nat, again: bool)
      ensures var before := Logged(r, request, n, dispatched);
              Logged(r, request, n + 1, dispatched + if again then 1 else 0)
              == Log(before.requests + [request], before.dispatches + if again then [request] else [])
    {
    }

    lemma NoneDispatched()
      ensures Dispatched([]) == 0
    {
    }

    /** Send the calls one by one, stopping at the first that is not executed; a call beyond the
        budget is not sent, and one that needs a confirmation is dispatched only once the operator
        approves it. */
    method SendCalls(task: Task, calls: seq<Call>) returns (o: CallsOutcome, ghost sent: nat)
      modifies budget, service
      ensures SentAs(budget.caps, budget.startedAt, old(budget.Snapshot()), calls, o, sent)
      ensures budget.Snapshot() == old(budget.Snapshot()).(toolCalls := old(budget.toolCalls) + sent)
      ensures service.Record() == Logged(old(service.Record()), Request(task.id, old(budget.iterations)),
                                         sent, Dispatched(calls[..sent]))
    {
      hide Dispatched, Logged;
      o, sent := Observed, 0;
      ghost var u, request := budget.Snapshot(), Request(task.id, budget.iterations);
      assert calls[..0] == [] && Dispatched([]) == 0 by { NoneDispatched(); }
      NothingLogged(service.Record(), request);
      for n := 0 to |calls|
        invariant budget.Snapshot() == u.(toolCalls := u.toolCalls + n)
        invariant sent == n && o == Observed && forall i :: 0 <= i < n ==> Goes(calls[i])
        invariant forall i :: 0 <= i < n ==>
                    MayCallTool(budget.caps, budget.startedAt, u.(toolCalls := u.toolCalls + i), calls[i].askedAt)
        invariant service.Record() == Logged(old(service.Record()), request, n, Dispatched(calls[..n]))
      {
        var call := calls[n];
        if budget.CanToolCall(call.askedAt).Some? {
          o := CallsOverBudget;
          return;
        }
        DispatchedSoFar(calls, n);
        LoggedOneMore(old(service.Record()), request, n, Dispatched(calls[..n]), MayReachProvider(call));
        budget.RecordToolCall();
        service.Receive(Request(task.id, budget.iterations), call.response.ConfirmationRequired?);
        sent := sent + 1;
        var status := call.response;
        if status.ConfirmationRequired? {
          match call.choice
          case WaitChoice => o := CallsWait(status.confirmation); return;
          case Deny => o := Refused; return;
          case Approve =>
            service.Approve(Request(task.id, budget.iterations));
            status := call.approved;
        }
        if !status.Executed? {
          break;
        }
      }
    }

    /** From the brain to the verdict for one running task. What is charged, what is sent and
        dispatched, and how it ends follow from the pass and the budget. */
    method ExecuteTask(task: Task, pass: Pass) returns (d: Decision, ghost sent: CallsOutcome, ghost count: nat)
      modifies budget, service
      ensures d == Decide(pass, sent, task.attempt + 1 < task.maxAttempts, task.actionType !in nonRetryable)
      ensures Executes(budget.caps, budget.startedAt, old(budget.Snapshot()), pass, sent, count, budget.Snapshot())
      ensures service.Record() == Logged(old(service.Record()), Request(task.id, old(budget.iterations)),
                                         count, DispatchedIn(pass, count))
    {
      hide Dispatched, Logged;
      sent, count := Observed, 0;
      NothingLogged(service.Record(), Request(task.id, budget.iterations));
      Think(pass.llm);
      ThinkingIsAccounted(budget.caps, budget.startedAt, old(budget.Snapshot()), pass.llm, service.Record());
      if pass.thought.BrainError? {
        d := if task.attempt + 1 < task.maxAttempts then TryAgain else GiveUp;
        return;
      }
      var calls := WithAction(pass.thought.calls);
      if calls == [] || pass.gateRejects {
        d := GiveUp;
        return;
      }
      var outcome;
      outcome, count := SendCalls(task, calls);
      sent := outcome;
      match outcome
      case CallsOverBudget => d := OverBudget;
      case CallsWait(confirmation) => d := AskUser(confirmation);
      case Refused => d := GiveUp;
      case Observed =>
        if pass.verdictOk {
          d := Succeed;
        } else if task.attempt + 1 < task.maxAttempts && task.actionType !in nonRetryable {
          d := TryAgain;
        } else {
          d := GiveUpAndRepair;
        }
    }

    method Settle(tm: TaskManager, task: Task, d: Decision)
      requires tm.Valid() && tm.Owns(task) && !d.OverBudget?
      requires d.TryAgain? ==> task.attempt + 1 < task.maxAttempts
      modifies task, tm`steps
      ensures tm.Valid() && tm.entry == old(tm.entry) && tm.steps == old(tm.steps) + [StepFor(d, task.id)]
      ensures d.AskUser? ==> d.confirmation in task.waitingOn
    {
      hide Replay, Legal, Apply;
      match d
      case Succeed => tm.Complete(task);
      case TryAgain => var _ := tm.Retry(task);
      case GiveUp => tm.Fail(task);
      case GiveUpAndRepair => tm.Fail(task);
      case AskUser(confirmation) => tm.PauseForUser(task, confirmation);
    }

    /** The blocked tasks, or everything pending if none is blocked, in insertion order. */
    method DeadTasks(tm: TaskManager) returns (dead: seq<Task>)
      requires tm.Valid() && !NonePending(tm.Now())
      ensures dead != [] && forall i :: 0 <= i < |dead| ==> tm.Owns(dead[i]) && dead[i].status == Pending
      ensures forall i :: 0 <= i < |dead| ==> dead[i] in tm.tasks.Values
      ensures forall i, j :: 0 <= i < j < |dead| ==> dead[i] != dead[j] && tm.Precedes(dead[i].id, dead[j].id)
      ensures forall id :: Dead(tm.Now(), id) <==> exists i :: 0 <= i < |dead| && dead[i].id == id
    {
      hide *;
      dead := tm.BlockedPending();
      if dead == [] {
        NobodyBlocked(tm);
        dead := tm.WithStatus(Pending);
        PendingAreDead(tm, dead);
      } else {
        BlockedAreDead(tm, dead);
      }
    }

    lemma NobodyBlocked(tm: TaskManager)
      ensures tm.Lists([], tm.BlockedIds()) ==> forall x :: !Blocked(tm.Now(), x)
    {
      forall x | Blocked(tm.Now(), x) ensures x in tm.BlockedIds() {
      }
    }

    lemma PendingAreDead(tm: TaskManager, dead: seq<Task>)
      requires tm.Valid() && !NonePending(tm.Now()) && tm.Lists(dead, tm.IdsWith(Pending))
      requires forall x :: !Blocked(tm.Now(), x)
      ensures dead != [] && forall i :: 0 <= i < |dead| ==> tm.Owns(dead[i]) && dead[i] in tm.tasks.Values
      ensures forall i, j :: 0 <= i < j < |dead| ==> dead[i] != dead[j] && tm.Precedes(dead[i].id, dead[j].id)
      ensures forall id :: Dead(tm.Now(), id) <==> exists i :: 0 <= i < |dead| && dead[i].id == id
    {
      hide Replay, TaskManager.Precedes, Blocked;
      forall id ensures Dead(tm.Now(), id) <==> id in tm.IdsWith(Pending) {
      }
      ghost var id :| id in tm.tasks && tm.Now().tasks[id].status == Pending;
      assert id in tm.IdsWith(Pending);
    }

    lemma BlockedAreDead(tm: TaskManager, dead: seq<Task>)
      requires tm.Valid() && tm.Lists(dead, tm.BlockedIds()) && dead != []
      ensures forall i :: 0 <= i < |dead| ==> tm.Owns(dead[i]) && dead[i] in tm.tasks.Values
      ensures forall i, j :: 0 <= i < j < |dead| ==> dead[i] != dead[j] && tm.Precedes(dead[i].id, dead[j].id)
      ensures forall id :: Dead(tm.Now(), id) <==> exists i :: 0 <= i < |dead| && dead[i].id == id
    {
      hide Replay, TaskManager.Precedes, Blocked;
      tm.BlockedFacts();
      assert Blocked(tm.Now(), dead[0].id);
      forall id ensures Dead(tm.Now(), id) <==> id in tm.BlockedIds() {
        if Blocked(tm.Now(), id) {
          assert id in tm.tasks && tm.Now().tasks[id].status == Pending;
        }
      }
    }

    // Which tasks a series of skips is about.
    ghost predicate Takes(skips: seq<Step>, b: Board) {
      forall id :: Dead(b, id) <==> exists i :: 0 <= i < |skips| && skips[i] == Skip(id)
    }

    lemma TookTheDead(skips: seq<Step>, dead: seq<Task>, b: Board)
      requires |skips| == |dead| && forall i :: 0 <= i < |dead| ==> skips[i] == Skip(dead[i].id)
      requires forall id :: Dead(b, id) <==> exists i :: 0 <= i < |dead| && dead[i].id == id
      ensures Takes(skips, b)
    {
      hide Dead;
    }

    /** One deadlock pass: exactly the blocked tasks are skipped, or everything pending if none is
        blocked. */
    method SkipPass(tm: TaskManager) returns (ghost skips: seq<Step>)
      requires tm.Valid() && Legal(tm.entry, tm.steps) && Stuck(tm.Now()) && !NonePending(tm.Now())
      modifies tm`steps, tm.tasks.Values
      ensures tm.Valid() && tm.entry == old(tm.entry) && tm.steps == old(tm.steps) + skips
      ensures skips != [] && OnlySkipped(tm.entry, old(tm.steps), skips) && Takes(skips, old(tm.Now()))
    {
      hide *;
      var dead := DeadTasks(tm);
      skips := [];
      BoardOf(tm);
      NothingSkipped(tm.entry, tm.steps);
      for n := 0 to |dead|
        invariant tm.Valid() && tm.entry == old(tm.entry) && tm.steps == old(tm.steps) + skips
        invariant |skips| == n && OnlySkipped(tm.entry, old(tm.steps), skips)
        invariant forall i :: 0 <= i < n ==> skips[i] == Skip(dead[i].id)
        invariant forall i :: n <= i < |dead| ==> dead[i].status == Pending && tm.Owns(dead[i])
      {
        StatusOnBoard(tm, dead[n]);
        SkipOneMore(tm.entry, old(tm.steps), skips, dead[n].id);
        tm.Skip(dead[n]);
        skips := skips + [Skip(dead[n].id)];
      }
      TookTheDead(skips, dead, old(tm.Now()));
    }

    lemma BoardOf(tm: TaskManager)
      ensures tm.Valid() ==> tm.Now() == Replay(tm.entry, tm.steps) && tm.Now().Valid()
    {
    }

    lemma StatusOnBoard(tm: TaskManager, task: Task)
      requires tm.Valid() && tm.Owns(task)
      ensures Replay(tm.entry, tm.steps).Has(task.id, task.status)
      ensures Replay(tm.entry, tm.steps).tasks[task.id].attempt == task.attempt
      ensures Replay(tm.entry, tm.steps).tasks[task.id].maxAttempts == task.maxAttempts
      ensures Replay(tm.entry, tm.steps).tasks[task.id].waitingOn == task.waitingOn
    {
      assert tm.Now().tasks[task.id] == task.View();
    }

    lemma SnapshotFields()
      ensures budget.Snapshot() == Usage(budget.iterations, budget.toolCalls, budget.llmCalls,
                                         budget.tokensUsed, budget.costUsedUsd)
    {
    }

    /* ----- Repairs ----- */

    /** A failed write is repaired by writing again and then reading back; nothing else is. */
    method Repair(failed: Task) returns (repairs: seq<Task>)
      ensures forall i :: 0 <= i < |repairs| ==> fresh(repairs[i])
      ensures forall i, j :: 0 <= i < j < |repairs| ==> repairs[i] != repairs[j]
      ensures failed.actionType != "fs.write" ==> repairs == []
      ensures failed.actionType == "fs.write" ==>
                && |repairs| == 2
                && repairs[0].id == "repair-" + failed.id && repairs[0].dependsOn == []
                && repairs[1].id == "reverify-" + failed.id && repairs[1].dependsOn == [repairs[0].id]
                && repairs[0].required == repairs[1].required == failed.required
                && repairs[0].actionType == "fs.write" && repairs[1].actionType == "fs.read"
                && repairs[0].id != repairs[1].id
      ensures forall i :: 0 <= i < |repairs| ==> repairs[i].maxAttempts == 3
      ensures forall i :: 0 <= i < |repairs| ==>
                repairs[i].status == Pending && repairs[i].attempt == 0 && repairs[i].waitingOn == []
    {
      if failed.actionType != "fs.write" {
        return [];
      }
      var fix := new Task("repair-" + failed.id, "fs.write", [], failed.required, 3);
      var reverify := new Task("reverify-" + failed.id, "fs.read", [fix.id], failed.required, 3);
      repairs := [fix, reverify];
      assert ("repair-" + failed.id)[2] == 'p' && ("reverify-" + failed.id)[2] == 'v';
    }

    method AddRepair(tm: TaskManager, task: Task, ghost h0: seq<Step>, ghost pre: seq<Step>)
      returns (ghost post: seq<Step>)
      requires tm.Valid() && !tm.Owns(task) && task.status == Pending && task.attempt == 0 && task.maxAttempts == 3
      requires task.waitingOn == []
      requires InLoop(tm.entry, h0, pre, []) && tm.steps == pre
      modifies tm
      ensures tm.Valid() && tm.entry == old(tm.entry) && tm.steps == post
      ensures InLoop(tm.entry, h0, post, []) && (post == pre || post == pre + [Add(task.id, task.View())])
      ensures tm.Now() == Inserting(old(tm.Now()), task.id, task.View())
      ensures AllStarts(post) == AllStarts(pre) && Adds(post) <= Adds(pre) + 1
      ensures Weight(Replay(tm.entry, post)) <= Weight(Replay(tm.entry, pre)) + 3
      ensures tm.tasks.Values <= old(tm.tasks.Values) + {task}
      ensures tm.tasks == old(tm.tasks) || tm.tasks == old(tm.tasks)[task.id := task]
    {
      hide *;
      post := pre;
      BoardOf(tm);
      Ids(tm);
      PendingView(task);
      if task.id !in tm.tasks {
        LoopAdds(tm.entry, h0, pre, task.id, task.View());
        CountsExtend(pre, Add(task.id, task.View()));
        post := pre + [Add(task.id, task.View())];
      }
      InsertingMeans(tm.Now(), task.id, task.View());
      tm.AddTask(task);
    }

    lemma InsertingMeans(b: Board, id: string, task: TaskView)
      ensures Inserting(b, id, task) == if id in b.tasks then b else Apply(b, Add(id, task))
    {
    }

    lemma Ids(tm: TaskManager)
      ensures tm.Valid() ==> tm.Now().tasks.Keys == tm.tasks.Keys
    {
    }

    lemma PendingView(task: Task)
      ensures task.View().status == task.status && task.View().attempt == task.attempt
      ensures task.View().maxAttempts == task.maxAttempts && task.View().waitingOn == task.waitingOn
      ensures task.attempt == 0 && task.maxAttempts == 3 ==> Remaining(task.View()) <= 3
    {
    }

    /* ----- Closing a segment ----- */

    method HasRequiredUnmet(tm: TaskManager) returns (found: bool)
      requires tm.Valid()
      ensures found <==> RequiredUnmet(tm.Now())
    {
      hide Replay;
      for n := 0 to |tm.order|
        invariant forall i :: 0 <= i < n ==>
                    var t := tm.tasks[tm.order[i]]; !(t.required && t.status in {Failed, Skipped})
      {
        var t := tm.tasks[tm.order[n]];
        if t.required && (t.status == Failed || t.status == Skipped) {
          assert tm.Now().tasks[tm.order[n]] == t.View();
          return true;
        }
      }
      found := false;
    }

    /** The confirmations the waiting tasks wait on, each once. */
    method PendingIds(tm: TaskManager) returns (ids: seq<string>)
      requires tm.Valid()
      ensures forall i, j :: 0 <= i < j < |ids| ==> ids[i] != ids[j]
      ensures forall c :: c in ids <==> PendingOn(tm.Now(), c)
    {
      hide Replay, PendingOn;
      var waiting := tm.WithStatus(WaitingForUser);
      ids := [];
      for n := 0 to |waiting|
        invariant forall i, j :: 0 <= i < j < |ids| ==> ids[i] != ids[j]
        invariant forall c :: c in ids <==> exists i :: 0 <= i < n && c in waiting[i].waitingOn
      {
        ghost var before := ids;
        for m := 0 to |waiting[n].waitingOn|
          invariant forall i, j :: 0 <= i < j < |ids| ==> ids[i] != ids[j]
          invariant forall c :: c in ids <==> c in before || c in waiting[n].waitingOn[..m]
        {
          var c := waiting[n].waitingOn[m];
          assert waiting[n].waitingOn[..m + 1] == waiting[n].waitingOn[..m] + [c];
          if c !in ids {
            ids := ids + [c];
          }
        }
        assert waiting[n].waitingOn[..|waiting[n].waitingOn|] == waiting[n].waitingOn;
      }
      forall c ensures c in ids <==> PendingOn(tm.Now(), c) {
        ListedWait(tm, waiting, c);
      }
    }

    lemma ListedWait(tm: TaskManager, waiting: seq<Task>, c: string)
      requires tm.Valid() && tm.Lists(waiting, tm.IdsWith(WaitingForUser))
      ensures PendingOn(tm.Now(), c) <==> exists i :: 0 <= i < |waiting| && c in waiting[i].waitingOn
    {
      hide Replay, TaskManager.Precedes;
      if i :| 0 <= i < |waiting| && c in waiting[i].waitingOn {
        assert tm.Now().tasks[waiting[i].id] == waiting[i].View();
        assert tm.Now().Has(waiting[i].id, WaitingForUser);
      }
      if PendingOn(tm.Now(), c) {
        var id :| tm.Now().Has(id, WaitingForUser) && c in tm.Now().tasks[id].waitingOn;
        assert id in tm.IdsWith(WaitingForUser);
        var i :| 0 <= i < |waiting| && waiting[i].id == id;
        assert tm.Now().tasks[id] == waiting[i].View();
      }
    }

    lemma NobodyListed(tm: TaskManager, waiting: seq<Task>)
      requires tm.Valid() && tm.Lists(waiting, tm.IdsWith(WaitingForUser))
      ensures AnyWaiting(tm.Now()) <==> waiting != []
    {
      hide Replay, TaskManager.Precedes;
      if waiting != [] {
        assert tm.Now().tasks[waiting[0].id].status == WaitingForUser;
      }
      if AnyWaiting(tm.Now()) {
        var id :| id in tm.Now().tasks && tm.Now().tasks[id].status == WaitingForUser;
        assert id in tm.IdsWith(WaitingForUser);
      }
    }

    /** A paused run waits, and every other run that is not over budget is waiting, failed or completed
        as its board says. */
    method Conclude(tm: TaskManager, ending: Ending) returns (status: RunStatus, pending: seq<string>)
      requires tm.Valid()
      requires ending == Paused ==> AnyWaiting(tm.Now())
      ensures status == StatusOf(ending, tm.Now()) && Reports(status, pending, tm.Now())
    {
      hide Replay, PendingOn, AnyWaiting, RequiredUnmet;
      hide TaskManager.Valid, TaskManager.Lists, TaskManager.IdsWith, TaskManager.Now;
      pending := [];
      if ending == OutOfBudget {
        return RunBudgetExceeded, [];
      }
      var waiting := tm.WithStatus(WaitingForUser);
      NobodyListed(tm, waiting);
      if ending == Paused || waiting != [] {
        status := RunWaitingForUser;
        pending := PendingIds(tm);
      } else {
        var unmet := HasRequiredUnmet(tm);
        status := if unmet then RunFailed else RunCompleted;
      }
    }

    /** One pass over one ready task: run it and settle it. It ends completed exactly when calls were sent
        and observed and the verdict is ok; pending again exactly when attempts are left and the brain
        failed, or what may be repeated was not verified; waiting exactly when an operator waits; still
        running exactly when the budget ran out; and failed otherwise. */
    method RunTask(tm: TaskManager, task: Task, pass: Pass, ghost h0: seq<Step>, ghost pre: seq<Step>)
      returns (d: Decision, ghost sent: CallsOutcome, ghost count: nat, ghost post: seq<Step>)
      requires tm.Valid() && tm.Owns(task) && FirstReady(tm.Now(), task.id) && tm.steps == pre
      requires InLoop(tm.entry, h0, pre, []) && budget.iterations <= budget.caps.maxIterations
      modifies task, tm`steps, budget, service
      ensures d == Decide(pass, sent, old(task.attempt) + 1 < task.maxAttempts, task.actionType !in nonRetryable)
      ensures OutcomeIs(tm.Now(), task.id, pass, sent, old(task.attempt) + 1 < task.maxAttempts,
                        task.actionType !in nonRetryable)
      ensures Executes(budget.caps, budget.startedAt, old(budget.Snapshot()).(iterations := old(budget.iterations) + 1),
                       pass, sent, count, budget.Snapshot())
      ensures service.Record() == Logged(old(service.Record()), Request(task.id, old(budget.iterations) + 1),
                                         count, DispatchedIn(pass, count))
      ensures tm.Valid() && tm.entry == old(tm.entry) && tm.steps == post
      ensures post == pre + [Start(task.id)] + (if d.OverBudget? then [] else [StepFor(d, task.id)])
      ensures RunsOnce(pre, post, pass) && tm.Now().tasks.Keys == old(tm.Now()).tasks.Keys
      ensures AllStarts(post) == AllStarts(pre) + 1 && Adds(post) == Adds(pre)
      ensures pre <= post && Legal(tm.entry, post) && NoSkips(post)
      ensures Weight(Replay(tm.entry, post)) < Weight(Replay(tm.entry, pre))
      ensures !d.OverBudget? && !d.AskUser? ==> InLoop(tm.entry, h0, post, [])
      ensures d.AskUser? ==> Pauses(Replay(tm.entry, h0), tm.Now(), post, pass)
      ensures Accounted(budget.caps, old(budget.Snapshot()), old(service.Record()), budget.Snapshot(), service.Record())
      ensures budget.iterations == old(budget.iterations) + 1
    {
      hide *;
      BoardOf(tm);
      StatusOnBoard(tm, task);
      IsOnBoard(tm, task);
      SnapshotFields();
      AccountedIteration(budget.caps, budget.Snapshot(), service.Record());
      budget.iterations := budget.iterations + 1;
      SnapshotFields();
      ghost var usage, log, left := budget.Snapshot(), service.Record(), task.attempt + 1 < task.maxAttempts;
      tm.MarkRunning(task);
      SnapshotFields();
      d, sent, count := ExecuteTask(task, pass);
      SnapshotFields();
      DecisionsAreEarned(budget.caps, budget.startedAt, usage, pass, sent, count, budget.Snapshot(), left,
                         task.actionType !in nonRetryable);
      ExecutingIsAccounted(budget.caps, budget.startedAt, usage, pass, sent, count, budget.Snapshot(), log, task.id);
      AccountedTrans(budget.caps, old(budget.Snapshot()), old(service.Record()), usage, log,
                     budget.Snapshot(), service.Record());
      PassDone(budget.caps, budget.startedAt, usage, budget.Snapshot(), tm.entry, h0, pre, task.id, pass, sent, count, left,
               task.actionType !in nonRetryable);
      AfterPassIs(pre, task.id, d);
      post := AfterPass(pre, task.id, d);
      if !d.OverBudget? {
        Settle(tm, task, d);
      }
      BoardOf(tm);
    }

    lemma IsOnBoard(tm: TaskManager, task: Task)
      ensures tm.Valid() && tm.Owns(task) ==> task.id in tm.Now().tasks
    {
    }

    method AddRepairs(tm: TaskManager, repairs: seq<Task>, ghost h0: seq<Step>, ghost pre: seq<Step>)
      returns (ghost post: seq<Step>)
      requires tm.Valid() && tm.steps == pre && InLoop(tm.entry, h0, pre, [])
      requires forall i :: 0 <= i < |repairs| ==> repairs[i] !in tm.tasks.Values
      requires forall i :: 0 <= i < |repairs| ==>
                 && repairs[i].status == Pending && repairs[i].attempt == 0 && repairs[i].maxAttempts == 3
                 && repairs[i].waitingOn == []
      requires forall i, j :: 0 <= i < j < |repairs| ==> repairs[i] != repairs[j] && repairs[i].id != repairs[j].id
      modifies tm
      ensures tm.Valid() && tm.entry == old(tm.entry) && tm.steps == post && pre <= post
      ensures InLoop(tm.entry, h0, post, []) && forall n :: |pre| <= n < |post| ==> post[n].Add?
      ensures forall i :: 0 <= i < |repairs| ==> Brought(old(tm.Now()), tm.Now(), repairs[i].id, repairs[i].View())
      ensures AllStarts(post) == AllStarts(pre) && Adds(post) <= Adds(pre) + |repairs|
      ensures Weight(Replay(tm.entry, post)) <= Weight(Replay(tm.entry, pre)) + 3 * |repairs|
      ensures tm.tasks.Values <= old(tm.tasks.Values) + set t | t in repairs
    {
      hide *;
      post := pre;
      ghost var b, brought: set<string> := tm.Now(), {};
      NothingBrought(b);
      for i := 0 to |repairs|
        invariant tm.Valid() && tm.entry == old(tm.entry) && tm.steps == post && pre <= post
        invariant InLoop(tm.entry, h0, post, []) && forall n :: |pre| <= n < |post| ==> post[n].Add?
        invariant IdsAre(b, tm.Now(), brought) && forall id :: id in brought <==> exists j :: 0 <= j < i && repairs[j].id == id
        invariant forall j :: 0 <= j < i ==> Brought(b, tm.Now(), repairs[j].id, repairs[j].View())
        invariant AllStarts(post) == AllStarts(pre) && Adds(post) <= Adds(pre) + i
        invariant Weight(Replay(tm.entry, post)) <= Weight(Replay(tm.entry, pre)) + 3 * i
        invariant tm.tasks.Values <= old(tm.tasks.Values) + set t | t in repairs[..i]
      {
        OwnedIsListed(tm, repairs[i]);
        InsertingIds(b, tm.Now(), brought, repairs[i].id, repairs[i].View());
        forall j | 0 <= j <= i
          ensures Brought(b, Inserting(tm.Now(), repairs[i].id, repairs[i].View()), repairs[j].id, repairs[j].View())
        {
          InsertingBrings(b, tm.Now(), repairs[i].id, repairs[i].View(), repairs[j].id, repairs[j].View());
        }
        post := AddRepair(tm, repairs[i], h0, post);
        brought := brought + {repairs[i].id};
      }
    }

    lemma OwnedIsListed(tm: TaskManager, task: Task)
      ensures tm.Owns(task) ==> task in tm.tasks.Values
    {
    }

    /** Run a ready task and replan exactly when that is allowed and a write has failed its verification
        for good: then both tasks of the repair are on the board. */
    method RunAndRepair(tm: TaskManager, task: Task, pass: Pass, replans: int, ghost h0: seq<Step>, ghost pre: seq<Step>)
      returns (left: Option<Ending>, replans': int, ghost post: seq<Step>, ghost sent: CallsOutcome, ghost count: nat)
      requires tm.Valid() && tm.Owns(task) && task in tm.tasks.Values && FirstReady(tm.Now(), task.id)
      requires tm.steps == pre && InLoop(tm.entry, h0, pre, []) && budget.iterations <= budget.caps.maxIterations
      modifies tm, tm.tasks.Values, budget, service
      ensures tm.Valid() && tm.entry == old(tm.entry) && tm.steps == post
      ensures fresh(tm.tasks.Values - old(tm.tasks.Values))
      ensures left.None? ==> InLoop(tm.entry, h0, post, [])
      ensures Executes(budget.caps, budget.startedAt, old(budget.Snapshot()).(iterations := old(budget.iterations) + 1),
                       pass, sent, count, budget.Snapshot())
      ensures RunsOnce(pre, post, pass)
      ensures replans' == replans
                          + if replans < maxReplans && task.actionType == "fs.write"
                               && FinallyUnverified(pass, sent, old(task.attempt) + 1 < task.maxAttempts,
                                                    task.actionType !in nonRetryable)
                            then 1 else 0
      ensures replans' > replans ==> Repaired(old(tm.Now()), tm.Now(), task.id, task.required)
      ensures Weight(Replay(tm.entry, post)) + 1 <= Weight(Replay(tm.entry, pre)) + 6 * (replans' - replans)
      ensures h0 <= post && Legal(tm.entry, post) && NoSkips(post)
      ensures left != Some(Normal) && (left == Some(Paused) ==> Pauses(Replay(tm.entry, h0), tm.Now(), post, pass))
      ensures Billed(old(budget.Snapshot()), budget.Snapshot(), [pass])
      ensures PassLogged(old(service.Record()), service.Record(), pass, old(budget.iterations) + 1)
      ensures left == Some(OutOfBudget) ==>
                Exhausted(budget.caps, budget.startedAt, old(budget.Snapshot()), budget.Snapshot(), [pass], pass)
      ensures Accounted(budget.caps, old(budget.Snapshot()), old(service.Record()), budget.Snapshot(), service.Record())
      ensures AllStarts(post) - AllStarts(pre) == budget.iterations - old(budget.iterations)
      ensures Adds(post) - Adds(pre) <= 2 * (replans' - replans)
    {
      hide *;
      left, replans' := None, replans;
      LoopPrefix(tm.entry, h0, pre, []);
      SnapshotFields();
      ghost var u, attempt := budget.Snapshot(), task.attempt;
      var d;
      d, sent, count, post := RunTask(tm, task, pass, h0, pre);
      ghost var b := tm.Now();
      RepairDecision(pass, sent, attempt + 1 < task.maxAttempts, task.actionType !in nonRetryable);
      PassIsBilled(budget.caps, budget.startedAt, u, pass, sent, count, budget.Snapshot());
      ExecutingIsLogged(budget.caps, budget.startedAt, u.(iterations := u.iterations + 1), pass, sent, count, budget.Snapshot(),
                        old(service.Record()), task.id);
      DecisionsAreEarned(budget.caps, budget.startedAt, u.(iterations := u.iterations + 1), pass, sent, count,
                         budget.Snapshot(), attempt + 1 < task.maxAttempts, task.actionType !in nonRetryable);
      if d.OverBudget? || d.AskUser? {
        left := Some(if d.OverBudget? then OutOfBudget else Paused);
      } else if d.GiveUpAndRepair? && replans < maxReplans {
        var repairs := Repair(task);
        if repairs != [] {
          ghost var ran := post;
          post := AddRepairs(tm, repairs, h0, post);
          RepairedOnce(pre, ran, post, pass);
          BothRepaired(old(tm.Now()), b, tm.Now(), repairs, task);
          LoopFacts(tm.entry, h0, post, []);
          NoneAppended(post);
          replans' := replans + 1;
        }
      }
    }

    lemma BothRepaired(before: Board, b: Board, now: Board, repairs: seq<Task>, task: Task)
      requires before.tasks.Keys == b.tasks.Keys && |repairs| == 2
      requires forall i :: 0 <= i < |repairs| ==> Brought(b, now, repairs[i].id, repairs[i].View())
      requires forall i :: 0 <= i < |repairs| ==> repairs[i].status == Pending && repairs[i].attempt == 0
      requires forall i :: 0 <= i < |repairs| ==> repairs[i].maxAttempts == 3 && repairs[i].waitingOn == []
      requires repairs[0].id == "repair-" + task.id && repairs[0].dependsOn == []
      requires repairs[1].id == "reverify-" + task.id && repairs[1].dependsOn == [repairs[0].id]
      requires repairs[0].required == repairs[1].required == task.required
      ensures Repaired(before, now, task.id, task.required)
    {
      assert Brought(b, now, repairs[0].id, repairs[0].View()) && Brought(b, now, repairs[1].id, repairs[1].View());
    }

    /** One pass of the loop. It leaves the loop, or comes back with attempts or replans used up. */
    method OnePass(tm: TaskManager, pass: Pass, replans: int, ghost h0: seq<Step>, ghost pre: seq<Step>, ghost skips: seq<Step>)
      returns (left: Option<Ending>, replans': int, ghost pre': seq<Step>, ghost skips': seq<Step>, ghost ran: seq<Pass>)
      requires tm.Valid() && tm.steps == pre + skips && InLoop(tm.entry, h0, pre, skips)
      modifies tm, tm.tasks.Values, budget, service
      ensures tm.Valid() && tm.entry == old(tm.entry) && tm.steps == pre' + skips'
      ensures fresh(tm.tasks.Values - old(tm.tasks.Values))
      ensures left.None? ==> InLoop(tm.entry, h0, pre', skips')
      ensures replans' == replans || (replans < maxReplans && replans' == replans + 1)
      ensures left.None? && replans' == replans ==>
                Weight(Replay(tm.entry, tm.steps)) < Weight(Replay(tm.entry, pre + skips))
      ensures |ran| + Weight(Replay(tm.entry, tm.steps)) <= Weight(Replay(tm.entry, pre + skips)) + 6 * (replans' - replans)
      ensures h0 <= pre' && Legal(tm.entry, tm.steps) && NoSkips(pre') && OnlySkips(skips')
      ensures left == Some(Normal) ==> NonePending(tm.Now()) && NothingLeftOpen(Replay(tm.entry, h0), tm.Now())
      ensures left == Some(Paused) ==>
                ran == [pass] && skips' == [] && Pauses(Replay(tm.entry, h0), tm.Now(), tm.steps, pass)
      ensures (ran != [] ==> skips == []) && if left.None? && ran == [] then |skips| < |skips'| else skips' == skips
      ensures (ran == [] || ran == [pass]) && Billed(old(budget.Snapshot()), budget.Snapshot(), ran)
      ensures if ran == [] then service.Record() == old(service.Record()) && pre' == pre
              else PassLogged(old(service.Record()), service.Record(), pass, old(budget.iterations) + 1)
                   && RunsOnce(pre, pre', pass)
      ensures left == Some(OutOfBudget) ==>
                Exhausted(budget.caps, budget.startedAt, old(budget.Snapshot()), budget.Snapshot(), ran, pass)
      ensures Accounted(budget.caps, old(budget.Snapshot()), old(service.Record()), budget.Snapshot(), service.Record())
      ensures AllStarts(pre') - AllStarts(pre) == budget.iterations - old(budget.iterations)
      ensures Adds(pre') - Adds(pre) <= 2 * (replans' - replans)
    {
      hide *;
      left, replans', pre', skips', ran := None, replans, pre, skips, [];
      BoardOf(tm);
      LoopFacts(tm.entry, h0, pre, skips);
      AccountedRefl(budget.caps, budget.Snapshot(), service.Record());
      NothingBilled(budget.Snapshot());
      SnapshotFields();
      var breach := budget.Check(pass.checkedAt);
      if breach.Some? {
        GateIsExhausted(budget.caps, budget.startedAt, budget.Snapshot(), pass);
        left := Some(OutOfBudget);
      } else {
        WithinIterations(budget.caps, budget.startedAt, budget.Snapshot(), pass.checkedAt);
        var task := tm.NextReady();
        if task != null {
          NotStuck(Replay(tm.entry, tm.steps), task.id);
          NoneAppended(pre);
          assert skips == [];
          ran := [pass];
          ghost var sent, count;
          left, replans', pre', sent, count := RunAndRepair(tm, task, pass, replans, h0, pre);
          NoneAppended(pre');
        } else {
          var more := tm.HasPending();
          if !more {
            left := Some(Normal);
          } else {
            skips' := SkipPass(tm);
            LoopSkips(tm.entry, h0, pre, skips, skips');
            skips' := skips + skips';
            LoopFacts(tm.entry, h0, pre, skips');
          }
        }
      }
    }

    lemma GateIsExhausted(c: Caps, startedAt: real, u: Usage, p: Pass)
      ensures !WithinCaps(c, startedAt, u, p.checkedAt) ==> Exhausted(c, startedAt, u, u, [], p)
    {
    }

    lemma WithinIterations(c: Caps, startedAt: real, u: Usage, now: real)
      ensures WithinCaps(c, startedAt, u, now) ==> u.iterations <= c.maxIterations
    {
    }

    // The most passes that can run a task: the attempts left on the board, and those of the repairs.
    function RunsLeft(b: Board): nat {
      Weight(b) + RepairRuns()
    }

    // Two tasks a replan, three attempts each.
    function RepairRuns(): nat {
      if maxReplans > 0 then 6 * maxReplans else 0
    }

    /** The loop. It ends for every plan and every script, and the measure that decreases knows
        nothing of the budget. Each start is one iteration, and a replan adds at most two tasks. It
        ends over budget only when a cap refuses, pauses only when an operator chooses to wait, and
        so ends normally whenever nobody waits and the caps have room for every attempt. */
    method Drive(tm: TaskManager, script: nat -> Pass)
      returns (status: RunStatus, pending: seq<string>, ghost ending: Ending, ghost pre: seq<Step>, ghost skips: seq<Step>)
      requires tm.Valid() && Legal(tm.entry, tm.steps) && NoSkips(tm.steps)
      modifies tm, tm.tasks.Values, budget, service
      ensures tm.Valid() && tm.entry == old(tm.entry) && fresh(tm.tasks.Values - old(tm.tasks.Values))
      ensures tm.steps == pre + skips && old(tm.steps) <= pre && Legal(tm.entry, tm.steps)
      ensures NoSkips(pre) && OnlySkips(skips) && Explained(old(tm.steps), tm.steps, script)
      ensures ending == Normal ==> NonePending(tm.Now()) && NothingLeftOpen(old(tm.Now()), tm.Now())
      ensures budget.iterations >= old(budget.iterations)
      ensures Billed(old(budget.Snapshot()), budget.Snapshot(), First(script, budget.iterations - old(budget.iterations)))
      ensures LoggedBy(old(service.Record()), service.Record(), First(script, budget.iterations - old(budget.iterations)),
                       old(budget.iterations))
      ensures ending == OutOfBudget ==>
                OverBudgetAt(budget.caps, budget.startedAt, old(budget.Snapshot()), budget.Snapshot(), script,
                             budget.iterations - old(budget.iterations), |skips|)
      ensures ending == Paused ==>
                && budget.iterations > old(budget.iterations) && skips == []
                && Pauses(old(tm.Now()), tm.Now(), tm.steps, script(budget.iterations - old(budget.iterations) - 1))
      ensures NobodyWaits(script)
              && CapsSuffice(budget.caps, budget.startedAt, old(budget.Snapshot()), script, RunsLeft(old(tm.Now())))
              ==> ending == Normal
      ensures status == StatusOf(ending, tm.Now()) && Reports(status, pending, tm.Now())
      ensures Accounted(budget.caps, old(budget.Snapshot()), old(service.Record()), budget.Snapshot(), service.Record())
      ensures AllStarts(tm.steps) - AllStarts(old(tm.steps)) == budget.iterations - old(budget.iterations)
      ensures Adds(tm.steps) - Adds(old(tm.steps)) <= if maxReplans > 0 then 2 * maxReplans else 0
    {
      hide *;
      BoardOf(tm);
      LoopBegins(tm.entry, tm.steps);
      ghost var u, log, b := budget.Snapshot(), service.Record(), tm.Now();
      BooksOpen(budget.caps, u, log, tm.steps, script);
      SnapshotFields();
      pre, skips := tm.steps, [];
      ghost var starts := 0;
      var replans, n, left := 0, 0, None;
      while left.None?
        invariant n >= 0 && 0 <= replans && (replans > 0 ==> replans <= maxReplans)
        invariant starts >= 0 && (left.None? ==> starts <= n <= starts + |skips|)
        invariant tm.Valid() && tm.entry == old(tm.entry) && tm.steps == pre + skips
        invariant fresh(tm.tasks.Values - old(tm.tasks.Values))
        invariant left.None? ==> InLoop(tm.entry, old(tm.steps), pre, skips)
        invariant left.Some? ==> old(tm.steps) <= pre && Legal(tm.entry, tm.steps) && NoSkips(pre) && OnlySkips(skips)
        invariant left == Some(Normal) ==> NonePending(tm.Now()) && NothingLeftOpen(b, tm.Now())
        invariant left == Some(Paused) ==> starts > 0 && skips == [] && Pauses(b, tm.Now(), tm.steps, script(starts - 1))
        invariant left == Some(OutOfBudget) ==>
                    OverBudgetAt(budget.caps, budget.startedAt, u, budget.Snapshot(), script, starts, |skips|)
        invariant starts == budget.iterations - old(budget.iterations)
        invariant Books(budget.caps, u, log, old(tm.steps), budget.Snapshot(), service.Record(), pre, script, starts)
        invariant starts + Weight(Replay(tm.entry, tm.steps)) <= Weight(b) + 6 * replans
        invariant Adds(pre) - Adds(old(tm.steps)) <= 2 * replans
        decreases left.None?, if replans < maxReplans then maxReplans - replans else 0, Weight(Replay(tm.entry, tm.steps))
      {
        ghost var usage, sent := budget.Snapshot(), service.Record();
        SnapshotFields();
        ghost var more, before, earlier := [], skips, pre;
        left, replans, pre, skips, more := OnePass(tm, script(n), replans, old(tm.steps), pre, skips);
        SnapshotFields();
        BooksMean(budget.caps, u, log, old(tm.steps), usage, sent, earlier, script, starts);
        BooksOn(budget.caps, u, log, old(tm.steps), usage, sent, earlier, script, starts,
                budget.Snapshot(), service.Record(), pre, more);
        if left == Some(OutOfBudget) {
          ExhaustedOn(budget.caps, budget.startedAt, u, usage, budget.Snapshot(), script, starts, n, |before|, more);
        }
        starts := starts + |more|;
        BooksMean(budget.caps, u, log, old(tm.steps), budget.Snapshot(), service.Record(), pre, script, starts);
        n := n + 1;
      }
      BooksMean(budget.caps, u, log, old(tm.steps), budget.Snapshot(), service.Record(), pre, script, starts);
      SkipsCountNothing(pre, skips);
      SkipsNeedNoPass(old(tm.steps), pre, skips, script);
      EnoughRuns(b, starts, replans);
      EndsNormally(budget.caps, budget.startedAt, u, log, budget.Snapshot(), service.Record(), script,
                   RunsLeft(b), starts, |skips|);
      ending := left.value;
      PauseIsAsked(b, tm.Now(), tm.steps, script, starts);
      status, pending := Conclude(tm, left.value);
    }

    lemma PauseIsAsked(before: Board, now: Board, steps: seq<Step>, script: nat -> Pass, starts: nat)
      ensures starts > 0 && Pauses(before, now, steps, script(starts - 1))
              ==> AnyWaiting(now) && !NobodyWaits(script)
    {
      hide MayWait, Pauses, AnyWaiting;
      if starts > 0 && Pauses(before, now, steps, script(starts - 1)) {
        PausesFacts(before, now, steps, script(starts - 1));
      }
    }

    lemma FewerRuns(u: Usage, script: nat -> Pass, b: Board, attempts: nat)
      requires Weight(b) <= attempts
      ensures CapsSuffice(budget.caps, budget.startedAt, u, script, attempts + RepairRuns())
              ==> CapsSuffice(budget.caps, budget.startedAt, u, script, RunsLeft(b))
    {
      hide CapsSuffice, Weight;
      if CapsSuffice(budget.caps, budget.startedAt, u, script, attempts + RepairRuns()) {
        CapsSufficeForFewer(budget.caps, budget.startedAt, u, script, RunsLeft(b), attempts + RepairRuns());
      }
    }

    lemma SameRunsLeft(b: Board, b': Board)
      ensures Weight(b) == Weight(b') ==> RunsLeft(b) == RunsLeft(b')
    {
    }

    lemma EnoughRuns(b: Board, ran: nat, replans: nat)
      ensures (ran <= Weight(b) + 6 * replans && (replans > 0 ==> replans <= maxReplans)) ==> ran <= RunsLeft(b)
    {
      hide Weight;
    }

    lemma EndsNormally(c: Caps, startedAt: real, u: Usage, r: Log, u': Usage, r': Log,
                       script: nat -> Pass, runs: nat, starts: nat, skipped: nat)
      requires starts <= runs && Billed(u, u', First(script, starts)) && Accounted(c, u, r, u', r')
      ensures CapsSuffice(c, startedAt, u, script, runs) ==> !OverBudgetAt(c, startedAt, u, u', script, starts, skipped)
    {
      assert u'.llmCalls == u.llmCalls || u'.llmCalls <= c.maxLlmCalls;
      hide OverBudgetAt, Accounted, Billed;
      if CapsSuffice(c, startedAt, u, script, runs) {
        SufficientCapsAreNotExhausted(c, startedAt, u, u', script, runs, starts, skipped);
      }
    }

    lemma LoopPrefix(entry: Board, h0: seq<Step>, pre: seq<Step>, skips: seq<Step>)
      ensures InLoop(entry, h0, pre, skips) ==> h0 <= pre && NoSkips(pre) && OnlySkips(skips)
    {
    }

    /* ----- Entry points ----- */

    lemma ListedTasks(tm: TaskManager, list: seq<Task>)
      requires forall id :: id in tm.tasks ==> TaskManager.Latest(list, tm.tasks[id])
      ensures forall t :: t in tm.tasks.Values ==> t in list
    {
    }

    lemma FreshBoard(tm: TaskManager, list: seq<Task>)
      requires tm.Valid() && tm.entry == tm.Now()
      requires forall id :: id in tm.tasks ==> TaskManager.Latest(list, tm.tasks[id])
      requires forall t :: t in list ==> t.status == Pending && t.attempt == 0
      ensures FreshPlan(tm.entry)
    {
      forall id | id in tm.tasks
        ensures tm.tasks[id].status == Pending && tm.tasks[id].attempt == 0
      {
        assert TaskManager.Latest(list, tm.tasks[id]);
      }
    }

    lemma NothingDone(tm: TaskManager)
      ensures tm.steps == [] ==>
                Legal(tm.entry, tm.steps) && NoSkips(tm.steps) && Adds(tm.steps) == AllStarts(tm.steps) == 0
    {
    }

    /** A fresh run. However it ends, tasks start after their dependencies and within their
        caps; when it leaves the loop normally it has reached the fixpoint, and it counts as
        completed exactly when every required task completed. It does leave normally whenever
        nobody waits and the caps have room for every attempt. It waits for its user exactly when it
        paused, and then for one task and one confirmation. */
    method Run(plan: seq<Task>, script: nat -> Pass)
      returns (record: RunRecord, ghost ending: Ending, ghost entry: Board, ghost steps: seq<Step>)
      requires forall t :: t in plan ==> t.status == Pending && t.attempt == 0
      modifies plan, budget, service
      ensures entry == old(PlanBoard(plan)) && FreshPlan(entry) && Legal(entry, steps)
      ensures record.State() == Replay(entry, steps) && forall t :: t in record.tasks ==> fresh(t)
      ensures DependenciesFirst(record.State(), steps) && StartsWithinCap(record.State(), steps)
      ensures Consistent(record.State(), Completions(steps))
      ensures Explained([], steps, script) && CompletedAreVerified(entry, record.State(), steps, script)
      ensures ending == Normal ==> Concluded(record.status, record.State())
      ensures record.status == StatusOf(ending, record.State()) && (record.status == RunWaitingForUser <==> ending == Paused)
      ensures ending == Paused ==>
                && AllStarts(steps) > 0 && NoSkips(steps) && Pauses(entry, record.State(), steps, script(AllStarts(steps) - 1))
                && Last(steps).confirmation in record.pending
      ensures ending == Paused && Unasked(entry) ==> AwaitsOne(record.State(), steps, record.pending)
      ensures Reports(record.status, record.pending, record.State()) && record.usage == budget.Snapshot()
      ensures ending == OutOfBudget ==>
                OverBudgetAt(budget.caps, budget.startedAt, old(budget.Snapshot()), budget.Snapshot(), script,
                             AllStarts(steps), AllSkips(steps))
      ensures NobodyWaits(script)
              && CapsSuffice(budget.caps, budget.startedAt, old(budget.Snapshot()), script, SumAttempts(plan) + RepairRuns())
              ==> ending == Normal
      ensures Accounted(budget.caps, old(budget.Snapshot()), old(service.Record()), budget.Snapshot(), service.Record())
      ensures LoggedBy(old(service.Record()), service.Record(), First(script, AllStarts(steps)), old(budget.iterations))
      ensures AllStarts(steps) == budget.iterations - old(budget.iterations)
    {
      hide *;
      var tm := new TaskManager(plan);
      ListedTasks(tm, plan);
      FreshBoard(tm, plan);
      FreshIsQuiet(tm.entry);
      PlanWeight(plan);
      FewerRuns(budget.Snapshot(), script, tm.entry, SumAttempts(plan));
      NothingDone(tm);
      var status, pending;
      ghost var pre, skips;
      status, pending, ending, pre, skips := Drive(tm, script);
      BoardOf(tm);
      entry, steps := tm.entry, tm.steps;
      FreshRunOrder(entry, steps);
      FreshRunIsConsistent(entry, steps);
      ReplayNothing(entry);
      AllCompletedAreVerified(entry, [], steps, script);
      SkipsAreCounted(pre, skips);
      NotPaused(ending, tm.Now());
      if ending == Normal {
        FreshNormalEnd(entry, tm.Now(), pre, skips);
        ConcludedAt(status, tm.Now());
      } else if ending == Paused {
        NoneAppended(pre);
        AskedIsPending(entry, tm.Now(), steps, script(AllStarts(steps) - 1), status, pending);
        if Unasked(entry) {
          PausedRecord(entry, entry, tm.Now(), steps, script(AllStarts(steps) - 1), status, pending);
        }
      }
      var tasks := tm.Snapshot();
      record := RunRecord(status, tasks, pending, budget.Snapshot());
      RecordState(record);
    }

    lemma RecordState(record: RunRecord)
      ensures record.State() == PlanBoard(record.tasks)
    {
    }

    /* ----- Resuming ----- */

    // One waiting task: completed, failed, or left waiting.
    method SettleWaiting(tm: TaskManager, task: Task, resolutions: map<string, bool>)
      requires tm.Valid() && tm.Owns(task) && task.status == WaitingForUser
      requires tm.entry.Valid() && Legal(tm.entry, tm.steps) && OnlySettles(tm.steps)
      modifies task`status, tm`steps
      ensures tm.Valid() && tm.entry == old(tm.entry) && Legal(tm.entry, tm.steps) && OnlySettles(tm.steps)
      ensures tm.Now() == SettledAmong(old(tm.Now()), {task.id}, resolutions)
      ensures Weight(tm.Now()) == Weight(old(tm.Now())) && AllStarts(tm.steps) == AllStarts(old(tm.steps))
    {
      hide *;
      var answer := Answer(task.waitingOn, resolutions);
      BoardOf(tm);
      StatusOnBoard(tm, task);
      SettledOne(tm.Now(), task.id, resolutions);
      ResolveStep(tm.entry, tm.steps, task.id, Complete(task.id));
      ResolveStep(tm.entry, tm.steps, task.id, Fail(task.id));
      if answer == Some(true) {
        tm.Complete(task);
      } else if answer == Some(false) {
        tm.Fail(task);
      }
    }

    /** Settle each waiting task whose confirmation has been resolved; nothing else changes. */
    method ResolveWaiting(tm: TaskManager, resolutions: map<string, bool>)
      requires tm.Valid() && tm.entry.Valid() && tm.steps == []
      modifies tm`steps, tm.tasks.Values
      ensures tm.Valid() && tm.entry == old(tm.entry) && Legal(tm.entry, tm.steps) && OnlySettles(tm.steps)
      ensures tm.Now() == Settled(old(tm.Now()), resolutions)
      ensures Weight(tm.Now()) == Weight(old(tm.Now())) && AllStarts(tm.steps) == 0
    {
      hide *;
      var found := tm.WithStatus(WaitingForUser);
      ghost var b, ids := tm.Now(), {};
      ListedDistinct(tm, found);
      SettledNone(b, resolutions);
      NothingSettled(tm);
      for n := 0 to |found|
        invariant tm.Valid() && tm.entry == old(tm.entry) && Legal(tm.entry, tm.steps) && OnlySettles(tm.steps)
        invariant tm.Now() == SettledAmong(b, ids, resolutions)
        invariant Weight(tm.Now()) == Weight(b) && AllStarts(tm.steps) == 0
        invariant forall i :: n <= i < |found| ==> found[i].status == WaitingForUser && found[i].id !in ids
        invariant forall i :: 0 <= i < n ==> found[i].id in ids
      {
        SettledOneMore(b, ids, found[n].id, resolutions);
        SettleWaiting(tm, found[n], resolutions);
        ids := ids + {found[n].id};
      }
      SettledAll(b, ids, resolutions);
    }

    lemma NothingSettled(tm: TaskManager)
      ensures tm.steps == [] ==> Legal(tm.entry, tm.steps) && OnlySettles(tm.steps) && AllStarts(tm.steps) == 0
    {
    }

    lemma ListedDistinct(tm: TaskManager, found: seq<Task>)
      requires tm.Valid() && tm.Lists(found, tm.IdsWith(WaitingForUser))
      ensures forall i :: 0 <= i < |found| ==> tm.Owns(found[i]) && found[i] in tm.tasks.Values
      ensures forall i, j :: 0 <= i < j < |found| ==> found[i] != found[j] && found[i].id != found[j].id
      ensures forall id :: tm.Now().Has(id, WaitingForUser) ==> exists i :: 0 <= i < |found| && found[i].id == id
    {
      hide Replay, TaskManager.Precedes;
      forall id | tm.Now().Has(id, WaitingForUser)
        ensures exists i :: 0 <= i < |found| && found[i].id == id
      {
        assert id in tm.IdsWith(WaitingForUser);
      }
    }

    lemma RebuiltIsValid(tm: TaskManager)
      ensures tm.Valid() && tm.entry == tm.Now() ==> tm.entry.Valid()
    {
    }

    /** Resume a paused run on its recorded tasks and usage. Where exactly one task waited, on one
        confirmation that has been resolved, the run either pauses the same way once more, or is over
        budget, or is at the fixpoint of a run that never paused. */
    method Resume(previous: RunRecord, resolutions: map<string, bool>, script: nat -> Pass, ghost done: seq<string>)
      returns (record: RunRecord, ghost ending: Ending, ghost entry: Board, ghost steps: seq<Step>)
      requires Consistent(previous.State(), done)
      modifies previous.tasks, budget, service
      ensures entry == old(previous.State()) && Legal(entry, steps)
      ensures record.State() == Replay(entry, steps) && forall t :: t in record.tasks ==> fresh(t)
      ensures Consistent(record.State(), done + Completions(steps))
      ensures ResolutionsStand(Settled(entry, resolutions), record.State(), ending)
      ensures ResumedAs(entry, resolutions, steps, script)
      ensures CompletedAreVerified(Settled(entry, resolutions), record.State(), steps, script)
      ensures ending == Normal ==>
                && NonePending(record.State()) && SkipsTheDoomed(entry, record.State())
                && DependentsOfWaitingSkipped(record.State())
                && (NoneWaiting(record.State()) <==> AllAnswered(entry, resolutions))
                && (AllAnswered(entry, resolutions) ==> SkipsTheClosedOff(entry, record.State()))
      ensures ending == Paused ==>
                && AllStarts(steps) > 0 && NoSkips(steps)
                && Pauses(Settled(entry, resolutions), record.State(), steps, script(AllStarts(steps) - 1))
                && Last(steps).confirmation in record.pending
      ensures AnswersThePause(entry, resolutions) ==>
                && (ending == Paused ==> AwaitsOne(record.State(), steps, record.pending))
                && (ending == Normal ==> Concluded(record.status, record.State()))
                && (record.status == RunWaitingForUser <==> ending == Paused)
      ensures record.status == StatusOf(ending, record.State())
      ensures Reports(record.status, record.pending, record.State()) && record.usage == budget.Snapshot()
      ensures ending == OutOfBudget ==>
                OverBudgetAt(budget.caps, budget.startedAt, previous.usage, budget.Snapshot(), script,
                             AllStarts(steps), AllSkips(steps))
      ensures NobodyWaits(script) && CapsSuffice(budget.caps, budget.startedAt, previous.usage, script, RunsLeft(entry))
              ==> ending == Normal
      ensures Accounted(budget.caps, previous.usage, old(service.Record()), budget.Snapshot(), service.Record())
      ensures LoggedBy(old(service.Record()), service.Record(), First(script, AllStarts(steps)), previous.usage.iterations)
      ensures AllStarts(steps) == budget.iterations - previous.usage.iterations
    {
      hide *;
      RecordState(previous);
      budget.Restore(Some(previous.usage));
      SnapshotFields();
      var tm := new TaskManager(previous.tasks);
      ListedTasks(tm, previous.tasks);
      RebuiltIsValid(tm);
      entry := tm.entry;
      ResolveWaiting(tm, resolutions);
      SettlesOnly(tm.steps);
      BoardOf(tm);
      SameRunsLeft(entry, tm.Now());
      ghost var h := tm.steps;
      var status, pending;
      ghost var pre, skips;
      status, pending, ending, pre, skips := Drive(tm, script);
      BoardOf(tm);
      steps := tm.steps;
      SkipsAreCounted(pre, skips);
      SegmentEnd(entry, done, pre, skips);
      AllResolutionsStand(entry, h, steps, ending);
      AllCompletedAreVerified(entry, h, steps, script);
      ResumedByHistory(entry, resolutions, h, steps, script);
      NotPaused(ending, tm.Now());
      if AnswersThePause(entry, resolutions) {
        AnsweredPause(entry, resolutions);
      }
      if ending == Normal {
        WaitingHoldsUp(entry, steps, tm.Now());
        NormalEndOfAnswered(entry, Settled(entry, resolutions), tm.Now());
        AnsweredLeavesNoneWaiting(entry, resolutions);
        if AnswersThePause(entry, resolutions) {
          AnsweredNormalEnd(entry, Settled(entry, resolutions), tm.Now());
          ConcludedAt(status, tm.Now());
        }
      } else if ending == Paused {
        NoneAppended(pre);
        AskedIsPending(Settled(entry, resolutions), tm.Now(), steps, script(AllStarts(steps) - 1), status, pending);
        if AnswersThePause(entry, resolutions) {
          PausedRecord(entry, Settled(entry, resolutions), tm.Now(), steps, script(AllStarts(steps) - 1), status, pending);
        }
      }
      var tasks := tm.Snapshot();
      record := RunRecord(status, tasks, pending, budget.Snapshot());
      RecordState(record);
    }
  }
}
