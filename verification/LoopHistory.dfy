/** The agent loop on histories of steps: its invariant, what one pass makes of its task, the books of a
    segment, how segments end, and what resolutions settle. */
module LoopHistories {
  import opened AgentAccounts
  import opened AgentTrace
  import opened Budgets
  import opened Helpers
  import opened TaskOutcomes
  import opened Wrappers

  datatype RunStatus = RunCompleted | RunFailed | RunWaitingForUser | RunBudgetExceeded

  // How a segment left the loop.
  datatype Ending = Normal | OutOfBudget | Paused

  /* ---------- Run status ---------- */

  ghost predicate AnyWaiting(b: Board) {
    exists id :: id in b.tasks && b.tasks[id].status == WaitingForUser
  }

  ghost predicate RequiredUnmet(b: Board) {
    exists id :: id in b.tasks && b.tasks[id].required && b.tasks[id].status in {Failed, Skipped}
  }

  ghost function StatusOf(ending: Ending, b: Board): RunStatus {
    if ending == OutOfBudget then RunBudgetExceeded
    else if ending == Paused || AnyWaiting(b) then RunWaitingForUser
    else if RequiredUnmet(b) then RunFailed
    else RunCompleted
  }

  // The confirmations a run's record lists: while it waits, those its waiting tasks wait for, each once.
  ghost predicate Reports(status: RunStatus, pending: seq<string>, b: Board) {
    && (forall i, j :: 0 <= i < j < |pending| ==> pending[i] != pending[j])
    && (forall c :: c in pending <==> status == RunWaitingForUser && PendingOn(b, c))
  }

  lemma OnePending(status: RunStatus, pending: seq<string>, b: Board, id: string, confirmation: string)
    requires Reports(status, pending, b) && PausedOn(b, id, confirmation) && status == RunWaitingForUser
    ensures pending == [confirmation]
  {
    assert PendingOn(b, confirmation);
    assert forall c :: PendingOn(b, c) ==> c == confirmation;
    forall i | 0 <= i < |pending| ensures i == 0 && pending[i] == confirmation {
      assert pending[i] in pending && pending[0] in pending;
    }
    assert pending[|pending| - 1] == confirmation;
  }

  ghost predicate AllRequiredCompleted(b: Board) {
    forall id :: id in b.tasks && b.tasks[id].required ==> b.tasks[id].status == Completed
  }

  // How a run that is over leaves its board, and what it counts as.
  ghost predicate Concluded(status: RunStatus, b: Board) {
    Fixpoint(b) && status == if AllRequiredCompleted(b) then RunCompleted else RunFailed
  }

  // The last step was to wait, and the run waits for that task and that confirmation alone.
  ghost predicate AwaitsOne(b: Board, steps: seq<Step>, pending: seq<string>) {
    && steps != [] && Last(steps).Wait?
    && PausedOn(b, Last(steps).id, Last(steps).confirmation) && pending == [Last(steps).confirmation]
  }

  lemma RequiredDichotomy(b: Board)
    requires forall id :: id in b.tasks ==> Finished(b, id)
    ensures RequiredUnmet(b) <==> !AllRequiredCompleted(b)
  {
    if id :| id in b.tasks && b.tasks[id].required && b.tasks[id].status != Completed {
      assert Finished(b, id);
    }
  }

  function StepFor(d: Decision, id: string): Step
    requires !d.OverBudget?
  {
    match d
    case Succeed => Complete(id)
    case TryAgain => Retry(id)
    case GiveUp => Fail(id)
    case GiveUpAndRepair => Fail(id)
    case AskUser(c) => Wait(id, c)
  }

  lemma SkipKeepsStuck(b: Board, id: string)
    requires Stuck(b) && b.Has(id, Pending)
    ensures Stuck(Apply(b, Skip(id)))
  {
    forall x | x in b.tasks
      ensures !Ready(Apply(b, Skip(id)), x)
    {
      if b.Has(x, Pending) {
        assert !Ready(b, x);
        var d :| d in b.tasks[x].dependsOn && !b.Has(d, Completed);
        assert !Apply(b, Skip(id)).Has(d, Completed);
      }
    }
  }

  // After history h nothing is ready, and `skips` is legal and only skips.
  ghost predicate OnlySkipped(entry: Board, h: seq<Step>, skips: seq<Step>) {
    && Legal(entry, h + skips) && OnlySkips(skips)
    && Replay(entry, h + skips).Valid() && Stuck(Replay(entry, h + skips))
    && Weight(Replay(entry, h + skips)) + |skips| <= Weight(Replay(entry, h))
  }

  lemma NothingSkipped(entry: Board, h: seq<Step>)
    requires Legal(entry, h) && Replay(entry, h).Valid() && Stuck(Replay(entry, h))
    ensures OnlySkipped(entry, h, [])
  {
    assert h + [] == h;
  }

  lemma SkipOneMore(entry: Board, h: seq<Step>, skips: seq<Step>, id: string)
    requires OnlySkipped(entry, h, skips) && Replay(entry, h + skips).Has(id, Pending)
    ensures OnlySkipped(entry, h, skips + [Skip(id)])
    ensures h + skips + [Skip(id)] == h + (skips + [Skip(id)])
  {
    var b := Replay(entry, h + skips);
    assert h + (skips + [Skip(id)]) == (h + skips) + [Skip(id)];
    Extend(entry, h + skips, Skip(id));
    hide Replay, Legal;
    SkipKeepsStuck(b, id);
    StepWeight(b, Skip(id));
    StepFrame(b, Skip(id));
  }

  /* ---------- The loop's invariant, on histories ---------- */

  // The loop entered with history h0. Since then `pre` ran tasks and `skips` skipped some.
  ghost predicate InLoop(entry: Board, h0: seq<Step>, pre: seq<Step>, skips: seq<Step>) {
    var now := Replay(entry, pre + skips);
    && h0 <= pre && NoSkips(pre) && OnlySkips(skips)
    && Legal(entry, pre + skips) && now.Valid()
    && (skips != [] ==> Stuck(now))
    && NothingLeftOpen(Replay(entry, h0), now)
  }

  lemma LoopBegins(entry: Board, h0: seq<Step>)
    requires Legal(entry, h0) && NoSkips(h0) && Replay(entry, h0).Valid()
    ensures InLoop(entry, h0, h0, []) && h0 + [] == h0
  {
    assert h0 + [] == h0;
  }

  lemma LoopFacts(entry: Board, h0: seq<Step>, pre: seq<Step>, skips: seq<Step>)
    ensures InLoop(entry, h0, pre, skips) ==>
              h0 <= pre && NoSkips(pre) && OnlySkips(skips) && Legal(entry, pre + skips)
    ensures InLoop(entry, h0, pre, skips) ==> (skips != [] ==> Stuck(Replay(entry, pre + skips)))
    ensures InLoop(entry, h0, pre, skips) ==> NothingLeftOpen(Replay(entry, h0), Replay(entry, pre + skips))
  {
  }

  lemma NotStuck(b: Board, id: string)
    ensures FirstReady(b, id) ==> id in b.tasks && !Stuck(b)
  {
  }

  lemma SkippedLeavesNothingOpen(before: Board, b: Board, b': Board)
    ensures NothingLeftOpen(before, b) && SkippedSome(b, b') ==> NothingLeftOpen(before, b')
  {
  }

  lemma LoopSkips(entry: Board, h0: seq<Step>, pre: seq<Step>, skips: seq<Step>, more: seq<Step>)
    requires InLoop(entry, h0, pre, skips) && Stuck(Replay(entry, pre + skips))
    requires more != [] && OnlySkipped(entry, pre + skips, more)
    ensures InLoop(entry, h0, pre, skips + more) && pre + skips + more == pre + (skips + more)
    ensures Weight(Replay(entry, pre + skips + more)) < Weight(Replay(entry, pre + skips))
  {
    hide Replay, Legal, NothingLeftOpen, SkippedSome, Stuck, Weight;
    assert pre + skips + more == pre + (skips + more);
    Compose(entry, pre + skips, more);
    SkippingStaysStuck(Replay(entry, pre + skips), more);
    SkippedLeavesNothingOpen(Replay(entry, h0), Replay(entry, pre + skips), Replay(entry, pre + skips + more));
  }

  lemma OneStep(entry: Board, pre: seq<Step>, s: Step)
    requires Legal(entry, pre) && Replay(entry, pre).Valid() && Allowed(Replay(entry, pre), s)
    ensures Legal(entry, pre + [s]) && Replay(entry, pre + [s]) == Apply(Replay(entry, pre), s)
    ensures Replay(entry, pre + [s]).Valid()
  {
    Extend(entry, pre, s);
    StepFrame(Replay(entry, pre), s);
  }

  lemma RunLeavesNothingOpen(before: Board, b: Board, id: string, d: Decision)
    requires b.Has(id, Pending) && !d.OverBudget? && !d.AskUser? && NothingLeftOpen(before, b)
    ensures NothingLeftOpen(before, Apply(Apply(b, Start(id)), StepFor(d, id)))
  {
    var b' := Apply(Apply(b, Start(id)), StepFor(d, id));
    assert b'.tasks[id].status in {Pending, Completed, Failed};
    assert forall x :: x in b.tasks && x != id ==> b'.tasks[x] == b.tasks[x];
  }

  lemma RunEffect(before: Board, b: Board, id: string, d: Decision)
    requires b.Valid() && FirstReady(b, id) && !d.OverBudget? && !d.AskUser?
    requires d.TryAgain? ==> b.tasks[id].attempt + 1 < b.tasks[id].maxAttempts
    requires NothingLeftOpen(before, b)
    ensures Apply(b, Start(id)).Valid() && Allowed(Apply(b, Start(id)), StepFor(d, id))
    ensures NothingLeftOpen(before, Apply(Apply(b, Start(id)), StepFor(d, id)))
    ensures Weight(Apply(Apply(b, Start(id)), StepFor(d, id))) < Weight(b)
  {
    RunLeavesNothingOpen(before, b, id, d);
    hide Weight, NothingLeftOpen;
    StepFrame(b, Start(id));
    StepWeight(b, Start(id));
    StepWeight(Apply(b, Start(id)), StepFor(d, id));
  }

  /** Running the first ready task to a settled end keeps the invariant and uses up attempts. */
  lemma LoopRuns(entry: Board, h0: seq<Step>, pre: seq<Step>, id: string, d: Decision)
    requires InLoop(entry, h0, pre, []) && FirstReady(Replay(entry, pre), id)
    requires !d.OverBudget? && !d.AskUser?
    requires d.TryAgain? ==> Replay(entry, pre).tasks[id].attempt + 1 < Replay(entry, pre).tasks[id].maxAttempts
    ensures InLoop(entry, h0, pre + [Start(id)] + [StepFor(d, id)], [])
    ensures Weight(Replay(entry, pre + [Start(id)] + [StepFor(d, id)])) < Weight(Replay(entry, pre))
  {
    hide Replay, Legal, Weight, Apply, NothingLeftOpen;
    assert pre + [] == pre;
    RunEffect(Replay(entry, h0), Replay(entry, pre), id, d);
    OneStep(entry, pre, Start(id));
    OneStep(entry, pre + [Start(id)], StepFor(d, id));
    var post := pre + [Start(id)] + [StepFor(d, id)];
    assert post + [] == post;
  }

  lemma LoopStarts(entry: Board, h0: seq<Step>, pre: seq<Step>, id: string)
    requires InLoop(entry, h0, pre, []) && FirstReady(Replay(entry, pre), id)
    ensures Legal(entry, pre) && Legal(entry, pre + [Start(id)]) && NoSkips(pre + [Start(id)])
    ensures Weight(Replay(entry, pre + [Start(id)])) < Weight(Replay(entry, pre))
  {
    hide Replay, Legal, NothingLeftOpen, Weight;
    assert pre + [] == pre;
    OneStep(entry, pre, Start(id));
    StepWeight(Replay(entry, pre), Start(id));
  }

  lemma WaitIsPending(b: Board, id: string, confirmation: string)
    requires id in b.tasks
    ensures PendingOn(Apply(b, Wait(id, confirmation)), confirmation)
  {
    assert Apply(b, Wait(id, confirmation)).Has(id, WaitingForUser);
  }

  /** Pausing on the first ready task leaves it the only newly open one. */
  lemma LoopPauses(entry: Board, h0: seq<Step>, pre: seq<Step>, id: string, confirmation: string)
    requires InLoop(entry, h0, pre, []) && FirstReady(Replay(entry, pre), id)
    ensures var post := pre + [Start(id)] + [Wait(id, confirmation)];
            && Legal(entry, post) && NoSkips(post) && Weight(Replay(entry, post)) < Weight(Replay(entry, pre))
            && OnlyOpened(Replay(entry, h0), Replay(entry, post), id) && PendingOn(Replay(entry, post), confirmation)
  {
    hide Replay, Legal, NothingLeftOpen, OnlyOpened, PendingOn, Weight;
    assert pre + [] == pre;
    LoopFacts(entry, h0, pre, []);
    LoopStarts(entry, h0, pre, id);
    PauseOpensOne(Replay(entry, h0), Replay(entry, pre), id, confirmation);
    WaitIsPending(Apply(Replay(entry, pre), Start(id)), id, confirmation);
    OneStep(entry, pre, Start(id));
    OneStep(entry, pre + [Start(id)], Wait(id, confirmation));
    StepWeight(Replay(entry, pre + [Start(id)]), Wait(id, confirmation));
  }

  lemma AddingLeavesNothingOpen(before: Board, b: Board, id: string, task: TaskView)
    ensures NothingLeftOpen(before, b) && id !in b.tasks && task.status == Pending ==>
              NothingLeftOpen(before, Apply(b, Add(id, task)))
  {
  }

  lemma LoopAdds(entry: Board, h0: seq<Step>, pre: seq<Step>, id: string, task: TaskView)
    requires InLoop(entry, h0, pre, [])
    requires id !in Replay(entry, pre).tasks && task.status == Pending && task.attempt == 0 && task.waitingOn == []
    ensures InLoop(entry, h0, pre + [Add(id, task)], [])
    ensures Weight(Replay(entry, pre + [Add(id, task)])) == Weight(Replay(entry, pre)) + Remaining(task)
  {
    hide Replay, Legal, Weight, Remaining, NothingLeftOpen;
    assert pre + [] == pre;
    AddingLeavesNothingOpen(Replay(entry, h0), Replay(entry, pre), id, task);
    AddWeight(Replay(entry, pre), id, task);
    OneStep(entry, pre, Add(id, task));
    var post := pre + [Add(id, task)];
    assert post + [] == post;
  }

  /* ---------- What one pass makes of its task ---------- */

  /** The status pass `p` leaves its task with, told by what happened in it. */
  ghost predicate OutcomeIs(b: Board, id: string, p: Pass, sent: CallsOutcome, attemptsLeft: bool, retryable: bool) {
    var unverified := Speaks(p) && sent.Observed? && !p.verdictOk;
    var again := attemptsLeft && (p.thought.BrainError? || (unverified && retryable));
    && (b.Has(id, Completed) <==> Speaks(p) && sent.Observed? && p.verdictOk)
    && (b.Has(id, Pending) <==> again)
    && (b.Has(id, WaitingForUser) <==> Speaks(p) && sent.CallsWait?)
    && (b.Has(id, Running) <==> Speaks(p) && sent.CallsOverBudget?)
    && (b.Has(id, Failed) <==> !again && (!Speaks(p) || unverified || sent.Refused?))
  }

  lemma DecisionOutcome(b: Board, id: string, d: Decision, p: Pass, sent: CallsOutcome, attemptsLeft: bool, retryable: bool)
    requires id in b.tasks && d == Decide(p, sent, attemptsLeft, retryable)
    requires !Speaks(p) ==> sent.Observed?
    ensures OutcomeIs(if d.OverBudget? then Apply(b, Start(id)) else Apply(Apply(b, Start(id)), StepFor(d, id)),
                      id, p, sent, attemptsLeft, retryable)
  {
    hide WithAction;
    var b' := Apply(b, Start(id));
    assert d.OverBudget? <==> Speaks(p) && sent.CallsOverBudget?;
    if !d.OverBudget? {
      assert Apply(b', StepFor(d, id)).tasks[id].status == match StepFor(d, id) {
          case Complete(_) => Completed
          case Retry(_) => Pending
          case Fail(_) => Failed
          case _ => WaitingForUser
        };
    }
  }

  // The decision of a pass is one that the pass calls for.
  lemma DecisionFits(c: Caps, startedAt: real, u: Usage, p: Pass, sent: CallsOutcome, count: nat, u': Usage,
                     attemptsLeft: bool, retryable: bool, id: string)
    requires Executes(c, startedAt, u, p, sent, count, u')
    ensures !Speaks(p) ==> sent.Observed?
    ensures var d := Decide(p, sent, attemptsLeft, retryable);
            !d.OverBudget? ==> Fits(p, StepFor(d, id)) && Settles(StepFor(d, id)) && StepFor(d, id).id == id
  {
    hide WithAction, AfterThinking;
    DecisionsAreEarned(c, startedAt, u, p, sent, count, u', attemptsLeft, retryable);
    if Speaks(p) && sent.Refused? {
      assert Proposed(p)[count - 1].choice == Deny;
    }
  }

  /** The last step of a segment that has paused: of the tasks not open at its beginning exactly one
      is open now, and waits for the confirmation an operator was asked for in pass `p`. */
  ghost predicate Pauses(before: Board, now: Board, steps: seq<Step>, p: Pass) {
    && steps != [] && Last(steps).Wait?
    && OnlyOpened(before, now, Last(steps).id) && PendingOn(now, Last(steps).confirmation)
    && AsksFor(p, Last(steps).confirmation)
  }

  lemma AskedIsPending(before: Board, now: Board, steps: seq<Step>, p: Pass, status: RunStatus, pending: seq<string>)
    ensures Pauses(before, now, steps, p) && status == RunWaitingForUser && Reports(status, pending, now) ==>
              steps != [] && Last(steps).Wait? && Last(steps).confirmation in pending
  {
  }

  lemma PausesFacts(before: Board, now: Board, steps: seq<Step>, p: Pass)
    requires Pauses(before, now, steps, p)
    ensures steps != [] && Last(steps).Wait? && AnyWaiting(now) && MayWait(p)
    ensures OnlyOpened(before, now, Last(steps).id)
  {
    assert now.Has(Last(steps).id, WaitingForUser);
    AskingIsWaiting(p, Last(steps).confirmation);
  }

  /* ---------- The books of a segment ---------- */

  // From usage u, log r and history h0 on, the first `starts` passes of the script have led to v, s and `pre`.
  ghost predicate Books(c: Caps, u: Usage, r: Log, h0: seq<Step>, v: Usage, s: Log, pre: seq<Step>,
                        script: nat -> Pass, starts: nat) {
    && Accounted(c, u, r, v, s) && Billed(u, v, First(script, starts))
    && LoggedBy(r, s, First(script, starts), u.iterations) && Explained(h0, pre, script)
    && AllStarts(pre) == AllStarts(h0) + starts
  }

  lemma BooksOpen(c: Caps, u: Usage, r: Log, h0: seq<Step>, script: nat -> Pass)
    ensures Books(c, u, r, h0, u, r, h0, script, 0)
  {
    AccountedRefl(c, u, r);
    NothingBilled(u);
    NothingLoggedBy(r, u.iterations);
    NothingToExplain(h0, script);
  }

  lemma BooksMean(c: Caps, u: Usage, r: Log, h0: seq<Step>, v: Usage, s: Log, pre: seq<Step>, script: nat -> Pass, starts: nat)
    requires Books(c, u, r, h0, v, s, pre, script, starts)
    ensures Accounted(c, u, r, v, s) && Billed(u, v, First(script, starts))
    ensures LoggedBy(r, s, First(script, starts), u.iterations) && Explained(h0, pre, script)
    ensures AllStarts(pre) == AllStarts(h0) + starts && v.iterations == u.iterations + starts
  {
    hide Accounted, LoggedBy, Explained, AllStarts;
  }

  lemma BooksOn(c: Caps, u: Usage, r: Log, h0: seq<Step>, v: Usage, s: Log, pre: seq<Step>, script: nat -> Pass, starts: nat,
                v': Usage, s': Log, pre': seq<Step>, more: seq<Pass>)
    requires Books(c, u, r, h0, v, s, pre, script, starts)
    requires Accounted(c, v, s, v', s') && Billed(v, v', more) && (more == [] || more == [script(starts)])
    requires if more == [] then s' == s && pre' == pre
             else PassLogged(s, s', script(starts), v.iterations + 1) && RunsOnce(pre, pre', script(starts))
    requires AllStarts(pre') - AllStarts(pre) == v'.iterations - v.iterations
    ensures Books(c, u, r, h0, v', s', pre', script, starts + |more|)
  {
    hide *;
    BooksMean(c, u, r, h0, v, s, pre, script, starts);
    AccountedTrans(c, u, r, v, s, v', s');
    BilledOn(u, v, v', script, starts, more);
    BilledIterations(v, v', more);
    LoggedOn(r, s, s', script, starts, more, u.iterations);
    if more != [] {
      ExplainsOneMore(h0, pre, pre', script, starts);
    }
    BooksMake(c, u, r, h0, v', s', pre', script, starts + |more|);
  }

  lemma BilledIterations(v: Usage, v': Usage, more: seq<Pass>)
    ensures Billed(v, v', more) ==> v'.iterations == v.iterations + |more|
  {
  }

  lemma BooksMake(c: Caps, u: Usage, r: Log, h0: seq<Step>, v: Usage, s: Log, pre: seq<Step>, script: nat -> Pass, starts: nat)
    requires Accounted(c, u, r, v, s) && Billed(u, v, First(script, starts))
    requires LoggedBy(r, s, First(script, starts), u.iterations) && Explained(h0, pre, script)
    requires AllStarts(pre) == AllStarts(h0) + starts
    ensures Books(c, u, r, h0, v, s, pre, script, starts)
  {
    hide Accounted, LoggedBy, Explained, AllStarts, Billed, First;
  }

  /* ---------- Repairs ---------- */

  // From b to b' this record was brought in, unless its id was taken.
  ghost predicate Brought(b: Board, b': Board, id: string, task: TaskView) {
    id in b'.tasks && (id !in b.tasks ==> b'.tasks[id] == task)
  }

  // The two tasks that repair a failed write: write again, then read back.
  ghost predicate Repaired(b: Board, b': Board, id: string, required: bool) {
    && Brought(b, b', "repair-" + id, TaskView(Pending, [], 0, 3, required, []))
    && Brought(b, b', "reverify-" + id, TaskView(Pending, ["repair-" + id], 0, 3, required, []))
  }

  function Inserting(b: Board, id: string, task: TaskView): Board {
    if id in b.tasks then b else Apply(b, Add(id, task))
  }

  lemma InsertingBrings(b: Board, now: Board, id: string, task: TaskView, id': string, task': TaskView)
    ensures b.tasks.Keys <= now.tasks.Keys ==> b.tasks.Keys <= Inserting(now, id, task).tasks.Keys
    ensures b.tasks.Keys <= now.tasks.Keys ==>
              (id !in now.tasks || id in b.tasks ==> Brought(b, Inserting(now, id, task), id, task))
    ensures b.tasks.Keys <= now.tasks.Keys ==>
              (Brought(b, now, id', task') ==> Brought(b, Inserting(now, id, task), id', task'))
  {
  }

  // The same ids as before, and those of the tasks brought in.
  ghost predicate IdsAre(b: Board, now: Board, brought: set<string>) {
    now.tasks.Keys == b.tasks.Keys + brought
  }

  lemma InsertingIds(b: Board, now: Board, brought: set<string>, id: string, task: TaskView)
    ensures IdsAre(b, now, brought) ==> IdsAre(b, Inserting(now, id, task), brought + {id})
    ensures IdsAre(b, now, brought) ==>
              (b.tasks.Keys <= now.tasks.Keys && (id in now.tasks <==> id in b.tasks || id in brought))
  {
  }

  lemma NothingBrought(b: Board)
    ensures IdsAre(b, b, {})
  {
  }

  /* ---------- How segments end ---------- */

  lemma FreshNormalEnd(entry: Board, b: Board, steps: seq<Step>, skips: seq<Step>)
    requires FreshPlan(entry) && Legal(entry, steps + skips) && NoSkips(steps) && OnlySkips(skips)
    requires b == Replay(entry, steps + skips) && NonePending(b) && NothingLeftOpen(entry, b)
    ensures Fixpoint(b) && !AnyWaiting(b)
    ensures StatusOf(Normal, b) == if AllRequiredCompleted(b) then RunCompleted else RunFailed
  {
    hide Replay, Legal, Fixpoint;
    forall id | id in b.tasks
      ensures Finished(b, id)
    {
      assert b.tasks[id].status !in {Running, Retrying, WaitingForUser};
    }
    FreshRunFixpoint(entry, steps, skips);
    RequiredDichotomy(b);
  }

  lemma FreshIsQuiet(b: Board)
    ensures FreshPlan(b) ==>
              (NoneOpen(b) && NoneSkipped(b) && forall id :: id in b.tasks ==> b.tasks[id].status == Pending)
  {
  }

  // Before a pause nothing was open or skipped, so that its task and its confirmation are the only ones.
  lemma PausedRecord(entry: Board, from: Board, b: Board, steps: seq<Step>, p: Pass, status: RunStatus, pending: seq<string>)
    requires Legal(entry, steps) && NoSkips(steps) && b == Replay(entry, steps) && Pauses(from, b, steps, p)
    requires NoneOpen(from) && NoneSkipped(entry) && Unasked(entry)
    requires status == StatusOf(Paused, b) && Reports(status, pending, b)
    ensures AwaitsOne(b, steps, pending) && status == RunWaitingForUser
  {
    hide Replay, Legal, NoSkips, NoneOpen, NoneSkipped, Unasked, PausedOn, Reports, OnlyOpened, AsksFor;
    PauseIsOnOne(entry, from, steps);
    OnePending(status, pending, b, Last(steps).id, Last(steps).confirmation);
  }

  lemma NotPaused(ending: Ending, b: Board)
    ensures ending == OutOfBudget ==> StatusOf(ending, b) == RunBudgetExceeded
    ensures ending == Normal && !AnyWaiting(b) ==> StatusOf(ending, b) in {RunCompleted, RunFailed}
    ensures StatusOf(Paused, b) == RunWaitingForUser
  {
  }

  lemma FreshRunIsConsistent(b: Board, steps: seq<Step>)
    requires FreshPlan(b) && Legal(b, steps)
    ensures Consistent(Replay(b, steps), Completions(steps))
  {
    FreshIsConsistent(b);
    LegalKeepsConsistent(b, [], steps);
    assert [] + Completions(steps) == Completions(steps);
  }

  lemma ConcludedAt(status: RunStatus, b: Board)
    requires Fixpoint(b) && status == if AllRequiredCompleted(b) then RunCompleted else RunFailed
    ensures Concluded(status, b)
  {
  }

  /* ---------- Resolutions ---------- */

  // What the resolutions say about a waiting task: nothing, executed, or not executed.
  function Answer(waitingOn: seq<string>, resolutions: map<string, bool>): Option<bool> {
    if exists c :: c in waitingOn && c in resolutions && resolutions[c] then Some(true)
    else if exists c :: c in waitingOn && c in resolutions then Some(false)
    else None
  }

  function Resolved(answer: Option<bool>): TaskStatus {
    match answer
    case None => WaitingForUser
    case Some(executed) => if executed then Completed else Failed
  }

  /** A waiting task is completed exactly when one of its confirmations was resolved as executed, failed
      when some were resolved but none so, and left waiting when none was. */
  lemma SettledExactly(b: Board, id: string, resolutions: map<string, bool>)
    requires b.Has(id, WaitingForUser)
    ensures var c := b.tasks[id].waitingOn;
            var after := Settled(b, resolutions);
            && (after.Has(id, Completed) <==> exists x :: x in c && x in resolutions && resolutions[x])
            && (after.Has(id, WaitingForUser) <==> forall x :: x in c ==> x !in resolutions)
            && (after.Has(id, Failed) <==>
                  (exists x :: x in c && x in resolutions) && forall x :: x in c && x in resolutions ==> !resolutions[x])
  {
  }

  // The board after settling those of `ids` that wait.
  ghost function SettledAmong(b: Board, ids: set<string>, resolutions: map<string, bool>): Board {
    b.(tasks := map id | id in b.tasks ::
         if id in ids && b.tasks[id].status == WaitingForUser
         then b.tasks[id].(status := Resolved(Answer(b.tasks[id].waitingOn, resolutions)))
         else b.tasks[id])
  }

  // The board after the resolutions: each waiting task completed, failed, or left waiting.
  ghost function Settled(b: Board, resolutions: map<string, bool>): Board {
    SettledAmong(b, b.tasks.Keys, resolutions)
  }

  ghost predicate AllAnswered(b: Board, resolutions: map<string, bool>) {
    forall id :: b.Has(id, WaitingForUser) ==> exists c :: c in b.tasks[id].waitingOn && c in resolutions
  }

  lemma AnsweredLeavesNoneWaiting(b: Board, resolutions: map<string, bool>)
    ensures AllAnswered(b, resolutions) <==> NoneWaiting(Settled(b, resolutions))
  {
    forall id | b.Has(id, WaitingForUser)
      ensures Settled(b, resolutions).Has(id, WaitingForUser)
              <==> !exists c :: c in b.tasks[id].waitingOn && c in resolutions
    {
    }
    forall id ensures Settled(b, resolutions).Has(id, WaitingForUser) ==> b.Has(id, WaitingForUser) {
    }
  }

  lemma SettledOne(b: Board, id: string, resolutions: map<string, bool>)
    requires b.Has(id, WaitingForUser)
    ensures SettledAmong(b, {id}, resolutions)
            == match Answer(b.tasks[id].waitingOn, resolutions)
               case None => b
               case Some(executed) => Apply(b, if executed then Complete(id) else Fail(id))
  {
    hide Answer;
    var answer := Answer(b.tasks[id].waitingOn, resolutions);
    assert answer.None? ==> SettledAmong(b, {id}, resolutions).tasks == b.tasks;
    assert answer.Some? ==>
        SettledAmong(b, {id}, resolutions).tasks == Apply(b, if answer.value then Complete(id) else Fail(id)).tasks;
  }

  lemma SettledOneMore(b: Board, ids: set<string>, id: string, resolutions: map<string, bool>)
    requires id !in ids
    ensures SettledAmong(SettledAmong(b, ids, resolutions), {id}, resolutions) == SettledAmong(b, ids + {id}, resolutions)
  {
    hide Answer, Resolved;
    assert SettledAmong(SettledAmong(b, ids, resolutions), {id}, resolutions).tasks
        == SettledAmong(b, ids + {id}, resolutions).tasks;
  }

  lemma SettledNone(b: Board, resolutions: map<string, bool>)
    ensures SettledAmong(b, {}, resolutions) == b
  {
    assert SettledAmong(b, {}, resolutions).tasks == b.tasks;
  }

  lemma SettledAll(b: Board, ids: set<string>, resolutions: map<string, bool>)
    requires forall id :: b.Has(id, WaitingForUser) ==> id in ids
    ensures SettledAmong(b, ids, resolutions) == Settled(b, resolutions)
  {
    assert SettledAmong(b, ids, resolutions).tasks == Settled(b, resolutions).tasks;
  }

  lemma ResolveStep(b: Board, steps: seq<Step>, id: string, s: Step)
    requires b.Valid() && Legal(b, steps) && OnlySettles(steps) && Replay(b, steps).Has(id, WaitingForUser)
    requires s == Complete(id) || s == Fail(id)
    ensures Legal(b, steps + [s]) && OnlySettles(steps + [s]) && AllStarts(steps + [s]) == AllStarts(steps)
    ensures Weight(Apply(Replay(b, steps), s)) == Weight(Replay(b, steps))
  {
    ReplayKeepsShape(b, steps);
    Extend(b, steps, s);
    CountsExtend(steps, s);
    hide Weight, Replay;
    StepWeight(Replay(b, steps), s);
  }

  lemma SegmentEnd(entry: Board, done: seq<string>, steps: seq<Step>, skips: seq<Step>)
    requires entry.Valid() && Consistent(entry, done) && Legal(entry, steps + skips)
    requires NoSkips(steps) && OnlySkips(skips)
    ensures Consistent(Replay(entry, steps + skips), done + Completions(steps + skips))
    ensures NonePending(Replay(entry, steps + skips)) ==> SkipsTheDoomed(entry, Replay(entry, steps + skips))
  {
    hide Replay, Legal, Consistent, SkipsTheDoomed;
    LegalKeepsConsistent(entry, done, steps + skips);
    if NonePending(Replay(entry, steps + skips)) {
      SegmentSkipsTheDoomed(entry, done, steps, skips);
    }
  }

  /** A resolution is final, and a task left waiting is still waiting when the loop ends normally. */
  lemma ResolutionStands(entry: Board, h: seq<Step>, steps: seq<Step>, id: string, settled: TaskStatus)
    requires Legal(entry, steps) && h <= steps && Replay(entry, h).Has(id, settled)
    requires settled in {Completed, Failed, WaitingForUser}
    ensures settled != WaitingForUser ==> Replay(entry, steps).Has(id, settled)
    ensures NothingLeftOpen(Replay(entry, h), Replay(entry, steps)) ==> Replay(entry, steps).Has(id, settled)
  {
    assert steps == h + steps[|h|..];
    Compose(entry, h, steps[|h|..]);
    if settled != WaitingForUser {
      FinishedIsFinal(Replay(entry, h), steps[|h|..], id);
    }
  }

  // Some tasks were settled by their resolutions; since then each was settled by the pass that ran it.
  ghost predicate ResumedAs(entry: Board, resolutions: map<string, bool>, steps: seq<Step>, script: nat -> Pass) {
    exists k: nat :: SettledThenRan(entry, resolutions, steps, script, k)
  }

  ghost predicate SettledThenRan(entry: Board, resolutions: map<string, bool>, steps: seq<Step>, script: nat -> Pass, k: nat) {
    k <= |steps| && OnlySettles(steps[..k]) && Replay(entry, steps[..k]) == Settled(entry, resolutions)
    && Explained(steps[..k], steps, script)
  }

  lemma ResumedByHistory(entry: Board, resolutions: map<string, bool>, h: seq<Step>, steps: seq<Step>, script: nat -> Pass)
    requires OnlySettles(h) && Replay(entry, h) == Settled(entry, resolutions) && h <= steps && Explained(h, steps, script)
    ensures ResumedAs(entry, resolutions, steps, script)
  {
    hide OnlySettles, Replay, Settled, Explained;
    assert steps[..|h|] == h;
    assert SettledThenRan(entry, resolutions, steps, script, |h|);
  }

  // Every resolution still holds; at a normal end so does every wait that was not resolved.
  ghost predicate ResolutionsStand(settled: Board, b: Board, ending: Ending) {
    forall id :: id in settled.tasks
      && (settled.tasks[id].status in {Completed, Failed} || (settled.tasks[id].status == WaitingForUser && ending == Normal))
      ==> b.Has(id, settled.tasks[id].status)
  }

  lemma AllResolutionsStand(entry: Board, h: seq<Step>, steps: seq<Step>, ending: Ending)
    requires Legal(entry, steps) && h <= steps
    requires ending == Normal ==> NothingLeftOpen(Replay(entry, h), Replay(entry, steps))
    ensures ResolutionsStand(Replay(entry, h), Replay(entry, steps), ending)
  {
    hide Replay, Legal, NothingLeftOpen;
    var settled := Replay(entry, h);
    forall id | id in settled.tasks && settled.tasks[id].status in {Completed, Failed, WaitingForUser}
      ensures settled.tasks[id].status != WaitingForUser || ending == Normal
              ==> Replay(entry, steps).Has(id, settled.tasks[id].status)
    {
      ResolutionStands(entry, h, steps, id, settled.tasks[id].status);
    }
  }

  ghost predicate DependentsOfWaitingSkipped(b: Board) {
    forall walk :: DependencyWalk(b, walk) && b.Has(walk[|walk| - 1], WaitingForUser) ==> b.Has(walk[0], Skipped)
  }

  lemma WaitingHoldsUp(entry: Board, steps: seq<Step>, end: Board)
    requires Legal(entry, steps) && end == Replay(entry, steps) && NonePending(end) && SkipsTheDoomed(entry, end)
    ensures DependentsOfWaitingSkipped(end)
  {
    hide Replay, Legal, SkipsTheDoomed, Edge, NonePending;
    forall x | entry.Has(x, Skipped) ensures end.Has(x, Skipped) {
      FinishedIsFinal(entry, steps, x);
    }
    forall walk | DependencyWalk(end, walk) && end.Has(walk[|walk| - 1], WaitingForUser)
      ensures end.Has(walk[0], Skipped)
    {
      DependentsOfWaitingAreSkipped(entry, end, walk);
    }
  }

  // The tasks this segment skipped are those closed off, none of them by a wait.
  ghost predicate SkipsTheClosedOff(entry: Board, end: Board) {
    forall id :: id in end.tasks && !entry.Has(id, Skipped) ==> (end.Has(id, Skipped) <==> ClosedOff(entry, end, id))
  }

  lemma NormalEndOfAnswered(entry: Board, settled: Board, end: Board)
    requires NothingLeftOpen(settled, end) && SkipsTheDoomed(entry, end)
    ensures NoneWaiting(end) <==> NoneWaiting(settled)
    ensures NoneWaiting(end) ==> SkipsTheClosedOff(entry, end)
  {
    assert forall id :: end.Has(id, WaitingForUser) <==> settled.Has(id, WaitingForUser);
    if NoneWaiting(end) {
      forall id | id in end.tasks && !entry.Has(id, Skipped)
        ensures end.Has(id, Skipped) <==> ClosedOff(entry, end, id)
      {
        DoomedIsClosedOff(entry, end, id);
      }
    }
  }

  // A paused run, one task waiting on one confirmation, and that confirmation resolved.
  ghost predicate AnswersThePause(b: Board, resolutions: map<string, bool>) {
    exists id, c :: PausedOn(b, id, c) && c in resolutions
  }

  lemma AnsweredPause(b: Board, resolutions: map<string, bool>)
    requires AnswersThePause(b, resolutions)
    ensures NoneOpen(Settled(b, resolutions)) && NoneSkipped(b) && Unasked(b)
  {
    var id, c :| PausedOn(b, id, c) && c in resolutions;
    assert c in b.tasks[id].waitingOn;
  }

  lemma AnsweredNormalEnd(entry: Board, settled: Board, end: Board)
    requires NoneOpen(settled) && NothingLeftOpen(settled, end) && NonePending(end)
    requires NoneSkipped(entry) && SkipsTheDoomed(entry, end)
    ensures Fixpoint(end) && !AnyWaiting(end)
    ensures StatusOf(Normal, end) == if AllRequiredCompleted(end) then RunCompleted else RunFailed
  {
    hide Fixpoint, SkipsTheDoomed;
    forall id | id in end.tasks ensures Finished(end, id) {
      assert !Open(end.tasks[id].status);
    }
    FinishedIsFixpoint(entry, end);
    RequiredDichotomy(end);
  }

  lemma SettlesOnly(steps: seq<Step>)
    ensures OnlySettles(steps) ==> NoSkips(steps)
  {
  }

  lemma SameIds(b: Board, id: string, d: Decision)
    ensures id in b.tasks ==> Apply(b, Start(id)).tasks.Keys == b.tasks.Keys
    ensures id in b.tasks ==>
              (!d.OverBudget? ==> Apply(Apply(b, Start(id)), StepFor(d, id)).tasks.Keys == b.tasks.Keys)
  {
  }

  lemma StepForCounts(steps: seq<Step>, id: string)
    ensures AllStarts(steps + [Start(id)]) == AllStarts(steps) + 1
    ensures Adds(steps + [Start(id)]) == Adds(steps)
    ensures forall d: Decision :: !d.OverBudget? ==>
              AllStarts(steps + [StepFor(d, id)]) == AllStarts(steps) && Adds(steps + [StepFor(d, id)]) == Adds(steps)
  {
    CountsExtend(steps, Start(id));
    forall d: Decision | !d.OverBudget?
      ensures AllStarts(steps + [StepFor(d, id)]) == AllStarts(steps) && Adds(steps + [StepFor(d, id)]) == Adds(steps)
    {
      CountsExtend(steps, StepFor(d, id));
    }
  }

  lemma StepForAskUser(d: Decision, id: string)
    ensures d.AskUser? ==> StepFor(d, id) == Wait(id, d.confirmation)
  {
  }

  lemma PausesHere(before: Board, now: Board, earlier: seq<Step>, id: string, confirmation: string, p: Pass)
    ensures OnlyOpened(before, now, id) && PendingOn(now, confirmation) && AsksFor(p, confirmation) ==>
              Pauses(before, now, earlier + [Wait(id, confirmation)], p)
  {
  }

  lemma NoneAppended(pre: seq<Step>)
    ensures pre + [] == pre
    ensures OnlySkips([])
  {
  }

  // The history after a pass that started task `id` and came to decision d.
  function AfterPass(pre: seq<Step>, id: string, d: Decision): seq<Step> {
    pre + [Start(id)] + if d.OverBudget? then [] else [StepFor(d, id)]
  }

  lemma AfterPassIs(pre: seq<Step>, id: string, d: Decision)
    ensures d.OverBudget? ==> AfterPass(pre, id, d) == pre + [Start(id)]
    ensures !d.OverBudget? ==> AfterPass(pre, id, d) == pre + [Start(id)] + [StepFor(d, id)]
  {
  }

  /** One pass over a ready task, on histories: the task ends as the pass says, the invariant holds or the
      segment has paused, and attempts have been used up. */
  lemma PassDone(c: Caps, startedAt: real, u: Usage, u': Usage, entry: Board, h0: seq<Step>, pre: seq<Step>, id: string,
                 p: Pass, sent: CallsOutcome, count: nat, left: bool, retryable: bool)
    requires InLoop(entry, h0, pre, []) && FirstReady(Replay(entry, pre), id) && id in Replay(entry, pre).tasks
    requires Executes(c, startedAt, u, p, sent, count, u')
    requires left ==> Replay(entry, pre).tasks[id].attempt + 1 < Replay(entry, pre).tasks[id].maxAttempts
    ensures var d := Decide(p, sent, left, retryable);
            var post := AfterPass(pre, id, d);
            && OutcomeIs(Replay(entry, post), id, p, sent, left, retryable)
            && RunsOnce(pre, post, p) && Replay(entry, post).tasks.Keys == Replay(entry, pre).tasks.Keys
            && Legal(entry, post) && NoSkips(post) && Weight(Replay(entry, post)) < Weight(Replay(entry, pre))
            && (d.AskUser? ==> Pauses(Replay(entry, h0), Replay(entry, post), post, p))
            && (!d.OverBudget? && !d.AskUser? ==> InLoop(entry, h0, post, []))
            && AllStarts(post) == AllStarts(pre) + 1 && Adds(post) == Adds(pre)
  {
    hide *;
    var d := Decide(p, sent, left, retryable);
    AfterPassIs(pre, id, d);
    LoopStarts(entry, h0, pre, id);
    StepForCounts(pre, id);
    StepForCounts(pre + [Start(id)], id);
    Extend(entry, pre, Start(id));
    StartedOnce(pre, id, p);
    DecisionsAreEarned(c, startedAt, u, p, sent, count, u', left, retryable);
    DecisionFits(c, startedAt, u, p, sent, count, u', left, retryable, id);
    DecisionOutcome(Replay(entry, pre), id, d, p, sent, left, retryable);
    SameIds(Replay(entry, pre), id, d);
    if !d.OverBudget? {
      Extend(entry, pre + [Start(id)], StepFor(d, id));
      SettledOnce(pre, id, StepFor(d, id), p);
      StepForAskUser(d, id);
      if d.AskUser? {
        LoopPauses(entry, h0, pre, id, d.confirmation);
        PausesHere(Replay(entry, h0), Replay(entry, AfterPass(pre, id, d)), pre + [Start(id)], id, d.confirmation, p);
      } else {
        LoopRuns(entry, h0, pre, id, d);
        LoopFacts(entry, h0, AfterPass(pre, id, d), []);
        NoneAppended(AfterPass(pre, id, d));
      }
    }
  }
}
