/** What the agent loop may do to its tasks, as a history of steps, and what every legal
    history guarantees. `TaskManager` and `AgentLoop` are proved to follow it. */
module AgentTrace {
  import opened Helpers

  datatype TaskStatus = Pending | Running | Completed | Failed | Retrying | WaitingForUser | Skipped

  datatype TaskView = TaskView(status: TaskStatus, dependsOn: seq<string>, attempt: int,
                               maxAttempts: int, required: bool, waitingOn: seq<string>)

  /** The task dictionary: its entries and their insertion order. */
  datatype Board = Board(order: seq<string>, tasks: map<string, TaskView>) {
    ghost predicate Valid() {
      && (forall id :: id in tasks <==> id in order)
      && (forall i, j :: 0 <= i < j < |order| ==> order[i] != order[j])
    }

    predicate Has(id: string, status: TaskStatus) {
      id in tasks && tasks[id].status == status
    }
  }

  /* ---------- Readiness ---------- */

  predicate DepsCompleted(b: Board, id: string)
    requires id in b.tasks
  {
    forall d :: d in b.tasks[id].dependsOn ==> b.Has(d, Completed)
  }

  predicate Ready(b: Board, id: string) {
    b.Has(id, Pending) && DepsCompleted(b, id)
  }

  ghost predicate Stuck(b: Board) {
    forall id :: id in b.tasks ==> !Ready(b, id)
  }

  predicate FirstReady(b: Board, id: string) {
    && Ready(b, id)
    && exists n :: 0 <= n < |b.order| && b.order[n] == id && forall i :: 0 <= i < n ==> !Ready(b, b.order[i])
  }

  ghost predicate NonePending(b: Board) {
    forall id :: id in b.tasks ==> b.tasks[id].status != Pending
  }

  /* ---------- Steps ---------- */

  datatype Step =
    | Start(id: string)
    | Complete(id: string)
    | Fail(id: string)
    | Retry(id: string)
    | Overrun(id: string) // a retry asked for at the attempt cap
    | Wait(id: string, confirmation: string)
    | Skip(id: string)
    | Add(id: string, task: TaskView)

  ghost predicate Allowed(b: Board, s: Step) {
    match s
    case Start(id) => FirstReady(b, id)
    case Complete(id) => b.Has(id, Running) || b.Has(id, WaitingForUser)
    case Fail(id) => b.Has(id, Running) || b.Has(id, WaitingForUser)
    case Retry(id) => b.Has(id, Running) && b.tasks[id].attempt + 1 < b.tasks[id].maxAttempts
    case Overrun(_) => false
    case Wait(id, _) => b.Has(id, Running)
    case Skip(id) => b.Has(id, Pending) && Stuck(b)
    case Add(id, task) => id !in b.tasks && task.status == Pending && task.attempt == 0 && task.waitingOn == []
  }

  // What a step does to the record of the task it names.
  function Changed(t: TaskView, s: Step): TaskView {
    match s
    case Start(_) => t.(status := Running)
    case Complete(_) => t.(status := Completed)
    case Fail(_) => t.(status := Failed)
    case Retry(_) => t.(status := Pending, attempt := t.attempt + 1)
    case Overrun(_) => t.(attempt := t.attempt + 1)
    case Wait(_, c) => t.(status := WaitingForUser, waitingOn := if c in t.waitingOn then t.waitingOn else t.waitingOn + [c])
    case Skip(_) => t.(status := Skipped)
    case Add(_, _) => t
  }

  function Apply(b: Board, s: Step): Board {
    if s.id in b.tasks then b.(tasks := b.tasks[s.id := Changed(b.tasks[s.id], s)])
    else if s.Add? then Board(b.order + [s.id], b.tasks[s.id := s.task])
    else b
  }

  function Replay(b: Board, steps: seq<Step>): Board {
    if steps == [] then b else Apply(Replay(b, Front(steps)), Last(steps))
  }

  ghost predicate Legal(b: Board, steps: seq<Step>) {
    steps == [] || (Legal(b, Front(steps)) && Allowed(Replay(b, Front(steps)), Last(steps)))
  }

  lemma ReplayNothing(b: Board)
    ensures Replay(b, []) == b && Legal(b, [])
  {
  }

  lemma Extend(b: Board, steps: seq<Step>, s: Step)
    ensures Replay(b, steps + [s]) == Apply(Replay(b, steps), s)
    ensures Legal(b, steps + [s]) <==> Legal(b, steps) && Allowed(Replay(b, steps), s)
  {
    assert Front(steps + [s]) == steps;
  }

  lemma {:induction false} Compose(b: Board, pre: seq<Step>, post: seq<Step>)
    ensures Replay(b, pre + post) == Replay(Replay(b, pre), post)
    ensures Legal(b, pre + post) <==> Legal(b, pre) && Legal(Replay(b, pre), post)
    decreases |post|
  {
    if post == [] {
      assert pre + post == pre;
    } else {
      Compose(b, pre, Front(post));
      assert Front(pre + post) == pre + Front(post);
    }
  }

  /** One allowed step changes at most status, attempt and confirmations of the task it names, adds no
      completed task except by completing it, and never undoes a completion. */
  lemma StepFrame(b: Board, s: Step)
    requires Allowed(b, s)
    ensures Apply(b, s).tasks.Keys == b.tasks.Keys + (if s.Add? then {s.id} else {})
    ensures forall id :: id in b.tasks && id != s.id ==> Apply(b, s).tasks[id] == b.tasks[id]
    ensures s.id in b.tasks ==>
              && Apply(b, s).tasks[s.id].dependsOn == b.tasks[s.id].dependsOn
              && Apply(b, s).tasks[s.id].maxAttempts == b.tasks[s.id].maxAttempts
              && Apply(b, s).tasks[s.id].required == b.tasks[s.id].required
    ensures forall id :: Apply(b, s).Has(id, Completed) <==> b.Has(id, Completed) || s == Complete(id)
    ensures b.Valid() ==> Apply(b, s).Valid()
  {
  }

  lemma {:induction false} ReplayKeepsShape(b: Board, steps: seq<Step>)
    requires b.Valid() && Legal(b, steps)
    ensures Replay(b, steps).Valid()
    ensures forall id :: id in b.tasks ==>
              && id in Replay(b, steps).tasks
              && Replay(b, steps).tasks[id].dependsOn == b.tasks[id].dependsOn
              && Replay(b, steps).tasks[id].maxAttempts == b.tasks[id].maxAttempts
              && Replay(b, steps).tasks[id].required == b.tasks[id].required
    decreases |steps|
  {
    if steps == [] {
    } else {
      ReplayKeepsShape(b, Front(steps));
      StepFrame(Replay(b, Front(steps)), Last(steps));
      hide Apply, Allowed;
    }
  }

  /* ---------- Finished tasks stay finished ---------- */

  predicate Finished(b: Board, id: string) {
    b.Has(id, Completed) || b.Has(id, Failed) || b.Has(id, Skipped)
  }

  /** COMPLETED, FAILED and SKIPPED are absorbing; in particular a repair that succeeds never
      rescues the task it repairs. */
  lemma {:induction false} FinishedIsFinal(b: Board, steps: seq<Step>, id: string)
    requires Legal(b, steps) && Finished(b, id)
    ensures Replay(b, steps).tasks.Keys >= {id} && Replay(b, steps).tasks[id] == b.tasks[id]
    decreases |steps|
  {
    if steps == [] {
    } else {
      FinishedIsFinal(b, Front(steps), id);
    }
  }

  /* ---------- Attempts are conserved ---------- */

  function Starts(steps: seq<Step>, id: string): nat {
    if steps == [] then 0
    else Starts(Front(steps), id) + (if Last(steps) == Start(id) then 1 else 0)
  }

  function AllStarts(steps: seq<Step>): nat {
    if steps == [] then 0 else AllStarts(Front(steps)) + (if Last(steps).Start? then 1 else 0)
  }

  function Adds(steps: seq<Step>): nat {
    if steps == [] then 0 else Adds(Front(steps)) + (if Last(steps).Add? then 1 else 0)
  }

  function AllSkips(steps: seq<Step>): nat {
    if steps == [] then 0 else AllSkips(Front(steps)) + (if Last(steps).Skip? then 1 else 0)
  }

  lemma {:induction false} SkipsAreCounted(steps: seq<Step>, skips: seq<Step>)
    requires NoSkips(steps) && OnlySkips(skips)
    ensures AllSkips(steps + skips) == |skips|
    decreases |steps| + |skips|
  {
    if skips != [] {
      SkipsAreCounted(steps, Front(skips));
      assert Front(steps + skips) == steps + Front(skips);
    } else if steps != [] {
      SkipsAreCounted(Front(steps), []);
      assert steps + [] == steps && Front(steps) + [] == Front(steps);
    }
  }

  lemma CountsExtend(steps: seq<Step>, s: Step)
    ensures AllStarts(steps + [s]) == AllStarts(steps) + (if s.Start? then 1 else 0)
    ensures Adds(steps + [s]) == Adds(steps) + (if s.Add? then 1 else 0)
  {
    assert Front(steps + [s]) == steps;
  }

  lemma {:induction false} SkipsCountNothing(steps: seq<Step>, skips: seq<Step>)
    requires OnlySkips(skips)
    ensures AllStarts(steps + skips) == AllStarts(steps) && Adds(steps + skips) == Adds(steps)
    decreases |skips|
  {
    if skips == [] {
      assert steps + skips == steps;
    } else {
      SkipsCountNothing(steps, Front(skips));
      assert steps + skips == steps + Front(skips) + [Last(skips)];
      CountsExtend(steps + Front(skips), Last(skips));
    }
  }

  // How many starts a task's record accounts for.
  function Used(b: Board, id: string): int {
    if id !in b.tasks then 0
    else b.tasks[id].attempt + (if b.tasks[id].status in {Pending, Skipped} then 0 else 1)
  }

  ghost predicate AttemptsInRange(b: Board) {
    forall id :: id in b.tasks ==> b.tasks[id].attempt == 0 || 0 < b.tasks[id].attempt < b.tasks[id].maxAttempts
  }

  /** Every start is accounted for by the attempt counter, exactly. */
  lemma {:induction false} StartsAreCounted(b: Board, steps: seq<Step>, id: string)
    requires Legal(b, steps)
    ensures Used(b, id) + Starts(steps, id) == Used(Replay(b, steps), id)
    decreases |steps|
  {
    if steps == [] {
    } else {
      StartsAreCounted(b, Front(steps), id);
    }
  }

  lemma {:induction false} AttemptsStayInRange(b: Board, steps: seq<Step>)
    requires Legal(b, steps) && AttemptsInRange(b)
    ensures AttemptsInRange(Replay(b, steps))
    decreases |steps|
  {
    if steps == [] {
    } else {
      AttemptsStayInRange(b, Front(steps));
    }
  }

  /** No task starts more than max(1, max_attempts) times, those counted that its record already
      accounts for. */
  lemma StartsAreBounded(b: Board, steps: seq<Step>, id: string)
    requires b.Valid() && Legal(b, steps) && AttemptsInRange(b)
    requires id in Replay(b, steps).tasks
    ensures var cap := Replay(b, steps).tasks[id].maxAttempts;
            Used(b, id) + Starts(steps, id) <= if cap < 1 then 1 else cap
  {
    StartsAreCounted(b, steps, id);
    AttemptsStayInRange(b, steps);
  }

  // The histories of a run's segments, one after another.
  function Joined(segments: seq<seq<Step>>): seq<Step> {
    if segments == [] then [] else Joined(Front(segments)) + Last(segments)
  }

  // Each segment is legal from the board the one before it has left.
  ghost predicate LegalSegments(b: Board, segments: seq<seq<Step>>) {
    segments == []
    || (LegalSegments(b, Front(segments)) && Legal(Replay(b, Joined(Front(segments))), Last(segments)))
  }

  lemma {:induction false} SegmentsJoin(b: Board, segments: seq<seq<Step>>)
    requires LegalSegments(b, segments)
    ensures Legal(b, Joined(segments))
    decreases |segments|
  {
    if segments == [] {
    } else {
      SegmentsJoin(b, Front(segments));
      Compose(b, Joined(Front(segments)), Last(segments));
    }
  }

  function StartsIn(segments: seq<seq<Step>>, id: string): nat {
    if segments == [] then 0 else StartsIn(Front(segments), id) + Starts(Last(segments), id)
  }

  lemma {:induction false} StartsAdd(pre: seq<Step>, post: seq<Step>, id: string)
    ensures Starts(pre + post, id) == Starts(pre, id) + Starts(post, id)
    decreases |post|
  {
    if post == [] {
      assert pre + post == pre;
    } else {
      StartsAdd(pre, Front(post), id);
      assert Front(pre + post) == pre + Front(post);
    }
  }

  lemma {:induction false} StartsJoin(segments: seq<seq<Step>>, id: string)
    ensures Starts(Joined(segments), id) == StartsIn(segments, id)
    decreases |segments|
  {
    if segments == [] {
    } else {
      StartsJoin(Front(segments), id);
      StartsAdd(Joined(Front(segments)), Last(segments), id);
    }
  }

  /** Over a run and all its resumes together, no task starts more than max(1, max_attempts) times. */
  lemma StartsAreBoundedOverSegments(b: Board, segments: seq<seq<Step>>, id: string)
    requires b.Valid() && AttemptsInRange(b) && LegalSegments(b, segments)
    requires id in Replay(b, Joined(segments)).tasks
    ensures var cap := Replay(b, Joined(segments)).tasks[id].maxAttempts;
            Used(b, id) + StartsIn(segments, id) <= if cap < 1 then 1 else cap
  {
    SegmentsJoin(b, segments);
    StartsJoin(segments, id);
    StartsAreBounded(b, Joined(segments), id);
  }

  /* ---------- Dependencies come first ---------- */

  function Completions(steps: seq<Step>): seq<string> {
    if steps == [] then []
    else Completions(Front(steps)) + (if Last(steps).Complete? then [Last(steps).id] else [])
  }

  // `done` lists the completed tasks, each after all of its dependencies; every task that has
  // ever started had all of its dependencies completed.
  ghost predicate Consistent(b: Board, done: seq<string>) {
    && (forall id :: id in done <==> b.Has(id, Completed))
    && (forall i, j :: 0 <= i < j < |done| ==> done[i] != done[j])
    && (forall i, d :: 0 <= i < |done| && done[i] in b.tasks && d in b.tasks[done[i]].dependsOn ==> d in done[..i])
    && (forall id :: id in b.tasks && b.tasks[id].status !in {Pending, Skipped} ==> DepsCompleted(b, id))
  }

  lemma FreshIsConsistent(b: Board)
    requires forall id :: id in b.tasks ==> b.tasks[id].status == Pending
    ensures Consistent(b, [])
  {
  }

  lemma CompleteKeepsConsistent(b: Board, done: seq<string>, id: string)
    requires Consistent(b, done) && Allowed(b, Complete(id))
    ensures Consistent(Apply(b, Complete(id)), done + [id])
  {
    var b', done' := Apply(b, Complete(id)), done + [id];
    StepFrame(b, Complete(id));
    assert DepsCompleted(b, id) && id !in done;
    assert forall x :: x in done' <==> x in done || x == id;
    forall i, d | 0 <= i < |done'| && done'[i] in b'.tasks && d in b'.tasks[done'[i]].dependsOn
      ensures d in done'[..i]
    {
      assert done'[..i] == done[..i];
      if i < |done| {
        assert b.Has(done[i], Completed);
      }
    }
    forall x | x in b'.tasks && b'.tasks[x].status !in {Pending, Skipped}
      ensures DepsCompleted(b', x)
    {
      assert DepsCompleted(b, x);
    }
  }

  lemma OtherStepKeepsConsistent(b: Board, done: seq<string>, s: Step)
    requires Consistent(b, done) && Allowed(b, s) && !s.Complete?
    ensures Consistent(Apply(b, s), done)
  {
    var b' := Apply(b, s);
    StepFrame(b, s);
    forall i, d | 0 <= i < |done| && done[i] in b'.tasks && d in b'.tasks[done[i]].dependsOn
      ensures d in done[..i]
    {
      assert b.Has(done[i], Completed);
    }
    forall x | x in b'.tasks && b'.tasks[x].status !in {Pending, Skipped}
      ensures DepsCompleted(b', x)
    {
      assert DepsCompleted(b, x);
    }
  }

  /** Completion is always in dependency order, whatever the outcomes. */
  lemma {:induction false} LegalKeepsConsistent(b: Board, done: seq<string>, steps: seq<Step>)
    requires b.Valid() && Consistent(b, done) && Legal(b, steps)
    ensures Consistent(Replay(b, steps), done + Completions(steps))
    decreases |steps|
  {
    if steps == [] {
      assert done + [] == done;
    } else {
      LegalKeepsConsistent(b, done, Front(steps));
      var soFar := done + Completions(Front(steps));
      if Last(steps).Complete? {
        CompleteKeepsConsistent(Replay(b, Front(steps)), soFar, Last(steps).id);
      } else {
        OtherStepKeepsConsistent(Replay(b, Front(steps)), soFar, Last(steps));
      }
      assert done + Completions(steps) == if Last(steps).Complete? then soFar + [Last(steps).id] else soFar;
    }
  }

  lemma {:induction false} CompletedEarlier(b: Board, steps: seq<Step>, id: string)
    requires Replay(b, steps).Has(id, Completed) && Legal(b, steps)
    ensures b.Has(id, Completed) || Complete(id) in steps
    decreases |steps|
  {
    if steps != [] && Last(steps) != Complete(id) {
      CompletedEarlier(b, Front(steps), id);
    }
  }

  lemma {:induction false} PrefixIsLegal(b: Board, steps: seq<Step>, n: int)
    requires Legal(b, steps) && 0 <= n <= |steps|
    ensures Legal(b, steps[..n])
    ensures n < |steps| ==> Allowed(Replay(b, steps[..n]), steps[n])
    decreases |steps|
  {
    if n == |steps| {
      assert steps[..n] == steps;
    } else if n == |steps| - 1 {
      assert steps[..n] == Front(steps);
    } else {
      PrefixIsLegal(b, Front(steps), n);
      assert Front(steps)[..n] == steps[..n];
    }
  }

  /** A task starts only after every task it depends on has completed. */
  lemma StartsAreTopological(b: Board, steps: seq<Step>, n: int, d: string)
    requires b.Valid() && Legal(b, steps) && 0 <= n < |steps| && steps[n].Start?
    ensures steps[n].id in Replay(b, steps[..n]).tasks
    ensures d in Replay(b, steps[..n]).tasks[steps[n].id].dependsOn ==>
              b.Has(d, Completed) || Complete(d) in steps[..n]
  {
    PrefixIsLegal(b, steps, n);
    var at := Replay(b, steps[..n]);
    if d in at.tasks[steps[n].id].dependsOn {
      assert at.Has(d, Completed);
      CompletedEarlier(b, steps[..n], d);
    }
  }

  /* ---------- Which tasks are skipped ---------- */

  ghost predicate Edge(b: Board, x: string, y: string) {
    x in b.tasks && y in b.tasks[x].dependsOn
  }

  // A walk of one or more steps along `depends_on`.
  ghost predicate DependencyWalk(b: Board, walk: seq<string>) {
    |walk| >= 2 && forall i :: 0 <= i < |walk| - 1 ==> Edge(b, walk[i], walk[i + 1])
  }

  ghost predicate Loops(walk: seq<string>) {
    walk != [] && exists i :: 0 <= i < |walk| - 1 && walk[i] == walk[|walk| - 1]
  }

  // Something a dependent can never get past: an id no task has, a failed task, a task that
  // was already skipped when the segment began, or one the segment cannot finish.
  ghost predicate DeadEnd(entry: Board, b: Board, x: string) {
    || x !in b.tasks
    || b.tasks[x].status in {Failed, Running, Retrying, WaitingForUser}
    || entry.Has(x, Skipped)
  }

  ghost predicate Doomed(entry: Board, b: Board, id: string) {
    exists walk ::
      && DependencyWalk(b, walk) && walk[0] == id
      && (DeadEnd(entry, b, walk[|walk| - 1]) || Loops(walk))
  }

  lemma {:induction false} DistinctFits(walk: seq<string>, keys: set<string>)
    requires forall i, j :: 0 <= i < j < |walk| ==> walk[i] != walk[j]
    requires forall i :: 0 <= i < |walk| ==> walk[i] in keys
    ensures |walk| <= |keys|
    decreases |walk|
  {
    if walk == [] {
    } else {
      DistinctFits(Front(walk), keys - {Last(walk)});
    }
  }

  lemma {:induction false} ExtendWalk(entry: Board, b: Board, walk: seq<string>)
    requires Stuck(b) && walk != []
    requires forall id :: b.Has(id, Skipped) ==> entry.Has(id, Skipped)
    requires forall i :: 0 <= i < |walk| ==> b.Has(walk[i], Pending)
    requires forall i, j :: 0 <= i < j < |walk| ==> walk[i] != walk[j]
    requires forall i :: 0 <= i < |walk| - 1 ==> Edge(b, walk[i], walk[i + 1])
    ensures Doomed(entry, b, walk[0])
    decreases |b.tasks.Keys| - |walk|
  {
    var end := walk[|walk| - 1];
    assert !Ready(b, end);
    var d :| d in b.tasks[end].dependsOn && !b.Has(d, Completed);
    var longer := walk + [d];
    assert DependencyWalk(b, longer);
    if d in b.tasks && b.tasks[d].status == Pending {
      if d in walk {
        var i :| 0 <= i < |walk| && walk[i] == d;
        assert longer[i] == longer[|longer| - 1];
        assert Loops(longer);
      } else {
        DistinctFits(longer, b.tasks.Keys);
        ExtendWalk(entry, b, longer);
      }
    } else {
      assert DeadEnd(entry, b, longer[|longer| - 1]);
    }
  }

  /** When nothing is ready, every pending task is doomed already. */
  lemma StuckTasksAreDoomed(entry: Board, b: Board, id: string)
    requires Stuck(b) && b.Has(id, Pending)
    requires forall x :: b.Has(x, Skipped) ==> entry.Has(x, Skipped)
    ensures Doomed(entry, b, id)
  {
    ExtendWalk(entry, b, [id]);
  }

  ghost predicate OnlySkips(steps: seq<Step>) {
    forall i :: 0 <= i < |steps| ==> steps[i].Skip?
  }

  ghost predicate NoSkips(steps: seq<Step>) {
    forall i :: 0 <= i < |steps| ==> !steps[i].Skip?
  }

  // From b to b', pending tasks may have been skipped and nothing else has changed.
  ghost predicate SkippedSome(b: Board, b': Board) {
    && b'.order == b.order && b'.tasks.Keys == b.tasks.Keys
    && forall id :: id in b.tasks ==>
         b'.tasks[id] == b.tasks[id]
         || (b.Has(id, Pending) && b'.tasks[id] == b.tasks[id].(status := Skipped))
  }

  /** Key lemma: once nothing is ready, skipping never makes anything ready again. */
  lemma {:induction false} SkippingStaysStuck(b: Board, skips: seq<Step>)
    requires Stuck(b) && Legal(b, skips) && OnlySkips(skips)
    ensures Stuck(Replay(b, skips)) && SkippedSome(b, Replay(b, skips))
    decreases |skips|
  {
    if skips == [] {
    } else {
      SkippingStaysStuck(b, Front(skips));
      var mid, end := Replay(b, Front(skips)), Replay(b, skips);
      forall id | id in end.tasks
        ensures !Ready(end, id)
      {
        if end.Has(id, Pending) {
          assert !Ready(mid, id);
          var d :| d in mid.tasks[id].dependsOn && !mid.Has(d, Completed);
          assert !end.Has(d, Completed);
        }
      }
    }
  }

  function SkipEverything(b: Board): Board {
    b.(tasks := map id | id in b.tasks ::
         if b.tasks[id].status == Pending then b.tasks[id].(status := Skipped) else b.tasks[id])
  }

  /** The repeated skip passes end exactly where one pass that skips everything pending ends. */
  lemma SkipPassesEqualOnePass(b: Board, skips: seq<Step>)
    requires Stuck(b) && Legal(b, skips) && OnlySkips(skips) && NonePending(Replay(b, skips))
    ensures Replay(b, skips) == SkipEverything(b)
  {
    SkippingStaysStuck(b, skips);
    assert Replay(b, skips).tasks == SkipEverything(b).tasks;
  }

  lemma {:induction false} SkippedOnlyBySkipping(b: Board, steps: seq<Step>, id: string)
    requires Legal(b, steps) && NoSkips(steps) && Replay(b, steps).Has(id, Skipped)
    ensures b.Has(id, Skipped)
    decreases |steps|
  {
    if steps == [] {
    } else {
      assert !Last(steps).Skip?;
      SkippedOnlyBySkipping(b, Front(steps), id);
    }
  }

  lemma DoomedIsStable(entry: Board, b: Board, b': Board, id: string)
    requires SkippedSome(b, b') && Doomed(entry, b, id)
    ensures Doomed(entry, b', id)
  {
    var walk :| DependencyWalk(b, walk) && walk[0] == id
                && (DeadEnd(entry, b, walk[|walk| - 1]) || Loops(walk));
    assert DependencyWalk(b', walk) by {
      forall i | 0 <= i < |walk| - 1
        ensures Edge(b', walk[i], walk[i + 1])
      {
        assert Edge(b, walk[i], walk[i + 1]);
      }
    }
  }

  /* --- A task that started is not doomed: ranks fall along its dependencies --- */

  ghost function Rank(done: seq<string>, x: string): int {
    if x !in done then |done|
    else var i :| 0 <= i < |done| && done[i] == x; i
  }

  lemma RankFalls(b: Board, done: seq<string>, x: string, y: string)
    requires Consistent(b, done) && Edge(b, x, y) && b.tasks[x].status !in {Pending, Skipped}
    ensures b.Has(y, Completed) && Rank(done, y) < Rank(done, x)
  {
    assert DepsCompleted(b, x);
    assert y in done;
    if x in done {
      var i := Rank(done, x);
      assert done[i] in b.tasks;
      assert y in done[..i];
    }
  }

  lemma {:induction false} RanksFallAlong(b: Board, done: seq<string>, walk: seq<string>, i: int, j: int)
    requires Consistent(b, done) && DependencyWalk(b, walk)
    requires walk[0] in b.tasks && b.tasks[walk[0]].status !in {Pending, Skipped}
    requires 0 <= i < j < |walk|
    ensures b.Has(walk[j], Completed) && Rank(done, walk[j]) < Rank(done, walk[i])
    decreases i + j
  {
    assert Edge(b, walk[j - 1], walk[j]);
    if i < j - 1 {
      RanksFallAlong(b, done, walk, i, j - 1);
    } else if 0 < i {
      RanksFallAlong(b, done, walk, 0, i);
    }
    RankFalls(b, done, walk[j - 1], walk[j]);
  }

  lemma StartedIsNotDoomed(entry: Board, b: Board, done: seq<string>, id: string)
    requires Consistent(b, done) && id in b.tasks && b.tasks[id].status !in {Pending, Skipped}
    requires forall x :: entry.Has(x, Skipped) ==> b.Has(x, Skipped)
    ensures !Doomed(entry, b, id)
  {
    forall walk | DependencyWalk(b, walk) && walk[0] == id
      ensures !DeadEnd(entry, b, walk[|walk| - 1]) && !Loops(walk)
    {
      var last := |walk| - 1;
      RanksFallAlong(b, done, walk, 0, last);
      forall i | 0 <= i < last
        ensures walk[i] != walk[last]
      {
        RanksFallAlong(b, done, walk, i, last);
      }
    }
  }

  /** The fixpoint. When a segment, fresh or resumed, ends with nothing pending, the tasks it
      has skipped are exactly the doomed ones. */
  lemma SkippedExactlyWhenDoomed(b: Board, done: seq<string>, steps: seq<Step>, skips: seq<Step>, id: string)
    requires b.Valid() && Consistent(b, done) && Legal(b, steps + skips)
    requires NoSkips(steps) && OnlySkips(skips)
    requires NonePending(Replay(b, steps + skips))
    requires id in Replay(b, steps + skips).tasks && !b.Has(id, Skipped)
    ensures Replay(b, steps + skips).Has(id, Skipped) <==> Doomed(b, Replay(b, steps + skips), id)
  {
    Compose(b, steps, skips);
    var mid, end := Replay(b, steps), Replay(b, steps + skips);
    LegalKeepsConsistent(b, done, steps + skips);
    forall x | b.Has(x, Skipped)
      ensures end.Has(x, Skipped)
    {
      FinishedIsFinal(b, steps + skips, x);
    }
    if end.Has(id, Skipped) {
      forall x | mid.Has(x, Skipped)
        ensures b.Has(x, Skipped)
      {
        SkippedOnlyBySkipping(b, steps, x);
      }
      if skips != [] {
        PrefixIsLegal(mid, skips, 0);
        assert skips[..0] == [] && skips[0].Skip?;
        SkippingStaysStuck(mid, skips);
        StuckTasksAreDoomed(b, mid, id);
        DoomedIsStable(b, mid, end, id);
      }
    } else {
      StartedIsNotDoomed(b, end, done + Completions(steps + skips), id);
    }
  }

  // What dooms a task of a fresh run, in the plan's own terms.
  ghost predicate Unsatisfiable(b: Board, id: string) {
    exists walk ::
      && DependencyWalk(b, walk) && walk[0] == id
      && (var x := walk[|walk| - 1]; x !in b.tasks || b.Has(x, Failed) || Loops(walk))
  }

  /** A fresh run that ends normally skips a task exactly when following `depends_on` reaches a
      failed task, an id no task has, or a dependency cycle. */
  lemma FreshRunSkips(b: Board, steps: seq<Step>, skips: seq<Step>, id: string)
    requires b.Valid() && forall x :: x in b.tasks ==> b.tasks[x].status == Pending
    requires Legal(b, steps + skips) && NoSkips(steps) && OnlySkips(skips)
    requires forall x :: x in Replay(b, steps + skips).tasks ==> Finished(Replay(b, steps + skips), x)
    requires id in Replay(b, steps + skips).tasks
    ensures Replay(b, steps + skips).Has(id, Skipped) <==> Unsatisfiable(Replay(b, steps + skips), id)
  {
    FreshIsConsistent(b);
    var end := Replay(b, steps + skips);
    SkippedExactlyWhenDoomed(b, [], steps, skips, id);
    if Doomed(b, end, id) {
      var walk :| DependencyWalk(end, walk) && walk[0] == id
                  && (DeadEnd(b, end, walk[|walk| - 1]) || Loops(walk));
      var x := walk[|walk| - 1];
      assert x in end.tasks ==> Finished(end, x);
      assert Unsatisfiable(end, id);
    }
    if Unsatisfiable(end, id) {
      var walk :| DependencyWalk(end, walk) && walk[0] == id
                  && (var x := walk[|walk| - 1]; x !in end.tasks || end.Has(x, Failed) || Loops(walk));
      assert DeadEnd(b, end, walk[|walk| - 1]) || Loops(walk);
      assert Doomed(b, end, id);
    }
  }

  /* ---------- Progress ---------- */

  // The attempts a pending task still has.
  function Remaining(t: TaskView): nat {
    if t.status != Pending then 0
    else if t.maxAttempts - t.attempt > 1 then t.maxAttempts - t.attempt else 1
  }

  function Total(order: seq<string>, tasks: map<string, TaskView>): nat {
    if order == [] then 0
    else Total(Front(order), tasks) + (if Last(order) in tasks then Remaining(tasks[Last(order)]) else 0)
  }

  function Weight(b: Board): nat {
    Total(b.order, b.tasks)
  }

  lemma {:induction false} TotalIgnores(order: seq<string>, tasks: map<string, TaskView>, id: string, t: TaskView)
    requires id !in order
    ensures Total(order, tasks[id := t]) == Total(order, tasks)
    decreases |order|
  {
    if order == [] {
    } else {
      assert Last(order) in order && forall x :: x in Front(order) ==> x in order;
      TotalIgnores(Front(order), tasks, id, t);
    }
  }

  lemma {:induction false} TotalUpdates(order: seq<string>, tasks: map<string, TaskView>, id: string, t: TaskView)
    requires forall i, j :: 0 <= i < j < |order| ==> order[i] != order[j]
    requires id in order && id in tasks
    ensures Total(order, tasks[id := t]) == Total(order, tasks) - Remaining(tasks[id]) + Remaining(t)
    decreases |order|
  {
    if Last(order) == id {
      assert id !in Front(order);
      TotalIgnores(Front(order), tasks, id, t);
    } else {
      assert id in Front(order);
      TotalUpdates(Front(order), tasks, id, t);
    }
  }

  /** Starting or skipping a task uses up attempts, and giving it back for a retry returns
      fewer than its start took. */
  lemma StepWeight(b: Board, s: Step)
    requires b.Valid() && Allowed(b, s) && !s.Add?
    ensures s.Start? || s.Skip? ==> Weight(Apply(b, s)) == Weight(b) - Remaining(b.tasks[s.id]) < Weight(b)
    ensures s.Complete? || s.Fail? || s.Wait? ==> Weight(Apply(b, s)) == Weight(b)
    ensures s.Retry? ==> Weight(Apply(b, s)) == Weight(b) + b.tasks[s.id].maxAttempts - b.tasks[s.id].attempt - 1
  {
    TotalUpdates(b.order, b.tasks, s.id, Apply(b, s).tasks[s.id]);
  }

  lemma AddWeight(b: Board, id: string, task: TaskView)
    requires b.Valid() && id !in b.tasks
    ensures Weight(Apply(b, Add(id, task))) == Weight(b) + Remaining(task)
  {
    var longer := b.order + [id];
    assert Front(longer) == b.order && Last(longer) == id;
    TotalIgnores(b.order, b.tasks, id, task);
  }

  // A record put in or replaced adds no more than its own attempts.
  lemma InsertWeight(b: Board, id: string, task: TaskView)
    requires b.Valid()
    ensures var b' := Board(if id in b.tasks then b.order else b.order + [id], b.tasks[id := task]);
            b'.Valid() && Weight(b') <= Weight(b) + Remaining(task)
  {
    if id in b.tasks {
      TotalUpdates(b.order, b.tasks, id, task);
    } else {
      AddWeight(b, id, task);
    }
  }

  /* ---------- Which tasks a deadlock pass takes ---------- */

  ghost predicate DeadDependency(b: Board, d: string) {
    d !in b.tasks || b.Has(d, Failed) || b.Has(d, Skipped)
  }

  ghost predicate Blocked(b: Board, id: string) {
    b.Has(id, Pending) && exists d :: d in b.tasks[id].dependsOn && DeadDependency(b, d)
  }

  // The blocked tasks if there are any, and everything pending otherwise.
  ghost predicate Dead(b: Board, id: string) {
    b.Has(id, Pending) && (Blocked(b, id) || forall x :: !Blocked(b, x))
  }

  /* ---------- What a whole run guarantees ---------- */

  ghost predicate DependenciesFirst(end: Board, steps: seq<Step>) {
    forall n, d ::
      0 <= n < |steps| && steps[n].Start? && steps[n].id in end.tasks && d in end.tasks[steps[n].id].dependsOn
      ==> Complete(d) in steps[..n]
  }

  ghost predicate StartsWithinCap(end: Board, steps: seq<Step>) {
    forall id :: id in end.tasks ==>
      Starts(steps, id) <= if end.tasks[id].maxAttempts < 1 then 1 else end.tasks[id].maxAttempts
  }

  // Every task has finished, and the skipped ones are those that could not be satisfied.
  ghost predicate Fixpoint(end: Board) {
    forall id :: id in end.tasks ==> Finished(end, id) && (end.Has(id, Skipped) <==> Unsatisfiable(end, id))
  }

  ghost predicate FreshPlan(b: Board) {
    b.Valid() && forall id :: id in b.tasks ==> b.tasks[id].status == Pending && b.tasks[id].attempt == 0
  }

  lemma FreshHasNoneCompleted(b: Board, id: string)
    ensures FreshPlan(b) ==> b.Valid() && !b.Has(id, Completed)
  {
  }

  lemma StartedAfterDependency(b: Board, steps: seq<Step>, n: int, d: string)
    requires FreshPlan(b) && Legal(b, steps) && 0 <= n < |steps| && steps[n].Start?
    requires steps[n].id in Replay(b, steps).tasks && d in Replay(b, steps).tasks[steps[n].id].dependsOn
    ensures Complete(d) in steps[..n]
  {
    hide *;
    FreshHasNoneCompleted(b, d);
    StartsAreTopological(b, steps, n, d);
    PrefixIsLegal(b, steps, n);
    ReplayKeepsShape(b, steps[..n]);
    assert steps == steps[..n] + steps[n..];
    Compose(b, steps[..n], steps[n..]);
    ReplayKeepsShape(Replay(b, steps[..n]), steps[n..]);
  }

  /** Every history of a fresh plan starts tasks in dependency order and within their caps. */
  lemma FreshRunOrder(b: Board, steps: seq<Step>)
    requires FreshPlan(b) && Legal(b, steps)
    ensures DependenciesFirst(Replay(b, steps), steps) && StartsWithinCap(Replay(b, steps), steps)
  {
    hide Replay, Legal, Starts;
    var end := Replay(b, steps);
    forall n, d | 0 <= n < |steps| && steps[n].Start? && steps[n].id in end.tasks && d in end.tasks[steps[n].id].dependsOn
      ensures Complete(d) in steps[..n]
    {
      StartedAfterDependency(b, steps, n, d);
    }
    forall id | id in end.tasks
      ensures Starts(steps, id) <= if end.tasks[id].maxAttempts < 1 then 1 else end.tasks[id].maxAttempts
    {
      StartsAreBounded(b, steps, id);
    }
  }

  /** A fresh run that leaves nothing pending or open has reached the fixpoint. */
  lemma FreshRunFixpoint(b: Board, steps: seq<Step>, skips: seq<Step>)
    requires FreshPlan(b) && Legal(b, steps + skips) && NoSkips(steps) && OnlySkips(skips)
    requires forall id :: id in Replay(b, steps + skips).tasks ==> Finished(Replay(b, steps + skips), id)
    ensures Fixpoint(Replay(b, steps + skips))
  {
    forall id | id in Replay(b, steps + skips).tasks
      ensures Replay(b, steps + skips).Has(id, Skipped) <==> Unsatisfiable(Replay(b, steps + skips), id)
    {
      FreshRunSkips(b, steps, skips, id);
    }
  }

  /** Everything that leads to a task still waiting for its user is doomed. */
  lemma WaitingDependencyDooms(entry: Board, b: Board, walk: seq<string>)
    requires DependencyWalk(b, walk) && b.Has(walk[|walk| - 1], WaitingForUser)
    ensures Doomed(entry, b, walk[0])
  {
    assert DeadEnd(entry, b, walk[|walk| - 1]);
  }

  ghost predicate SkipsTheDoomed(entry: Board, end: Board) {
    forall id :: id in end.tasks && !entry.Has(id, Skipped) ==> (end.Has(id, Skipped) <==> Doomed(entry, end, id))
  }

  lemma SegmentSkipsTheDoomed(b: Board, done: seq<string>, steps: seq<Step>, skips: seq<Step>)
    requires b.Valid() && Consistent(b, done) && Legal(b, steps + skips)
    requires NoSkips(steps) && OnlySkips(skips) && NonePending(Replay(b, steps + skips))
    ensures SkipsTheDoomed(b, Replay(b, steps + skips))
  {
    forall id | id in Replay(b, steps + skips).tasks && !b.Has(id, Skipped)
      ensures Replay(b, steps + skips).Has(id, Skipped) <==> Doomed(b, Replay(b, steps + skips), id)
    {
      SkippedExactlyWhenDoomed(b, done, steps, skips, id);
    }
  }

  /** A segment that ends normally has skipped every task, at any distance, that depends on one
      still waiting for its user. */
  lemma DependentsOfWaitingAreSkipped(entry: Board, end: Board, walk: seq<string>)
    requires SkipsTheDoomed(entry, end) && NonePending(end)
    requires DependencyWalk(end, walk) && end.Has(walk[|walk| - 1], WaitingForUser)
    requires forall x :: entry.Has(x, Skipped) ==> end.Has(x, Skipped)
    ensures end.Has(walk[0], Skipped)
  {
    assert Edge(end, walk[0], walk[1]);
    WaitingDependencyDooms(entry, end, walk);
  }

  /* ---------- Boards at a pause ---------- */

  predicate Open(status: TaskStatus) {
    status in {Running, Retrying, WaitingForUser}
  }

  // The open tasks are those the loop found when it began.
  ghost predicate NothingLeftOpen(before: Board, b: Board) {
    && (forall id :: id in b.tasks && Open(b.tasks[id].status) ==> before.Has(id, b.tasks[id].status))
    && (forall id :: id in before.tasks && Open(before.tasks[id].status) ==> b.Has(id, before.tasks[id].status))
  }

  // The same but for `id`, which was not open and now waits.
  ghost predicate OnlyOpened(before: Board, b: Board, id: string) {
    && b.Has(id, WaitingForUser)
    && (forall x :: x in b.tasks && Open(b.tasks[x].status) ==> x == id || before.Has(x, b.tasks[x].status))
    && (forall x :: x in before.tasks && Open(before.tasks[x].status) ==> x != id && b.Has(x, before.tasks[x].status))
  }

  ghost predicate NoneOpen(b: Board) {
    forall id :: id in b.tasks ==> !Open(b.tasks[id].status)
  }

  ghost predicate NoneWaiting(b: Board) {
    forall id :: !b.Has(id, WaitingForUser)
  }

  ghost predicate NoneSkipped(b: Board) {
    forall id :: !b.Has(id, Skipped)
  }

  // Tasks not yet finished or paused have no confirmation to wait for.
  ghost predicate Unasked(b: Board) {
    forall id :: b.Has(id, Pending) || b.Has(id, Running) ==> b.tasks[id].waitingOn == []
  }

  // Some task waits for this confirmation.
  ghost predicate PendingOn(b: Board, confirmation: string) {
    exists id :: b.Has(id, WaitingForUser) && confirmation in b.tasks[id].waitingOn
  }

  /** A paused run: exactly one task waits, on exactly one confirmation; none runs, and none has been
      skipped. */
  ghost predicate PausedOn(b: Board, id: string, confirmation: string) {
    && OnlyWaits(b, id) && b.tasks[id].waitingOn == [confirmation]
    && NoneSkipped(b) && Unasked(b)
  }

  ghost predicate OnlyWaits(b: Board, id: string) {
    b.Has(id, WaitingForUser) && forall x :: x in b.tasks && Open(b.tasks[x].status) ==> x == id
  }

  lemma PauseOpensOne(before: Board, b: Board, id: string, confirmation: string)
    requires NothingLeftOpen(before, b) && b.Has(id, Pending)
    ensures OnlyOpened(before, Apply(Apply(b, Start(id)), Wait(id, confirmation)), id)
  {
    var b' := Apply(Apply(b, Start(id)), Wait(id, confirmation));
    assert forall x :: x in b.tasks && x != id ==> b'.tasks[x] == b.tasks[x];
  }

  lemma StepKeepsUnasked(b: Board, s: Step)
    requires Allowed(b, s) && Unasked(b)
    ensures Unasked(Apply(b, s))
  {
    forall id | Apply(b, s).Has(id, Pending) || Apply(b, s).Has(id, Running)
      ensures Apply(b, s).tasks[id].waitingOn == []
    {
      assert id != s.id ==> b.tasks[id] == Apply(b, s).tasks[id];
    }
  }

  lemma {:induction false} LegalKeepsUnasked(b: Board, steps: seq<Step>)
    requires Legal(b, steps) && Unasked(b)
    ensures Unasked(Replay(b, steps))
    decreases |steps|
  {
    if steps == [] {
    } else {
      LegalKeepsUnasked(b, Front(steps));
      StepKeepsUnasked(Replay(b, Front(steps)), Last(steps));
    }
  }

  /** A segment that began with nothing open and nothing skipped, and has now paused, is paused on
      exactly the task and the confirmation it asked about last. */
  lemma PauseIsOnOne(b: Board, from: Board, steps: seq<Step>)
    requires Legal(b, steps) && NoSkips(steps) && steps != [] && Last(steps).Wait?
    requires NoneSkipped(b) && Unasked(b)
    requires NoneOpen(from) && OnlyOpened(from, Replay(b, steps), Last(steps).id)
    ensures PausedOn(Replay(b, steps), Last(steps).id, Last(steps).confirmation)
  {
    var end, id := Replay(b, steps), Last(steps).id;
    LegalKeepsUnasked(b, steps);
    LegalKeepsUnasked(b, Front(steps));
    forall x ensures !end.Has(x, Skipped) {
      if end.Has(x, Skipped) {
        SkippedOnlyBySkipping(b, steps, x);
      }
    }
    assert Replay(b, Front(steps)).Has(id, Running);
    hide Replay, Legal;
    assert OnlyWaits(end, id);
  }

  // Steps that settle waiting tasks.
  ghost predicate OnlySettles(steps: seq<Step>) {
    forall i :: 0 <= i < |steps| ==> steps[i].Complete? || steps[i].Fail?
  }

  // Like `Doomed`, when nobody waits: what dooms a task whose confirmations have all been settled.
  ghost predicate ClosedOff(entry: Board, b: Board, id: string) {
    exists walk ::
      && DependencyWalk(b, walk) && walk[0] == id
      && (var x := walk[|walk| - 1];
          || x !in b.tasks || b.Has(x, Failed) || b.Has(x, Running) || b.Has(x, Retrying)
          || entry.Has(x, Skipped) || Loops(walk))
  }

  lemma DoomedIsClosedOff(entry: Board, b: Board, id: string)
    requires NoneWaiting(b)
    ensures Doomed(entry, b, id) <==> ClosedOff(entry, b, id)
  {
    if Doomed(entry, b, id) {
      var walk :| DependencyWalk(b, walk) && walk[0] == id && (DeadEnd(entry, b, walk[|walk| - 1]) || Loops(walk));
      assert !b.Has(walk[|walk| - 1], WaitingForUser);
    }
    if ClosedOff(entry, b, id) {
      var walk :| DependencyWalk(b, walk) && walk[0] == id
                  && (var x := walk[|walk| - 1];
                      || x !in b.tasks || b.Has(x, Failed) || b.Has(x, Running) || b.Has(x, Retrying)
                      || entry.Has(x, Skipped) || Loops(walk));
      assert DeadEnd(entry, b, walk[|walk| - 1]) || Loops(walk);
    }
  }

  /** A resumed segment that began with nothing skipped and ends with every task finished is at the
      fixpoint of a fresh run. */
  lemma FinishedIsFixpoint(entry: Board, end: Board)
    requires NoneSkipped(entry) && SkipsTheDoomed(entry, end)
    requires forall id :: id in end.tasks ==> Finished(end, id)
    ensures Fixpoint(end)
  {
    forall id | id in end.tasks ensures end.Has(id, Skipped) <==> Unsatisfiable(end, id) {
      assert !entry.Has(id, Skipped);
      DoomedIsUnsatisfiable(entry, end, id);
    }
  }

  lemma DoomedIsUnsatisfiable(entry: Board, end: Board, id: string)
    requires NoneSkipped(entry) && forall x :: x in end.tasks ==> Finished(end, x)
    ensures Doomed(entry, end, id) <==> Unsatisfiable(end, id)
  {
    if Doomed(entry, end, id) {
      var walk :| DependencyWalk(end, walk) && walk[0] == id && (DeadEnd(entry, end, walk[|walk| - 1]) || Loops(walk));
      var x := walk[|walk| - 1];
      assert x in end.tasks ==> Finished(end, x);
      assert x !in end.tasks || end.Has(x, Failed) || Loops(walk);
    }
    if Unsatisfiable(end, id) {
      var walk :| DependencyWalk(end, walk) && walk[0] == id
                  && (var x := walk[|walk| - 1]; x !in end.tasks || end.Has(x, Failed) || Loops(walk));
      assert DeadEnd(entry, end, walk[|walk| - 1]) || Loops(walk);
    }
  }

  /* ---------- A resume with nothing resolved ---------- */

  // "ask" waits for a confirmation, "after" depends on it.
  const UNANSWERED :=
    Board(["ask", "after"],
          map["ask" := TaskView(WaitingForUser, [], 0, 3, true, ["c"]), "after" := TaskView(Pending, ["ask"], 0, 3, true, [])])

  lemma UnansweredIsPaused()
    ensures UNANSWERED.Valid() && PausedOn(UNANSWERED, "ask", "c") && Stuck(UNANSWERED)
  {
    var b := UNANSWERED;
    assert !b.Has("ask", Completed) && "ask" in b.tasks["after"].dependsOn;
  }

  lemma UnansweredAllowsSkip()
    ensures Allowed(UNANSWERED, Skip("after"))
  {
    UnansweredIsPaused();
    hide Stuck, PausedOn, Board.Valid;
  }

  lemma UnansweredAfterSkip()
    ensures var end := Apply(UNANSWERED, Skip("after"));
            NonePending(end) && end.Has("after", Skipped) && end.Has("ask", WaitingForUser)
  {
  }

  /** Resumed directly, before its confirmation is resolved, this board allows the loop only one
      step: "after" is skipped, and then nothing is pending while "ask" still waits. */
  lemma UnansweredResumeSkips(s: Step)
    ensures PausedOn(UNANSWERED, "ask", "c") && Legal(UNANSWERED, [Skip("after")])
    ensures var end := Replay(UNANSWERED, [Skip("after")]);
            NonePending(end) && end.Has("after", Skipped) && end.Has("ask", WaitingForUser)
    ensures Allowed(UNANSWERED, s) ==> s == Skip("after") || s.Add? || s.id == "ask"
  {
    hide *;
    UnansweredIsPaused();
    UnansweredAllowsSkip();
    UnansweredAfterSkip();
    ReplayNothing(UNANSWERED);
    assert [] + [Skip("after")] == [Skip("after")];
    Extend(UNANSWERED, [], Skip("after"));
    UnansweredPending(s.id);
    if Allowed(UNANSWERED, s) {
      StuckAllows(UNANSWERED, s);
    }
  }

  lemma UnansweredPending(id: string)
    ensures UNANSWERED.Has(id, Pending) ==> id == "after"
    ensures UNANSWERED.Has(id, Running) || UNANSWERED.Has(id, WaitingForUser) ==> id == "ask"
  {
  }

  lemma StuckAllows(b: Board, s: Step)
    ensures Stuck(b) && Allowed(b, s) ==>
              (s.Skip? && b.Has(s.id, Pending)) || s.Add? || b.Has(s.id, Running) || b.Has(s.id, WaitingForUser)
  {
  }
}
