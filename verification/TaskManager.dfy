/** Task records and the manager that owns them. Each transition updates one task in place and
    is recorded as one step of the history in `AgentTrace`. */
module TaskManagement {
  import opened AgentTrace
  import opened Helpers

  class Task {
    const id: string
    const actionType: string
    const dependsOn: seq<string>
    const required: bool
    const maxAttempts: int
    var status: TaskStatus
    var attempt: int
    var waitingOn: seq<string>

    constructor (id: string, actionType: string, dependsOn: seq<string>, required: bool, maxAttempts: int)
      ensures this.id == id && this.actionType == actionType && waitingOn == []
      ensures View() == TaskView(Pending, dependsOn, 0, maxAttempts, required, [])
    {
      this.id, this.actionType, this.dependsOn := id, actionType, dependsOn;
      this.required, this.maxAttempts := required, maxAttempts;
      status, attempt, waitingOn := Pending, 0, [];
    }

    // A copy of a task as it is now.
    constructor CopyOf(t: Task)
      ensures id == t.id && actionType == t.actionType && View() == t.View()
    {
      id, actionType, dependsOn := t.id, t.actionType, t.dependsOn;
      required, maxAttempts := t.required, t.maxAttempts;
      status, attempt, waitingOn := t.status, t.attempt, t.waitingOn;
    }

    function View(): TaskView
      reads this
    {
      TaskView(status, dependsOn, attempt, maxAttempts, required, waitingOn)
    }
  }

  /** The dictionary a list of tasks makes: an id keeps the place of its first task and the record
      of its last. */
  ghost function PlanBoard(list: seq<Task>): Board
    reads set t | t in list
  {
    if list == [] then Board([], map[])
    else
      var b, t := PlanBoard(Front(list)), Last(list);
      Board(if t.id in b.tasks then b.order else b.order + [t.id], b.tasks[t.id := t.View()])
  }

  function SumAttempts(list: seq<Task>): nat {
    if list == [] then 0
    else SumAttempts(Front(list)) + if Last(list).maxAttempts < 1 then 1 else Last(list).maxAttempts
  }

  lemma FreshAttempts(task: Task)
    ensures task.status == Pending && task.attempt == 0 ==>
              Remaining(task.View()) == if task.maxAttempts < 1 then 1 else task.maxAttempts
  {
  }

  lemma EmptyPlan()
    ensures PlanBoard([]).Valid() && Weight(PlanBoard([])) == 0
  {
  }

  /** The attempts left on a fresh plan's board are at most those its tasks ask for. */
  lemma {:induction false} PlanWeight(list: seq<Task>)
    requires forall t :: t in list ==> t.status == Pending && t.attempt == 0
    ensures PlanBoard(list).Valid() && Weight(PlanBoard(list)) <= SumAttempts(list)
    decreases |list|
  {
    hide Weight, Remaining, Board.Valid;
    if list == [] {
      EmptyPlan();
    } else {
      assert Last(list) in list && forall x :: x in Front(list) ==> x in list;
      PlanWeight(Front(list));
      InsertWeight(PlanBoard(Front(list)), Last(list).id, Last(list).View());
      FreshAttempts(Last(list));
    }
  }

  // The records of a board, listed in its order.
  ghost predicate ListsBoard(list: seq<Task>, b: Board)
    reads set t | t in list
  {
    && |list| == |b.order|
    && forall i :: 0 <= i < |list| ==> list[i].id == b.order[i] && b.order[i] in b.tasks && list[i].View() == b.tasks[b.order[i]]
  }

  // The first `n` records of a board.
  ghost function FirstRecords(b: Board, n: nat): Board
    requires b.Valid() && n <= |b.order|
  {
    Board(b.order[..n], map id | id in b.order[..n] :: b.tasks[id])
  }

  lemma OneMoreRecord(b: Board, n: nat)
    requires b.Valid() && n < |b.order|
    ensures b.order[n] in b.tasks
    ensures var first, id := FirstRecords(b, n), b.order[n];
            id !in first.tasks
            && FirstRecords(b, n + 1) == Board(first.order + [id], first.tasks[id := b.tasks[id]])
  {
    var first, id := FirstRecords(b, n), b.order[n];
    assert b.order[..n + 1] == b.order[..n] + [id];
    assert FirstRecords(b, n + 1).tasks == first.tasks[id := b.tasks[id]];
  }

  lemma {:induction false} PrefixOfBoard(list: seq<Task>, b: Board, n: nat)
    requires b.Valid() && ListsBoard(list, b) && n <= |list|
    ensures PlanBoard(list[..n]) == FirstRecords(b, n)
  {
    if n == 0 {
      assert list[..0] == [] && b.order[..0] == [];
    } else {
      PrefixOfBoard(list, b, n - 1);
      OneMoreRecord(b, n - 1);
      assert Front(list[..n]) == list[..n - 1] && Last(list[..n]) == list[n - 1];
      hide FirstRecords;
    }
  }

  /** Listing a board's records and building a board from the list gives the board back. */
  lemma RebuildGivesBack(list: seq<Task>, b: Board)
    requires b.Valid() && ListsBoard(list, b)
    ensures PlanBoard(list) == b
  {
    PrefixOfBoard(list, b, |list|);
    assert list[..|list|] == list && b.order[..|list|] == b.order;
    assert FirstRecords(b, |list|).tasks == b.tasks;
  }

  class TaskManager {
    // Python's dictionary of tasks: a map and the order its keys were inserted in.
    var tasks: map<string, Task>
    var order: seq<string>

    // The board this manager began with, and every step taken since.
    ghost var entry: Board
    ghost var steps: seq<Step>

    ghost function Now(): Board
      reads `tasks, `order, tasks.Values
    {
      BoardFrom(order, tasks)
    }

    static ghost function BoardFrom(places: seq<string>, records: map<string, Task>): Board
      reads records.Values
    {
      Board(places, map id | id in records :: records[id].View())
    }

    predicate Owns(task: Task)
      reads `tasks
    {
      task.id in tasks && tasks[task.id] == task
    }

    // Records under their own ids, each id in its one place.
    static ghost predicate Filed(records: map<string, Task>, places: seq<string>) {
      && (forall id :: id in records ==> records[id].id == id)
      && (forall id :: id in records <==> id in places)
      && (forall i, j :: 0 <= i < j < |places| ==> places[i] != places[j])
    }

    ghost predicate Shape()
      reads `tasks, `order
    {
      Filed(tasks, order)
    }

    ghost predicate Valid()
      reads this, tasks.Values
    {
      Shape() && Now() == Replay(entry, steps)
    }

    // `task` is the last entry of the list with its id.
    static ghost predicate Latest(list: seq<Task>, task: Task) {
      exists i :: 0 <= i < |list| && list[i] == task && forall j :: i < j < |list| ==> list[j].id != task.id
    }

    /** Later tasks with an id already present replace the record but keep its place. */
    constructor (list: seq<Task>)
      ensures Valid() && steps == [] && entry == Now() == PlanBoard(list)
      ensures forall i :: 0 <= i < |list| ==> list[i].id in tasks
      ensures forall id :: id in tasks ==> Latest(list, tasks[id])
    {
      tasks, order, entry, steps := map[], [], Board([], map[]), [];
      new;
      hide *;
      Empty(list);
      for n := 0 to |list|
        invariant steps == [] && Filed(tasks, order)
        invariant Now() == PlanBoard(list[..n])
        invariant forall i :: 0 <= i < n ==> list[i].id in tasks
        invariant forall id :: id in tasks ==> Latest(list[..n], tasks[id])
      {
        LatestExtends(list, n);
        PlanBoardStep(list, n);
        NowIsFrom();
        ghost var before, records, places := Now(), tasks, order;
        if list[n].id !in tasks {
          order := order + [list[n].id];
        }
        tasks := tasks[list[n].id := list[n]];
        Inserted(before, records, places, list[n]);
      }
      assert list[..|list|] == list;
      entry := Now();
      JustBegun();
    }

    lemma Empty(list: seq<Task>)
      requires tasks == map[] && order == []
      ensures Filed(tasks, order) && list[..0] == [] && Now() == PlanBoard([])
    {
      assert Now().tasks == map[];
    }

    lemma NowIsFrom()
      ensures Now() == BoardFrom(order, tasks)
    {
    }

    lemma JustBegun()
      requires Filed(tasks, order) && entry == Now() && steps == []
      ensures Valid()
    {
      ReplayNothing(entry);
    }

    lemma Inserted(before: Board, records: map<string, Task>, places: seq<string>, task: Task)
      requires before == BoardFrom(places, records)
      requires tasks == records[task.id := task] && order == if task.id in records then places else places + [task.id]
      requires Filed(records, places)
      ensures Filed(tasks, order) && forall id :: id in records ==> records[id].id == id
      ensures Now() == Board(if task.id in before.tasks then before.order else before.order + [task.id],
                             before.tasks[task.id := task.View()])
    {
      assert Now().tasks == before.tasks[task.id := task.View()];
    }

    static lemma PlanBoardStep(list: seq<Task>, n: nat)
      requires n < |list|
      ensures var b, t := PlanBoard(list[..n]), list[n];
              PlanBoard(list[..n + 1])
              == Board(if t.id in b.tasks then b.order else b.order + [t.id], b.tasks[t.id := t.View()])
    {
      assert Front(list[..n + 1]) == list[..n];
    }

    static lemma LatestExtends(list: seq<Task>, n: nat)
      requires n < |list|
      ensures Latest(list[..n + 1], list[n])
      ensures forall t :: Latest(list[..n], t) && t.id != list[n].id ==> Latest(list[..n + 1], t)
    {
      assert list[..n + 1][n] == list[n];
      forall t | Latest(list[..n], t) && t.id != list[n].id
        ensures Latest(list[..n + 1], t)
      {
        var i :| 0 <= i < n && list[..n][i] == t && forall j :: i < j < n ==> list[..n][j].id != t.id;
        assert list[..n + 1][i] == t;
      }
    }

    /* ----- Queries ----- */

    method IsReady(task: Task) returns (ready: bool)
      requires Shape() && Owns(task)
      ensures ready <==> Ready(Now(), task.id)
    {
      assert tasks[task.id] == task && Now().tasks[task.id] == task.View();
      if task.status != Pending {
        return false;
      }
      for n := 0 to |task.dependsOn|
        invariant forall i :: 0 <= i < n ==> Now().Has(task.dependsOn[i], Completed)
      {
        var d := task.dependsOn[n];
        if !(d in tasks && tasks[d].status == Completed) {
          assert d in Now().tasks[task.id].dependsOn && !Now().Has(d, Completed);
          return false;
        }
      }
      ready := true;
    }

    /** The first pending task, in insertion order, whose dependencies are all completed. */
    method NextReady() returns (task: Task?)
      requires Valid()
      ensures task == null <==> Stuck(Now())
      ensures task != null ==> Owns(task) && task in tasks.Values && FirstReady(Now(), task.id)
    {
      hide Replay, Ready;
      for n := 0 to |order|
        invariant forall i :: 0 <= i < n ==> !Ready(Now(), order[i])
      {
        assert order[n] in tasks;
        var ready := IsReady(tasks[order[n]]);
        if ready {
          assert Now().order[n] == tasks[order[n]].id;
          assert !Stuck(Now()) by { assert order[n] in Now().tasks; }
          return tasks[order[n]];
        }
      }
      task := null;
    }

    method HasPending() returns (found: bool)
      requires Valid()
      ensures found <==> !NonePending(Now())
    {
      hide Replay;
      for n := 0 to |order|
        invariant forall i :: 0 <= i < n ==> order[i] in tasks && tasks[order[i]].status != Pending
      {
        assert order[n] in tasks;
        if tasks[order[n]].status == Pending {
          assert Now().Has(order[n], Pending);
          return true;
        }
      }
      found := false;
    }

    // `x` was inserted before `y`.
    ghost predicate Precedes(x: string, y: string)
      reads `order
    {
      exists p, q :: 0 <= p < q < |order| && order[p] == x && order[q] == y
    }

    // Exactly the wanted tasks, each once, in insertion order.
    ghost predicate Lists(found: seq<Task>, wanted: set<string>)
      reads `tasks, `order
    {
      && (forall i, j :: 0 <= i < j < |found| ==> Precedes(found[i].id, found[j].id))
      && (forall i :: 0 <= i < |found| ==> found[i].id in wanted && Owns(found[i]))
      && (forall id :: id in wanted ==> exists i :: 0 <= i < |found| && found[i].id == id)
      && (forall i, j :: 0 <= i < j < |found| ==> found[i].id != found[j].id)
    }

    ghost function IdsWith(status: TaskStatus): set<string>
      reads `tasks, tasks.Values
    {
      set id | id in tasks && tasks[id].status == status
    }

    ghost function IdsBefore(n: nat, among: set<string>): set<string>
      requires n <= |order|
      reads `order
    {
      set id | id in order[..n] && id in among
    }

    lemma NextId(n: nat, among: set<string>)
      requires n < |order| && Shape()
      ensures order[n] in tasks && order[n] !in IdsBefore(n, among)
      ensures Owns(tasks[order[n]]) && tasks[order[n]].id == order[n]
      ensures IdsBefore(n + 1, among) == IdsBefore(n, among) + (if order[n] in among then {order[n]} else {})
      ensures forall id :: id in IdsBefore(n, among) ==> Precedes(id, order[n])
    {
      assert order[..n + 1] == order[..n] + [order[n]];
    }

    lemma AllIds(among: set<string>)
      requires Shape() && among <= tasks.Keys
      ensures IdsBefore(0, among) == {} && IdsBefore(|order|, among) == among
    {
      assert order[..|order|] == order;
    }

    method WithStatus(status: TaskStatus) returns (found: seq<Task>)
      requires Valid()
      ensures Lists(found, IdsWith(status))
      ensures forall i :: 0 <= i < |found| ==> found[i].status == status
    {
      hide *;
      ShapeOf();
      ListsNone();
      WithFacts(status);
      AllIds(IdsWith(status));
      found := [];
      for n := 0 to |order|
        invariant Lists(found, IdsBefore(n, IdsWith(status)))
        invariant forall i :: 0 <= i < |found| ==> found[i].status == status
      {
        NextId(n, IdsWith(status));
        if tasks[order[n]].status == status {
          ListsOneMore(found, IdsBefore(n, IdsWith(status)), tasks[order[n]]);
          found := found + [tasks[order[n]]];
        } else {
          assert IdsBefore(n + 1, IdsWith(status)) == IdsBefore(n, IdsWith(status));
        }
      }
    }

    lemma WithFacts(status: TaskStatus)
      ensures IdsWith(status) <= tasks.Keys
      ensures forall id :: id in IdsWith(status) <==> id in tasks && tasks[id].status == status
    {
    }

    lemma ListsNone()
      ensures Lists([], {})
    {
    }

    lemma ListsOneMore(found: seq<Task>, wanted: set<string>, task: Task)
      requires Lists(found, wanted) && task.id !in wanted && Owns(task)
      requires forall id :: id in wanted ==> Precedes(id, task.id)
      ensures Lists(found + [task], wanted + {task.id})
    {
      var longer := found + [task];
      forall id | id in wanted + {task.id}
        ensures exists i :: 0 <= i < |longer| && longer[i].id == id
      {
        if id in wanted {
          var i :| 0 <= i < |found| && found[i].id == id;
          assert longer[i].id == id;
        } else {
          assert longer[|found|].id == id;
        }
      }
    }

    ghost function BlockedIds(): set<string>
      reads `tasks, `order, tasks.Values
    {
      set id | id in tasks && Blocked(Now(), id)
    }

    lemma DependencyOnBoard(d: string)
      ensures DeadDependency(Now(), d) <==> d !in tasks || tasks[d].status in {Failed, Skipped}
    {
    }

    lemma TaskOnBoard(task: Task)
      ensures Owns(task) ==> task.id in Now().tasks && Now().tasks[task.id] == task.View()
    {
    }

    method IsBlocked(task: Task) returns (blocked: bool)
      requires Owns(task)
      ensures blocked <==> Blocked(Now(), task.id)
    {
      TaskOnBoard(task);
      if task.status != Pending {
        return false;
      }
      for n := 0 to |task.dependsOn|
        invariant forall i :: 0 <= i < n ==> !DeadDependency(Now(), task.dependsOn[i])
      {
        var d := task.dependsOn[n];
        DependencyOnBoard(d);
        if d !in tasks || tasks[d].status == Failed || tasks[d].status == Skipped {
          assert d in Now().tasks[task.id].dependsOn;
          return true;
        }
      }
      blocked := false;
    }

    /** Pending tasks with a dependency that failed, was skipped or does not exist. */
    method BlockedPending() returns (found: seq<Task>)
      requires Valid()
      ensures Lists(found, BlockedIds())
      ensures forall i :: 0 <= i < |found| ==> found[i].status == Pending
    {
      hide *;
      ShapeOf();
      ListsNone();
      BlockedFacts();
      AllIds(BlockedIds());
      found := [];
      for n := 0 to |order|
        invariant Lists(found, IdsBefore(n, BlockedIds()))
        invariant forall i :: 0 <= i < |found| ==> found[i].status == Pending
      {
        NextId(n, BlockedIds());
        var task := tasks[order[n]];
        var blocked := IsBlocked(task);
        if blocked {
          ListsOneMore(found, IdsBefore(n, BlockedIds()), task);
          found := found + [task];
        } else {
          assert IdsBefore(n + 1, BlockedIds()) == IdsBefore(n, BlockedIds());
        }
      }
    }

    lemma ShapeOf()
      ensures Valid() ==> Shape()
    {
    }

    lemma BlockedFacts()
      ensures BlockedIds() <= tasks.Keys
      ensures forall id :: id in BlockedIds() <==> Blocked(Now(), id)
      ensures forall id :: Blocked(Now(), id) ==> id in tasks && tasks[id].status == Pending
    {
    }

    /** Copies of all tasks, in order: what a run's record keeps. A manager built from them has the
        same board. */
    method Snapshot() returns (copies: seq<Task>)
      requires Valid()
      ensures PlanBoard(copies) == Now() && forall t :: t in copies ==> fresh(t)
    {
      hide PlanBoard, Replay;
      copies := [];
      for n := 0 to |order|
        invariant |copies| == n && forall t :: t in copies ==> fresh(t)
        invariant forall i :: 0 <= i < n ==>
                    && copies[i].id == order[i] && order[i] in Now().tasks
                    && copies[i].View() == Now().tasks[order[i]]
      {
        assert order[n] in tasks && Now().tasks[order[n]] == tasks[order[n]].View();
        var copy := new Task.CopyOf(tasks[order[n]]);
        copies := copies + [copy];
      }
      assert Now().order == order && Now().Valid();
      RebuildGivesBack(copies, Now());
    }

    /* ----- Transitions ----- */

    // The proof shared by the transitions: since `before`, `task` alone has changed, as s says.
    lemma Advance(before: Board, earlier: seq<Step>, task: Task, s: Step)
      requires Shape() && before == Replay(entry, earlier) && steps == earlier + [s]
      requires before.order == order && before.tasks.Keys == tasks.Keys
      requires Owns(task) && !s.Add? && s.id == task.id && task.View() == Changed(before.tasks[task.id], s)
      requires forall id :: id in tasks && id != task.id ==> tasks[id].View() == before.tasks[id]
      ensures Valid() && Now() == Apply(before, s)
    {
      Extend(entry, earlier, s);
      assert Now().tasks == Apply(before, s).tasks;
    }

    method MarkRunning(task: Task)
      requires Valid() && Owns(task)
      modifies task`status, `steps
      ensures Valid() && entry == old(entry) && steps == old(steps) + [Start(task.id)]
      ensures Now() == Apply(old(Now()), Start(task.id))
    {
      hide Replay, Legal, Allowed, Apply;
      ghost var before, earlier := Now(), steps;
      steps := steps + [Start(task.id)];
      task.status := Running;
      Advance(before, earlier, task, Start(task.id));
    }

    method Complete(task: Task)
      requires Valid() && Owns(task)
      modifies task`status, `steps
      ensures Valid() && entry == old(entry) && steps == old(steps) + [Step.Complete(task.id)]
      ensures Now() == Apply(old(Now()), Step.Complete(task.id))
    {
      hide Replay, Legal, Allowed, Apply;
      ghost var before, earlier := Now(), steps;
      steps := steps + [Step.Complete(task.id)];
      task.status := Completed;
      Advance(before, earlier, task, Step.Complete(task.id));
    }

    method Fail(task: Task)
      requires Valid() && Owns(task)
      modifies task`status, `steps
      ensures Valid() && entry == old(entry) && steps == old(steps) + [Step.Fail(task.id)]
      ensures Now() == Apply(old(Now()), Step.Fail(task.id))
    {
      hide Replay, Legal, Allowed, Apply;
      ghost var before, earlier := Now(), steps;
      steps := steps + [Step.Fail(task.id)];
      task.status := Failed;
      Advance(before, earlier, task, Step.Fail(task.id));
    }

    method Skip(task: Task)
      requires Valid() && Owns(task)
      modifies task`status, `steps
      ensures Valid() && entry == old(entry) && steps == old(steps) + [Step.Skip(task.id)]
      ensures Now() == Apply(old(Now()), Step.Skip(task.id))
    {
      hide Replay, Legal, Allowed, Apply;
      ghost var before, earlier := Now(), steps;
      steps := steps + [Step.Skip(task.id)];
      task.status := Skipped;
      Advance(before, earlier, task, Step.Skip(task.id));
    }

    function RetryAllowed(task: Task): bool
      reads task
    {
      task.attempt + 1 < task.maxAttempts
    }

    /** Below the cap the task becomes pending again with one more attempt. At the cap only the
        counter moves; the loop never asks for that. */
    method Retry(task: Task) returns (ok: bool)
      requires Valid() && Owns(task)
      modifies task, `steps
      ensures ok <==> old(RetryAllowed(task))
      ensures Valid() && entry == old(entry) && steps == old(steps) + [if ok then Step.Retry(task.id) else Overrun(task.id)]
      ensures Now() == Apply(old(Now()), if ok then Step.Retry(task.id) else Overrun(task.id))
    {
      hide Replay, Legal, Allowed, Apply;
      ghost var before, earlier := Now(), steps;
      task.attempt := task.attempt + 1;
      ok := task.attempt < task.maxAttempts;
      if !ok {
        steps := steps + [Overrun(task.id)];
        Advance(before, earlier, task, Overrun(task.id));
        return;
      }
      steps := steps + [Step.Retry(task.id)];
      task.status := Retrying;
      task.status := Pending;
      Advance(before, earlier, task, Step.Retry(task.id));
    }

    method PauseForUser(task: Task, confirmation: string)
      requires Valid() && Owns(task)
      modifies task, `steps
      ensures Valid() && entry == old(entry) && steps == old(steps) + [Wait(task.id, confirmation)]
      ensures Now() == Apply(old(Now()), Wait(task.id, confirmation))
      ensures forall c :: c in task.waitingOn <==> c == confirmation || c in old(task.waitingOn)
    {
      hide Replay, Legal, Allowed, Apply;
      ghost var before, earlier := Now(), steps;
      steps := steps + [Wait(task.id, confirmation)];
      task.status := WaitingForUser;
      if confirmation !in task.waitingOn {
        task.waitingOn := task.waitingOn + [confirmation];
      }
      Advance(before, earlier, task, Wait(task.id, confirmation));
    }

    /** Adding a task whose id is taken changes nothing. */
    method AddTask(task: Task)
      requires Valid()
      modifies this
      ensures Valid() && entry == old(entry)
      ensures old(task.id in tasks) ==> tasks == old(tasks) && steps == old(steps) && Now() == old(Now())
      ensures old(task.id !in tasks) ==>
                && tasks == old(tasks)[task.id := task]
                && steps == old(steps) + [Add(task.id, task.View())]
                && Now() == Apply(old(Now()), Add(task.id, task.View()))
    {
      hide BoardFrom, Filed, Replay, Legal, Allowed, Apply;
      ghost var before, records, places, earlier := Now(), tasks, order, steps;
      KnownIds();
      if task.id !in tasks {
        tasks := tasks[task.id := task];
        order := order + [task.id];
        steps := steps + [Add(task.id, task.View())];
        Inserted(before, records, places, task);
        AddIsInsertion(before, task.id, task.View());
        Extend(entry, earlier, Add(task.id, task.View()));
      }
    }

    lemma KnownIds()
      ensures Now().tasks.Keys == tasks.Keys
    {
    }

    static lemma AddIsInsertion(b: Board, id: string, task: TaskView)
      ensures id !in b.tasks ==> Apply(b, Add(id, task)) == Board(b.order + [id], b.tasks[id := task])
    {
    }
  }
}
