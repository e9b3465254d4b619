/** What a history of steps has to do with the passes that ran: every task was settled by its own pass. */
module TaskOutcomes {
  import opened AgentAccounts
  import opened AgentTrace
  import opened Helpers

  // The steps that end the run of a task.
  predicate Settles(s: Step) {
    s.Complete? || s.Fail? || s.Retry? || s.Wait?
  }

  /** From `pre` to `post`, pass `p` has started one task; if a step settled it, it did so at once, as the
      pass calls for, and no other task was settled. */
  ghost predicate RunsOnce(pre: seq<Step>, post: seq<Step>, p: Pass) {
    && |pre| < |post| && pre <= post && post[|pre|].Start?
    && forall n :: |pre| < n < |post| ==>
         !post[n].Start? && (Settles(post[n]) ==> n == |pre| + 1 && post[n].id == post[|pre|].id && Fits(p, post[n]))
  }

  lemma StartedOnce(pre: seq<Step>, id: string, p: Pass)
    ensures RunsOnce(pre, pre + [Start(id)], p)
  {
  }

  lemma SettledOnce(pre: seq<Step>, id: string, s: Step, p: Pass)
    ensures s.id == id && Settles(s) && Fits(p, s) ==> RunsOnce(pre, pre + [Start(id)] + [s], p)
  {
  }

  lemma RepairedOnce(pre: seq<Step>, mid: seq<Step>, post: seq<Step>, p: Pass)
    requires RunsOnce(pre, mid, p) && mid <= post && forall n :: |mid| <= n < |post| ==> post[n].Add?
    ensures RunsOnce(pre, post, p)
  {
    hide Fits;
  }

  // The pass that settled a task at step `n`, counting starts from history h0 on, calls for that step.
  ghost predicate ExplainedAt(h0: seq<Step>, steps: seq<Step>, n: nat, script: nat -> Pass)
    requires n < |steps|
  {
    && |h0| < n && steps[n - 1] == Start(steps[n].id)
    && AllStarts(steps[..n]) > AllStarts(h0)
    && Fits(script(AllStarts(steps[..n]) - AllStarts(h0) - 1), steps[n])
  }

  /** Since history h0, every task was settled right after it was started, as the pass that ran it calls
      for: the k-th start ran pass k. */
  ghost predicate Explained(h0: seq<Step>, steps: seq<Step>, script: nat -> Pass) {
    h0 <= steps && forall n :: |h0| <= n < |steps| && Settles(steps[n]) ==> ExplainedAt(h0, steps, n, script)
  }

  lemma NothingToExplain(h0: seq<Step>, script: nat -> Pass)
    ensures Explained(h0, h0, script)
  {
  }

  lemma ExplainedBefore(h0: seq<Step>, pre: seq<Step>, post: seq<Step>, n: nat, script: nat -> Pass)
    requires n < |pre| && pre <= post && ExplainedAt(h0, pre, n, script)
    ensures ExplainedAt(h0, post, n, script)
  {
    hide Fits, AllStarts;
    assert post[..n] == pre[..n];
  }

  lemma ExplainsOneMore(h0: seq<Step>, pre: seq<Step>, post: seq<Step>, script: nat -> Pass, starts: nat)
    requires Explained(h0, pre, script) && AllStarts(pre) == AllStarts(h0) + starts
    requires RunsOnce(pre, post, script(starts))
    ensures Explained(h0, post, script)
  {
    hide Fits, AllStarts;
    forall n | |h0| <= n < |post| && Settles(post[n])
      ensures ExplainedAt(h0, post, n, script)
    {
      if n < |pre| {
        assert post[n] == pre[n];
        ExplainedBefore(h0, pre, post, n, script);
      } else {
        assert n == |pre| + 1;
        assert post[..n] == pre + [post[|pre|]];
        CountsExtend(pre, post[|pre|]);
      }
    }
  }

  lemma SkipsNeedNoPass(h0: seq<Step>, pre: seq<Step>, skips: seq<Step>, script: nat -> Pass)
    requires Explained(h0, pre, script) && OnlySkips(skips)
    ensures Explained(h0, pre + skips, script)
  {
    hide Fits, AllStarts;
    var all := pre + skips;
    forall n | |pre| <= n < |all| ensures !Settles(all[n]) {
      assert all[n] == skips[n - |pre|];
    }
    forall n | |h0| <= n < |all| && Settles(all[n])
      ensures ExplainedAt(h0, all, n, script)
    {
      ExplainedBefore(h0, pre, all, n, script);
    }
  }

  ghost predicate LastStart(steps: seq<Step>, id: string, n: nat) {
    n < |steps| && steps[n] == Start(id) && forall m :: n < m < |steps| ==> steps[m] != Start(id)
  }

  // The last start of the task ran a pass that sent calls and whose verdict was ok.
  ghost predicate RanVerified(steps: seq<Step>, id: string, script: nat -> Pass) {
    exists n: nat :: LastStart(steps, id, n) && Verifies(script(AllStarts(steps[..n])))
  }

  /** Every task completed since board `found` was verified when it ran last. */
  ghost predicate CompletedAreVerified(found: Board, end: Board, steps: seq<Step>, script: nat -> Pass) {
    forall id :: end.Has(id, Completed) && !found.Has(id, Completed) ==> RanVerified(steps, id, script)
  }

  lemma CompletionHolds(b: Board, id: string)
    ensures Allowed(b, Complete(id)) ==> Apply(b, Complete(id)).Has(id, Completed) && Finished(Apply(b, Complete(id)), id)
    ensures b.Has(id, Completed) ==> !Allowed(b, Start(id))
  {
  }

  lemma SameRecord(b: Board, b': Board, id: string)
    ensures b.Has(id, Completed) && id in b'.tasks && b'.tasks[id] == b.tasks[id] ==> b'.Has(id, Completed)
  {
  }

  lemma CompletedStaysUnstarted(entry: Board, steps: seq<Step>, n: nat, m: nat, id: string)
    requires Legal(entry, steps) && n < m < |steps| && steps[n] == Complete(id)
    ensures steps[m] != Start(id)
  {
    hide *;
    PrefixIsLegal(entry, steps, n);
    PrefixIsLegal(entry, steps, m);
    var done, later := steps[..n] + [steps[n]], steps[n + 1..m];
    assert steps[..m] == done + later;
    Extend(entry, steps[..n], steps[n]);
    Compose(entry, done, later);
    CompletionHolds(Replay(entry, steps[..n]), id);
    FinishedIsFinal(Replay(entry, done), later, id);
    SameRecord(Replay(entry, done), Replay(entry, steps[..m]), id);
    CompletionHolds(Replay(entry, steps[..m]), id);
  }

  lemma CompletedBy(b: Board, steps: seq<Step>, id: string) returns (k: nat)
    requires Legal(b, steps) && Replay(b, steps).Has(id, Completed) && !b.Has(id, Completed)
    ensures k < |steps| && steps[k] == Complete(id)
  {
    hide *;
    CompletedEarlier(b, steps, id);
    k :| 0 <= k < |steps| && steps[k] == Complete(id);
  }

  lemma FitsComplete(p: Pass, s: Step)
    ensures Fits(p, s) && s.Complete? ==> Verifies(p)
  {
  }

  lemma ExplainedHere(h: seq<Step>, steps: seq<Step>, n: nat, script: nat -> Pass)
    ensures Explained(h, steps, script) && |h| <= n < |steps| && Settles(steps[n]) ==>
              ExplainedAt(h, steps, n, script)
  {
    hide ExplainedAt;
  }

  lemma ExplainedComplete(h: seq<Step>, steps: seq<Step>, c: nat, id: string, script: nat -> Pass)
    requires Explained(h, steps, script) && AllStarts(h) == 0 && |h| <= c < |steps| && steps[c] == Complete(id)
    ensures 0 < c && steps[c - 1] == Start(id) && Verifies(script(AllStarts(steps[..c - 1])))
  {
    ExplainedHere(h, steps, c, script);
    hide AllStarts, Verifies, Fits, Explained;
    assert steps[..c] == steps[..c - 1] + [steps[c - 1]];
    CountsExtend(steps[..c - 1], steps[c - 1]);
    FitsComplete(script(AllStarts(steps[..c - 1])), steps[c]);
  }

  lemma CompletedWasVerified(entry: Board, h: seq<Step>, steps: seq<Step>, script: nat -> Pass, id: string)
    requires Legal(entry, steps) && Explained(h, steps, script) && h <= steps && AllStarts(h) == 0
    requires Replay(entry, steps).Has(id, Completed) && !Replay(entry, h).Has(id, Completed)
    ensures RanVerified(steps, id, script)
  {
    hide Replay, Legal, Explained, AllStarts, Verifies, Board.Has;
    var rest := steps[|h|..];
    assert steps == h + rest;
    Compose(entry, h, rest);
    var k := CompletedBy(Replay(entry, h), rest, id);
    var c := |h| + k;
    assert steps[c] == Complete(id);
    ExplainedComplete(h, steps, c, id, script);
    forall m | c - 1 < m < |steps| ensures steps[m] != Start(id) {
      if m > c {
        CompletedStaysUnstarted(entry, steps, c, m, id);
      }
    }
    assert LastStart(steps, id, c - 1);
  }

  lemma AllCompletedAreVerified(entry: Board, h: seq<Step>, steps: seq<Step>, script: nat -> Pass)
    requires Legal(entry, steps) && Explained(h, steps, script) && h <= steps && AllStarts(h) == 0
    ensures CompletedAreVerified(Replay(entry, h), Replay(entry, steps), steps, script)
  {
    hide Replay, Legal, Explained, AllStarts, RanVerified, Board.Has;
    var found, end := Replay(entry, h), Replay(entry, steps);
    forall id | end.Has(id, Completed) && !found.Has(id, Completed)
      ensures RanVerified(steps, id, script)
    {
      CompletedWasVerified(entry, h, steps, script, id);
    }
  }
}
