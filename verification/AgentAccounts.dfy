/** What the agent loop is told by the world outside, pass by pass, and what its passes may spend. */
module AgentAccounts {
  import opened AgentTrace
  import opened Budgets
  import opened Helpers

  /* ---------- The outside world ---------- */

  datatype Response = Executed | NotExecuted | ConfirmationRequired(confirmation: string)

  datatype Choice = Approve | Deny | WaitChoice

  // One proposed tool call and, should it be sent, how the world answers it.
  datatype Call = Call(actionType: string, askedAt: real, response: Response, choice: Choice, approved: Response)

  datatype LlmUse = LlmUse(askedAt: real, tokens: int, costUsd: real)

  datatype Thought = BrainError | Proposal(calls: seq<Call>)

  datatype Pass = Pass(checkedAt: real, llm: seq<LlmUse>, thought: Thought, gateRejects: bool, verdictOk: bool)

  // A request as the execution service receives it, with the iteration count at that moment.
  datatype Request = Request(taskId: string, iteration: int)

  function WithAction(calls: seq<Call>): seq<Call> {
    if calls == [] then []
    else WithAction(Front(calls)) + (if Last(calls).actionType != "" then [Last(calls)] else [])
  }

  /** Calls without an action are dropped, one by one; the others keep their order. */
  lemma {:induction false} WithActionDistributes(a: seq<Call>, b: seq<Call>, c: Call)
    ensures WithAction(a + b) == WithAction(a) + WithAction(b)
    ensures WithAction([c]) == if c.actionType == "" then [] else [c]
    decreases |b|
  {
    if b == [] {
      assert a + b == a;
    } else {
      WithActionDistributes(a, Front(b), c);
      assert Front(a + b) == a + Front(b);
    }
    assert Front([c]) == [];
  }

  // The calls a pass has to send, if it comes to that.
  function Proposed(p: Pass): seq<Call> {
    if p.thought.BrainError? then [] else WithAction(p.thought.calls)
  }

  // A pass in which nothing is sent.
  predicate Silent(p: Pass) {
    p.thought.BrainError? || Proposed(p) == [] || p.gateRejects
  }

  // The call was executed, at once or after the operator's approval.
  predicate Goes(c: Call) {
    c.response.Executed? || (c.response.ConfirmationRequired? && c.choice == Approve && c.approved.Executed?)
  }

  // The call came back without being executed and without anyone having to decide on it.
  predicate Stops(c: Call) {
    c.response.NotExecuted? || (c.response.ConfirmationRequired? && c.choice == Approve && !c.approved.Executed?)
  }

  predicate Waits(c: Call) {
    c.response.ConfirmationRequired? && c.choice == WaitChoice
  }

  // An operator who is asked in this pass may choose to wait.
  ghost predicate MayWait(p: Pass) {
    exists i :: 0 <= i < |Proposed(p)| && Waits(Proposed(p)[i])
  }

  // An operator is asked for this very confirmation in the pass, and waits.
  ghost predicate AsksFor(p: Pass, confirmation: string) {
    exists i :: 0 <= i < |Proposed(p)| && Proposed(p)[i].response == ConfirmationRequired(confirmation) && Waits(Proposed(p)[i])
  }

  lemma AskingIsWaiting(p: Pass, confirmation: string)
    ensures AsksFor(p, confirmation) ==> MayWait(p)
  {
  }

  // A call can reach its provider when it is requested, or else when its confirmation is approved.
  predicate MayReachProvider(c: Call) {
    !c.response.ConfirmationRequired? || c.choice == Approve
  }

  // How many of the calls can have reached a provider.
  function Dispatched(calls: seq<Call>): nat {
    if calls == [] then 0 else Dispatched(Front(calls)) + if MayReachProvider(Last(calls)) then 1 else 0
  }

  /** No call reaches its provider twice: an approval is the first dispatch of the call it approves. */
  lemma {:induction false} DispatchedAtMostOnce(calls: seq<Call>)
    ensures Dispatched(calls) <= |calls|
    decreases |calls|
  {
    if calls == [] {
    } else {
      DispatchedAtMostOnce(Front(calls));
    }
  }

  /** Exactly those calls count as dispatched that needed no confirmation or whose confirmation was approved. */
  lemma {:induction false} DispatchedCounts(calls: seq<Call>)
    ensures Dispatched(calls)
            == |set i: nat | i < |calls| && (!calls[i].response.ConfirmationRequired? || calls[i].choice == Approve)|
    decreases |calls|
  {
    var them := set i: nat | i < |calls| && (!calls[i].response.ConfirmationRequired? || calls[i].choice == Approve);
    if calls == [] {
      assert them == {};
    } else {
      DispatchedCounts(Front(calls));
      var n, fewer := |calls| - 1, Front(calls);
      var before := set i: nat | i < |fewer| && (!fewer[i].response.ConfirmationRequired? || fewer[i].choice == Approve);
      assert them == before + if MayReachProvider(calls[n]) then {n} else {};
      assert n !in before;
    }
  }

  // What one pass dispatches, having sent `count` calls.
  function DispatchedIn(p: Pass, count: nat): nat {
    if Silent(p) || count > |Proposed(p)| then 0 else Dispatched(Proposed(p)[..count])
  }

  datatype CallsOutcome = Observed | Refused | CallsWait(confirmation: string) | CallsOverBudget

  // What one execution of a task comes to.
  datatype Decision = Succeed | TryAgain | GiveUp | GiveUpAndRepair | AskUser(confirmation: string) | OverBudget

  /* ---------- One pass ---------- */

  // Model calls are made, and charged, only while the budget allows one.
  function AfterThinking(c: Caps, startedAt: real, u: Usage, uses: seq<LlmUse>): Usage {
    if uses == [] then u
    else
      var v := AfterThinking(c, startedAt, u, Front(uses));
      if MayCallLlm(c, startedAt, v, Last(uses).askedAt) then Charged(v, Last(uses).tokens, Last(uses).costUsd) else v
  }

  // The model calls that are made.
  function Made(c: Caps, startedAt: real, u: Usage, uses: seq<LlmUse>): seq<LlmUse> {
    if uses == [] then []
    else
      var v := AfterThinking(c, startedAt, u, Front(uses));
      Made(c, startedAt, u, Front(uses)) + if MayCallLlm(c, startedAt, v, Last(uses).askedAt) then [Last(uses)] else []
  }

  function TokensOf(uses: seq<LlmUse>): int {
    if uses == [] then 0 else TokensOf(Front(uses)) + if Last(uses).tokens > 0 then Last(uses).tokens else 0
  }

  /** Thinking is charged one call, its tokens and its cost for every model call made, and nothing else. */
  lemma {:induction false} ThinkingCharges(c: Caps, startedAt: real, u: Usage, uses: seq<LlmUse>)
    ensures var v, made := AfterThinking(c, startedAt, u, uses), Made(c, startedAt, u, uses);
            && v.llmCalls == u.llmCalls + |made| && v.tokens == u.tokens + TokensOf(made)
            && v.costUsd == u.costUsd + CostOf(made)
            && v.iterations == u.iterations && v.toolCalls == u.toolCalls
    decreases |uses|
  {
    if uses == [] {
    } else {
      ThinkingCharges(c, startedAt, u, Front(uses));
      var before := Made(c, startedAt, u, Front(uses));
      assert Front(before + [Last(uses)]) == before;
      assert before + [] == before;
    }
  }

  /** With room under every cap all model calls are made. */
  lemma {:induction false} RoomForAllCalls(c: Caps, startedAt: real, u: Usage, uses: seq<LlmUse>)
    requires u.iterations <= c.maxIterations && u.toolCalls <= c.maxToolCalls
    requires u.llmCalls + |uses| <= c.maxLlmCalls && u.costUsd + CostOf(uses) <= c.costCapUsd
    requires forall i :: 0 <= i < |uses| ==> uses[i].askedAt - startedAt <= c.timeoutSeconds
    ensures Made(c, startedAt, u, uses) == uses
    decreases |uses|
  {
    if uses == [] {
    } else {
      RoomForAllCalls(c, startedAt, u, Front(uses));
      ThinkingCharges(c, startedAt, u, Front(uses));
      assert Front(uses) + [Last(uses)] == uses;
    }
  }

  function CostOf(uses: seq<LlmUse>): real {
    if uses == [] then 0.0 else CostOf(Front(uses)) + if Last(uses).costUsd < 0.0 then 0.0 else Last(uses).costUsd
  }

  /** Calls go out in order, each while the budget allows it, up to the first that is not executed;
      the outcome says why no more went out. */
  ghost predicate SentAs(c: Caps, startedAt: real, u: Usage, calls: seq<Call>, o: CallsOutcome, count: nat) {
    && count <= |calls|
    && (forall i :: 0 <= i < count ==> MayCallTool(c, startedAt, u.(toolCalls := u.toolCalls + i), calls[i].askedAt))
    && (forall i :: 0 <= i < count - 1 ==> Goes(calls[i]))
    && match o
       case Observed => (count == |calls| && (count > 0 ==> Goes(calls[count - 1])))
                        || (count > 0 && Stops(calls[count - 1]))
       case Refused => count > 0 && calls[count - 1].response.ConfirmationRequired? && calls[count - 1].choice == Deny
       case CallsWait(id) =>
         count > 0 && calls[count - 1].response == ConfirmationRequired(id) && calls[count - 1].choice == WaitChoice
       case CallsOverBudget =>
         && count < |calls| && (count > 0 ==> Goes(calls[count - 1]))
         && !MayCallTool(c, startedAt, u.(toolCalls := u.toolCalls + count), calls[count].askedAt)
  }

  // The call was executed, one way or the other.
  predicate WasExecuted(c: Call) {
    match c.response
    case Executed => true
    case NotExecuted => false
    case ConfirmationRequired(_) => c.choice == Approve && c.approved == Executed
  }

  /** Sending goes on exactly as long as calls are executed: every call but the last one sent was, and
      where it stopped early on its own the last one was not. */
  lemma SendingStops(c: Caps, startedAt: real, u: Usage, calls: seq<Call>, o: CallsOutcome, count: nat)
    requires SentAs(c, startedAt, u, calls, o, count)
    ensures count <= |calls| && forall i :: 0 <= i < count - 1 ==> WasExecuted(calls[i])
    ensures o.CallsOverBudget? && count > 0 ==> WasExecuted(calls[count - 1])
    ensures o.Observed? && count < |calls| ==>
              count > 0 && !WasExecuted(calls[count - 1])
              && (calls[count - 1].response.ConfirmationRequired? ==> calls[count - 1].choice == Approve)
    ensures o.Refused? || o.CallsWait? ==>
              count > 0 && !WasExecuted(calls[count - 1]) && calls[count - 1].response.ConfirmationRequired?
  {
    forall i | 0 <= i < count - 1 ensures WasExecuted(calls[i]) {
      assert Goes(calls[i]);
    }
  }

  /** One execution of a task: the usage before and after, how the sending ended, and how many calls
      were sent. */
  ghost predicate Executes(c: Caps, startedAt: real, u: Usage, p: Pass, o: CallsOutcome, count: nat, u': Usage) {
    var v := AfterThinking(c, startedAt, u, p.llm);
    && u' == v.(toolCalls := v.toolCalls + count)
    && if Silent(p) then o == Observed && count == 0 else SentAs(c, startedAt, v, Proposed(p), o, count)
  }

  // What the decision is for, once it is known how the calls went.
  function Decide(p: Pass, sent: CallsOutcome, attemptsLeft: bool, retryable: bool): Decision {
    if p.thought.BrainError? then (if attemptsLeft then TryAgain else GiveUp)
    else if WithAction(p.thought.calls) == [] || p.gateRejects then GiveUp
    else match sent
      case CallsOverBudget => OverBudget
      case CallsWait(c) => AskUser(c)
      case Refused => GiveUp
      case Observed =>
        if p.verdictOk then Succeed
        else if attemptsLeft && retryable then TryAgain
        else GiveUpAndRepair
  }

  // The pass gets as far as sending calls.
  predicate Speaks(p: Pass) {
    !p.thought.BrainError? && WithAction(p.thought.calls) != [] && !p.gateRejects
  }

  // The calls were sent as far as they went, and the verifier accepted what came of them.
  predicate Verifies(p: Pass) {
    Speaks(p) && p.verdictOk
  }

  // In this pass a task can be settled by this step.
  ghost predicate Fits(p: Pass, s: Step) {
    match s
    case Complete(_) => Verifies(p)
    case Retry(_) => p.thought.BrainError? || (Speaks(p) && !p.verdictOk)
    case Fail(_) => !Verifies(p) || exists i :: 0 <= i < |Proposed(p)| && Proposed(p)[i].choice == Deny
    case Wait(_, confirmation) => AsksFor(p, confirmation)
    case _ => true
  }

  // A task that failed its verification, and is not to be run again.
  predicate FinallyUnverified(p: Pass, sent: CallsOutcome, attemptsLeft: bool, retryable: bool) {
    Speaks(p) && sent.Observed? && !p.verdictOk && !(attemptsLeft && retryable)
  }

  lemma RepairDecision(p: Pass, sent: CallsOutcome, attemptsLeft: bool, retryable: bool)
    ensures Decide(p, sent, attemptsLeft, retryable).GiveUpAndRepair? <==> FinallyUnverified(p, sent, attemptsLeft, retryable)
  {
    hide WithAction;
  }

  // Some call of the pass would be one too many.
  ghost predicate StopsAtCall(c: Caps, startedAt: real, u: Usage, p: Pass) {
    exists i :: 0 <= i < |Proposed(p)| && !MayCallTool(c, startedAt, u, Proposed(p)[i].askedAt)
  }

  /** Success takes at least one call that was sent, waiting takes an operator who was asked for that
      confirmation and chose to wait, and stopping over budget takes a call that the budget refuses. */
  lemma DecisionsAreEarned(c: Caps, startedAt: real, u: Usage, p: Pass, o: CallsOutcome, count: nat, u': Usage,
                           attemptsLeft: bool, retryable: bool)
    requires Executes(c, startedAt, u, p, o, count, u')
    ensures var d := Decide(p, o, attemptsLeft, retryable);
            && (d.Succeed? ==> count > 0)
            && (d.AskUser? ==> AsksFor(p, d.confirmation))
            && (d.OverBudget? ==> count < |Proposed(p)| && StopsAtCall(c, startedAt, u', p))
            && (d.TryAgain? ==> attemptsLeft)
  {
    if !Silent(p) && o.CallsWait? {
      assert Waits(Proposed(p)[count - 1]);
    }
  }

  /* ---------- Accounting ---------- */

  /** The execution service's two logs: what it was asked for, and what can have reached a provider. */
  datatype Log = Log(requests: seq<Request>, dispatches: seq<Request>)

  // The log after `count` more of one request, `dispatched` of them dispatched.
  function Logged(r: Log, request: Request, count: nat, dispatched: nat): Log {
    Log(r.requests + Repeat(request, count), r.dispatches + Repeat(request, dispatched))
  }

  // The requests of a longer log that a shorter one does not have were made within the iteration cap.
  ghost predicate GrewWithinCap(c: Caps, r: seq<Request>, r': seq<Request>) {
    r <= r' && forall i :: |r| <= i < |r'| ==> r'[i].iteration <= c.maxIterations
  }

  // From usage u and log r to usage u' and log r', within the caps.
  ghost predicate Accounted(c: Caps, u: Usage, r: Log, u': Usage, r': Log) {
    && GrewWithinCap(c, r.requests, r'.requests) && GrewWithinCap(c, r.dispatches, r'.dispatches)
    && u'.toolCalls == u.toolCalls + |r'.requests| - |r.requests|
    && |r'.dispatches| - |r.dispatches| <= |r'.requests| - |r.requests|
    && (u'.toolCalls == u.toolCalls || u'.toolCalls <= c.maxToolCalls)
    && (u'.llmCalls == u.llmCalls || u'.llmCalls <= c.maxLlmCalls)
    && u.iterations <= u'.iterations
    && (u'.iterations == u.iterations || u'.iterations <= c.maxIterations + 1)
  }

  lemma AccountedRefl(c: Caps, u: Usage, r: Log)
    ensures Accounted(c, u, r, u, r)
  {
  }

  lemma AccountedIteration(c: Caps, u: Usage, r: Log)
    ensures u.iterations <= c.maxIterations ==> Accounted(c, u, r, u.(iterations := u.iterations + 1), r)
  {
  }

  lemma GrowthComposes(c: Caps, r: seq<Request>, r': seq<Request>, r'': seq<Request>)
    requires GrewWithinCap(c, r, r') && GrewWithinCap(c, r', r'')
    ensures GrewWithinCap(c, r, r'')
  {
    forall i | |r| <= i < |r''| ensures r''[i].iteration <= c.maxIterations {
      assert i < |r'| ==> r''[i] == r'[i];
    }
  }

  /** Accounts add up: the segments of a run and its resumes, each restored from the one
      before, account for the whole run. */
  lemma AccountedTrans(c: Caps, u: Usage, r: Log, u': Usage, r': Log, u'': Usage, r'': Log)
    requires Accounted(c, u, r, u', r') && Accounted(c, u', r', u'', r'')
    ensures Accounted(c, u, r, u'', r'')
  {
    GrowthComposes(c, r.requests, r'.requests, r''.requests);
    GrowthComposes(c, r.dispatches, r'.dispatches, r''.dispatches);
    hide GrewWithinCap;
  }

  lemma {:induction false} ThinkingIsAccounted(c: Caps, startedAt: real, u: Usage, uses: seq<LlmUse>, r: Log)
    ensures var v := AfterThinking(c, startedAt, u, uses);
            && Accounted(c, u, r, v, r)
            && v.iterations == u.iterations && v.toolCalls == u.toolCalls
            && v.costUsd <= u.costUsd + CostOf(uses)
    decreases |uses|
  {
    if uses == [] {
    } else {
      ThinkingIsAccounted(c, startedAt, u, Front(uses), r);
    }
  }

  lemma SendingIsAccounted(c: Caps, startedAt: real, u: Usage, calls: seq<Call>, o: CallsOutcome, count: nat,
                           r: Log, id: string)
    requires SentAs(c, startedAt, u, calls, o, count)
    ensures Accounted(c, u, r, u.(toolCalls := u.toolCalls + count),
                      Logged(r, Request(id, u.iterations), count, Dispatched(calls[..count])))
  {
    DispatchedAtMostOnce(calls[..count]);
    if count > 0 {
      assert MayCallTool(c, startedAt, u.(toolCalls := u.toolCalls + (count - 1)), calls[count - 1].askedAt);
    }
  }

  lemma NothingLogged(r: Log, request: Request)
    ensures Logged(r, request, 0, 0) == r
  {
    assert Repeat(request, 0) == [];
    assert r.requests + [] == r.requests && r.dispatches + [] == r.dispatches;
  }

  lemma ExecutingIsAccounted(c: Caps, startedAt: real, u: Usage, p: Pass, o: CallsOutcome, count: nat, u': Usage,
                             r: Log, id: string)
    requires Executes(c, startedAt, u, p, o, count, u')
    ensures Accounted(c, u, r, u', Logged(r, Request(id, u.iterations), count, DispatchedIn(p, count)))
    ensures u'.iterations == u.iterations && count <= |Proposed(p)|
    ensures u'.toolCalls == u.toolCalls + count && u'.costUsd <= u.costUsd + CostOf(p.llm)
  {
    var v := AfterThinking(c, startedAt, u, p.llm);
    ThinkingIsAccounted(c, startedAt, u, p.llm, r);
    NothingLogged(r, Request(id, u.iterations));
    if !Silent(p) {
      SendingIsAccounted(c, startedAt, v, Proposed(p), o, count, r, id);
      AccountedTrans(c, u, r, v, r, u', Logged(r, Request(id, u.iterations), count, DispatchedIn(p, count)));
    }
  }

  // The usage and the log at the end of each segment; entry 0 is the start of the run.
  ghost predicate Segments(c: Caps, usage: seq<Usage>, logs: seq<Log>) {
    && |usage| == |logs| > 0 && usage[0] == Usage(0, 0, 0, 0, 0.0) && logs[0] == Log([], [])
    && forall i :: 0 <= i < |usage| - 1 ==> Accounted(c, usage[i], logs[i], usage[i + 1], logs[i + 1])
  }

  /** Over a run and all its resumes under the same caps: what reaches a provider, approved calls
      among it, never exceeds what is requested, which is what is charged and never exceeds the
      tool-call cap; none of it happens once the iteration cap has been passed, and iterations stop one
      past it. */
  lemma {:induction false} CapsHoldOverAllSegments(c: Caps, usage: seq<Usage>, logs: seq<Log>)
    requires Segments(c, usage, logs)
    ensures var n := |usage| - 1;
            && |logs[n].dispatches| <= |logs[n].requests| == usage[n].toolCalls
            && (usage[n].toolCalls == 0 || usage[n].toolCalls <= c.maxToolCalls)
            && GrewWithinCap(c, [], logs[n].requests) && GrewWithinCap(c, [], logs[n].dispatches)
            && (usage[n].iterations == 0 || usage[n].iterations <= c.maxIterations + 1)
            && (usage[n].llmCalls == 0 || usage[n].llmCalls <= c.maxLlmCalls)
    decreases |usage|
  {
    var n := |usage| - 1;
    if n == 0 {
    } else {
      CapsHoldOverAllSegments(c, usage[..n], logs[..n]);
      assert Accounted(c, usage[n - 1], logs[n - 1], usage[n], logs[n]);
      GrowthComposes(c, [], logs[n - 1].requests, logs[n].requests);
      GrowthComposes(c, [], logs[n - 1].dispatches, logs[n].dispatches);
      hide GrewWithinCap;
    }
  }

  /* ---------- What the passes that ran a task have spent ---------- */

  function CallsIn(ran: seq<Pass>): nat {
    if ran == [] then 0 else CallsIn(Front(ran)) + |Proposed(Last(ran))|
  }

  function CostIn(ran: seq<Pass>): real {
    if ran == [] then 0.0 else CostIn(Front(ran)) + CostOf(Last(ran).llm)
  }

  ghost predicate Billed(u: Usage, u': Usage, ran: seq<Pass>) {
    && u'.iterations == u.iterations + |ran|
    && u'.toolCalls <= u.toolCalls + CallsIn(ran)
    && u'.costUsd <= u.costUsd + CostIn(ran)
  }

  /** Why pass `p` ended the loop over budget: a cap was exceeded at its gate, so that it ran
      nothing, or it ran a task and had a call left that the caps refused. */
  ghost predicate Exhausted(c: Caps, startedAt: real, u: Usage, u': Usage, ran: seq<Pass>, p: Pass) {
    || (ran == [] && u' == u && !WithinCaps(c, startedAt, u', p.checkedAt))
    || (ran == [p] && StopsAtCall(c, startedAt, u', p) && u'.toolCalls < u.toolCalls + |Proposed(p)|)
  }

  lemma {:induction false} SumsAppend(ran: seq<Pass>, p: Pass)
    ensures CallsIn(ran + [p]) == CallsIn(ran) + |Proposed(p)|
    ensures CostIn(ran + [p]) == CostIn(ran) + CostOf(p.llm)
  {
    assert Front(ran + [p]) == ran;
  }

  lemma NothingBilled(u: Usage)
    ensures Billed(u, u, [])
  {
  }

  lemma PassIsBilled(c: Caps, startedAt: real, u: Usage, p: Pass, o: CallsOutcome, count: nat, u': Usage)
    requires Executes(c, startedAt, u.(iterations := u.iterations + 1), p, o, count, u')
    ensures Billed(u, u', [p])
    ensures count < |Proposed(p)| && StopsAtCall(c, startedAt, u', p) ==> Exhausted(c, startedAt, u, u', [p], p)
  {
    ExecutingIsAccounted(c, startedAt, u.(iterations := u.iterations + 1), p, o, count, u', Log([], []), "");
    SumsAppend([], p);
    assert [] + [p] == [p];
  }

  /* ---------- Whose requests they are ---------- */

  // The pass asked for its first calls and dispatched those that could be, in its own iteration.
  ghost predicate PassLogged(r: Log, r': Log, p: Pass, iteration: int) {
    exists id, count: nat :: count <= |Proposed(p)| && r' == Logged(r, Request(id, iteration), count, DispatchedIn(p, count))
  }

  // Nothing is in the longer log but what these passes have put there, one iteration each.
  ghost predicate LoggedBy(r: Log, r': Log, ran: seq<Pass>, iterations: int)
    decreases |ran|
  {
    if ran == [] then r' == r
    else exists m :: LoggedBy(r, m, Front(ran), iterations) && PassLogged(m, r', Last(ran), iterations + |ran|)
  }

  lemma NothingLoggedBy(r: Log, iterations: int)
    ensures LoggedBy(r, r, [], iterations)
  {
  }

  lemma LoggedByOneMore(r: Log, m: Log, r': Log, ran: seq<Pass>, p: Pass, iterations: int)
    requires LoggedBy(r, m, ran, iterations) && PassLogged(m, r', p, iterations + |ran| + 1)
    ensures LoggedBy(r, r', ran + [p], iterations)
  {
    hide PassLogged;
    assert Front(ran + [p]) == ran && Last(ran + [p]) == p;
  }

  lemma ExecutingIsLogged(c: Caps, startedAt: real, u: Usage, p: Pass, o: CallsOutcome, count: nat, u': Usage, r: Log, id: string)
    requires Executes(c, startedAt, u, p, o, count, u')
    ensures PassLogged(r, Logged(r, Request(id, u.iterations), count, DispatchedIn(p, count)), p, u.iterations)
  {
    ExecutingIsAccounted(c, startedAt, u, p, o, count, u', r, id);
  }

  // The first `n` passes of a script.
  function First(script: nat -> Pass, n: nat): (ps: seq<Pass>)
    ensures |ps| == n && forall i :: 0 <= i < n ==> ps[i] == script(i)
  {
    if n == 0 then [] else First(script, n - 1) + [script(n - 1)]
  }

  /** A loop that has started `starts` tasks, in the script's first passes, and then skipped `skipped`
      has left over budget: a gate refused one of the passes after those, one pass per skip at most,
      or the last pass that started a task had a call refused. */
  ghost predicate OverBudgetAt(c: Caps, startedAt: real, u: Usage, u': Usage, script: nat -> Pass, starts: nat, skipped: nat) {
    || (exists k: nat :: starts <= k <= starts + skipped && !WithinCaps(c, startedAt, u', script(k).checkedAt))
    || (starts > 0 && StopsAtCall(c, startedAt, u', script(starts - 1))
        && u'.toolCalls < u.toolCalls + CallsIn(First(script, starts)))
  }

  lemma LoggedOn(r: Log, m: Log, r': Log, script: nat -> Pass, n: nat, more: seq<Pass>, iterations: int)
    requires LoggedBy(r, m, First(script, n), iterations)
    requires (more == [] && r' == m) || (more == [script(n)] && PassLogged(m, r', script(n), iterations + n + 1))
    ensures LoggedBy(r, r', First(script, n + |more|), iterations)
  {
    if more == [] {
    } else {
      LoggedByOneMore(r, m, r', First(script, n), script(n), iterations);
    }
  }

  lemma BilledOn(u: Usage, u': Usage, u'': Usage, script: nat -> Pass, n: nat, more: seq<Pass>)
    requires Billed(u, u', First(script, n)) && Billed(u', u'', more) && (more == [] || more == [script(n)])
    ensures Billed(u, u'', First(script, n + |more|))
  {
    if more == [] {
    } else {
      SumsAppend(First(script, n), script(n));
      SumsAppend([], script(n));
      assert [] + [script(n)] == more;
    }
  }

  lemma ExhaustedOn(c: Caps, startedAt: real, u: Usage, u': Usage, u'': Usage, script: nat -> Pass, n: nat, k: nat,
                    skipped: nat, more: seq<Pass>)
    requires Billed(u, u', First(script, n)) && Exhausted(c, startedAt, u', u'', more, script(k))
    requires n <= k <= n + skipped && (more != [] ==> k == n)
    ensures OverBudgetAt(c, startedAt, u, u'', script, n + |more|, skipped)
  {
    hide CallsIn, CostIn, Proposed, StopsAtCall, WithinCaps;
    if more == [] {
    } else {
      SumsAppend(First(script, n), script(n));
    }
  }

  /* ---------- When the caps are enough ---------- */

  predicate InTime(c: Caps, startedAt: real, p: Pass) {
    && p.checkedAt - startedAt <= c.timeoutSeconds
    && forall i :: 0 <= i < |Proposed(p)| ==> Proposed(p)[i].askedAt - startedAt <= c.timeoutSeconds
  }

  function CallsFor(runs: nat, calls: nat): nat {
    runs * calls
  }

  function CostFor(runs: nat, cost: real): real {
    runs as real * cost
  }

  // The caps have room for `runs` passes of at most `calls` tool calls and `cost` each.
  ghost predicate Covers(c: Caps, startedAt: real, u: Usage, script: nat -> Pass, runs: nat, calls: nat, cost: real) {
    && (forall k: nat :: InTime(c, startedAt, script(k)) && |Proposed(script(k))| <= calls && CostOf(script(k).llm) <= cost)
    && cost >= 0.0
    && u.iterations + runs <= c.maxIterations && u.llmCalls <= c.maxLlmCalls
    && u.toolCalls + CallsFor(runs, calls) <= c.maxToolCalls
    && u.costUsd + CostFor(runs, cost) <= c.costCapUsd
  }

  ghost predicate CapsSuffice(c: Caps, startedAt: real, u: Usage, script: nat -> Pass, runs: nat) {
    exists calls: nat, cost: real :: Covers(c, startedAt, u, script, runs, calls, cost)
  }

  ghost predicate NobodyWaits(script: nat -> Pass) {
    forall k: nat :: !MayWait(script(k))
  }

  lemma ForMoreRuns(m: nat, n: nat, calls: nat, cost: real)
    requires m <= n && cost >= 0.0
    ensures CallsFor(m, calls) <= CallsFor(n, calls) && CostFor(m, cost) <= CostFor(n, cost)
  {
    assert (n - m) as real * cost >= 0.0 && (n - m) * calls >= 0;
  }

  lemma CapsSufficeForFewer(c: Caps, startedAt: real, u: Usage, script: nat -> Pass, fewer: nat, runs: nat)
    requires CapsSuffice(c, startedAt, u, script, runs) && fewer <= runs
    ensures CapsSuffice(c, startedAt, u, script, fewer)
  {
    hide Proposed, CostOf, CallsFor, CostFor, InTime;
    var calls: nat, cost: real :| Covers(c, startedAt, u, script, runs, calls, cost);
    ForMoreRuns(fewer, runs, calls, cost);
    assert Covers(c, startedAt, u, script, fewer, calls, cost);
  }

  lemma ForOneMoreRun(n: nat, calls: nat, cost: real)
    ensures CallsFor(n + 1, calls) == CallsFor(n, calls) + calls && CallsFor(0, calls) == 0
    ensures CostFor(n + 1, cost) == CostFor(n, cost) + cost && CostFor(0, cost) == 0.0
  {
  }

  lemma {:induction false} SumsAreBounded(ran: seq<Pass>, calls: nat, cost: real)
    requires forall i :: 0 <= i < |ran| ==> |Proposed(ran[i])| <= calls && CostOf(ran[i].llm) <= cost
    ensures CallsIn(ran) <= CallsFor(|ran|, calls) && CostIn(ran) <= CostFor(|ran|, cost)
    decreases |ran|
  {
    hide Proposed, CostOf, CallsFor, CostFor;
    if ran == [] {
      ForOneMoreRun(0, calls, cost);
    } else {
      SumsAreBounded(Front(ran), calls, cost);
      ForOneMoreRun(|ran| - 1, calls, cost);
    }
  }

  /** Caps with room for as many passes as can run are never what ends the loop. */
  lemma SufficientCapsAreNotExhausted(c: Caps, startedAt: real, u: Usage, u': Usage, script: nat -> Pass, runs: nat,
                                      starts: nat, skipped: nat)
    requires CapsSuffice(c, startedAt, u, script, runs) && starts <= runs
    requires Billed(u, u', First(script, starts)) && (u'.llmCalls == u.llmCalls || u'.llmCalls <= c.maxLlmCalls)
    ensures !OverBudgetAt(c, startedAt, u, u', script, starts, skipped)
  {
    hide Proposed, CostOf, CallsFor, CostFor, CallsIn, CostIn, First;
    var calls: nat, cost: real :| Covers(c, startedAt, u, script, runs, calls, cost);
    SumsAreBounded(First(script, starts), calls, cost);
    ForMoreRuns(starts, runs, calls, cost);
    forall k: nat ensures WithinCaps(c, startedAt, u', script(k).checkedAt) {
      assert InTime(c, startedAt, script(k));
    }
    if starts > 0 {
      assert InTime(c, startedAt, script(starts - 1));
    }
  }
}
