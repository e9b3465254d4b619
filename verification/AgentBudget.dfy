/** Hard resource caps of one agent run. */
module Budgets {
  import opened Wrappers

  datatype Breach = TimedOut | TooManyIterations | TooManyToolCalls | TooManyLlmCalls | TooExpensive

  /** The counters a paused run carries over to its next segment. */
  datatype Usage = Usage(iterations: int, toolCalls: int, llmCalls: int, tokens: int, costUsd: real)

  datatype Caps = Caps(maxIterations: int, maxToolCalls: int, maxLlmCalls: int,
                       timeoutSeconds: real, costCapUsd: real)

  // No cap is exceeded at time `now`.
  predicate WithinCaps(c: Caps, startedAt: real, u: Usage, now: real) {
    && now - startedAt <= c.timeoutSeconds && u.iterations <= c.maxIterations
    && u.toolCalls <= c.maxToolCalls && u.llmCalls <= c.maxLlmCalls && u.costUsd <= c.costCapUsd
  }

  predicate MayCallTool(c: Caps, startedAt: real, u: Usage, now: real) {
    u.toolCalls < c.maxToolCalls && WithinCaps(c, startedAt, u, now)
  }

  predicate MayCallLlm(c: Caps, startedAt: real, u: Usage, now: real) {
    u.llmCalls < c.maxLlmCalls && WithinCaps(c, startedAt, u, now)
  }

  // One more model call; negative figures count as zero.
  function Charged(u: Usage, tokens: int, costUsd: real): Usage {
    u.(llmCalls := u.llmCalls + 1, tokens := u.tokens + if tokens < 0 then 0 else tokens,
       costUsd := u.costUsd + if costUsd < 0.0 then 0.0 else costUsd)
  }

  class AgentBudget {
    const caps: Caps
    const startedAt: real

    var iterations: int
    var toolCalls: int
    var llmCalls: int
    var tokensUsed: int
    var costUsedUsd: real

    constructor (caps: Caps, startedAt: real)
      ensures this.caps == caps && this.startedAt == startedAt
      ensures Snapshot() == Usage(0, 0, 0, 0, 0.0)
    {
      this.caps, this.startedAt := caps, startedAt;
      iterations, toolCalls, llmCalls, tokensUsed, costUsedUsd := 0, 0, 0, 0, 0.0;
    }

    // The first cap found exceeded, in the order the caps are checked.
    function Check(now: real): (breach: Option<Breach>)
      reads this
      ensures breach.None? <==> && now - startedAt <= caps.timeoutSeconds && iterations <= caps.maxIterations
                                && toolCalls <= caps.maxToolCalls && llmCalls <= caps.maxLlmCalls
                                && costUsedUsd <= caps.costCapUsd
      ensures breach.None? <==> WithinCaps(caps, startedAt, Snapshot(), now)
    {
      if now - startedAt > caps.timeoutSeconds then Some(TimedOut)
      else if iterations > caps.maxIterations then Some(TooManyIterations)
      else if toolCalls > caps.maxToolCalls then Some(TooManyToolCalls)
      else if llmCalls > caps.maxLlmCalls then Some(TooManyLlmCalls)
      else if costUsedUsd > caps.costCapUsd then Some(TooExpensive)
      else None
    }

    // One more call would still be within every cap.
    function CanToolCall(now: real): (breach: Option<Breach>)
      reads this
      ensures breach.None? <==> toolCalls < caps.maxToolCalls && Check(now).None?
      ensures breach.None? <==> MayCallTool(caps, startedAt, Snapshot(), now)
    {
      if toolCalls >= caps.maxToolCalls then Some(TooManyToolCalls) else Check(now)
    }

    function CanLlmCall(now: real): (breach: Option<Breach>)
      reads this
      ensures breach.None? <==> llmCalls < caps.maxLlmCalls && Check(now).None?
      ensures breach.None? <==> MayCallLlm(caps, startedAt, Snapshot(), now)
    {
      if llmCalls >= caps.maxLlmCalls then Some(TooManyLlmCalls) else Check(now)
    }

    method RecordToolCall()
      modifies `toolCalls
      ensures Snapshot() == old(Snapshot()).(toolCalls := old(toolCalls) + 1)
    {
      toolCalls := toolCalls + 1;
    }

    method RecordLlmCall(tokens: int, costUsd: real)
      modifies `llmCalls, `tokensUsed, `costUsedUsd
      ensures Snapshot() == Charged(old(Snapshot()), tokens, costUsd)
      ensures llmCalls == old(llmCalls) + 1
      ensures tokensUsed == old(tokensUsed) + if tokens > 0 then tokens else 0
      ensures costUsedUsd == old(costUsedUsd) + if costUsd > 0.0 then costUsd else 0.0
    {
      llmCalls := llmCalls + 1;
      tokensUsed := tokensUsed + if tokens > 0 then tokens else 0;
      costUsedUsd := costUsedUsd + if costUsd > 0.0 then costUsd else 0.0;
    }

    function Snapshot(): Usage
      reads this
    {
      Usage(iterations, toolCalls, llmCalls, tokensUsed, costUsedUsd)
    }

    /** Restoring a snapshot makes it the current usage. */
    method Restore(usage: Option<Usage>)
      modifies this
      ensures Snapshot() == if usage.Some? then usage.value else old(Snapshot())
    {
      if usage.Some? {
        iterations, toolCalls, llmCalls := usage.value.iterations, usage.value.toolCalls, usage.value.llmCalls;
        tokensUsed, costUsedUsd := usage.value.tokens, usage.value.costUsd;
      }
    }
  }
}
