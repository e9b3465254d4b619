/** The bounded, deadline-aware retry loop around a provider call. */
module Retries {
  import opened Wrappers
  import opened ProviderErrors

  function Least(a: real, b: real): real {
    if a < b then a else b
  }

  const MAX_ATTEMPTS_BOUND := 10

  datatype ToolError = ToolError(message: string, code: Code)

  datatype Outcome<T> = Returned(value: T) | Raised(error: ToolError)

  /** How the loop ends: with an outcome of the call, or by giving up on the deadline. */
  datatype Verdict<T> = Final(outcome: Outcome<T>) | BudgetExhausted

  function Power(x: real, n: nat): real {
    if n == 0 then 1.0 else x * Power(x, n - 1)
  }

  datatype Policy = Policy(maxAttempts: int, baseBackoff: real, maxBackoff: real, factor: real, retryable: set<Code>) {
    predicate Valid() {
      && 1 <= maxAttempts <= MAX_ATTEMPTS_BOUND
      && baseBackoff >= 0.0 && maxBackoff >= 0.0 && factor >= 1.0
    }

    // A string outside the taxonomy is None.
    predicate IsRetryable(code: Option<Code>) {
      code.Some? && code.value !in NEVER_RETRY_CODES && code.value in retryable
    }

    function BackoffFor(attempt: int): real {
      var delay := baseBackoff * Power(factor, (if attempt < 1 then 1 else attempt) - 1);
      if delay < maxBackoff then delay else maxBackoff
    }

    // An outcome the loop passes on at once.
    predicate Decisive<T>(o: Outcome<T>) {
      o.Returned? || !IsRetryable(Some(o.error.code))
    }
  }

  /** No configuration can make anything but these two codes retryable. */
  lemma OnlyTransientCodesAreRetried(p: Policy, code: Option<Code>)
    ensures p.IsRetryable(code) <==> code in {Some(UNAVAILABLE), Some(PROVIDER_ERROR)} && code.value in p.retryable
  {
    if code.Some? {
      match code.value
      case UNAVAILABLE =>
      case PROVIDER_ERROR =>
      case _ =>
    }
  }

  lemma {:induction false} PowerGrows(x: real, n: nat)
    requires x >= 1.0
    ensures 1.0 <= Power(x, n) <= Power(x, n + 1)
  {
    if n == 0 {
    } else {
      PowerGrows(x, n - 1);
      MultiplyKeepsOrder(x, Power(x, n - 1), Power(x, n));
    }
  }

  lemma MultiplyKeepsOrder(c: real, a: real, b: real)
    requires c >= 0.0 && a <= b
    ensures c * a <= c * b
  {
    assert c * (b - a) >= 0.0;
  }

  lemma BackoffGrows(p: Policy, attempt: int)
    requires p.Valid()
    ensures 0.0 <= p.BackoffFor(attempt) <= p.BackoffFor(attempt + 1) <= p.maxBackoff
  {
    hide Power;
    var n := (if attempt < 1 then 1 else attempt) - 1;
    PowerGrows(p.factor, n);
    MultiplyKeepsOrder(p.baseBackoff, 0.0, Power(p.factor, n));
    MultiplyKeepsOrder(p.baseBackoff, Power(p.factor, n), Power(p.factor, n + 1));
  }

  /** Backoffs never shrink and never exceed the cap. */
  lemma {:induction false} BackoffIsMonotone(p: Policy, i: int, j: int)
    requires p.Valid() && i <= j
    ensures 0.0 <= p.BackoffFor(i) <= p.BackoffFor(j) <= p.maxBackoff
    decreases j - i
  {
    hide *;
    if i == j {
      BackoffGrows(p, i);
    } else {
      BackoffIsMonotone(p, i, j - 1);
      BackoffGrows(p, j - 1);
    }
  }

  /** The first backoff is the base, each further one `factor` times the one before, all up to the cap. */
  lemma BackoffMultiplies(p: Policy, attempt: int)
    requires p.Valid()
    ensures attempt <= 1 ==> p.BackoffFor(attempt) == Least(p.baseBackoff, p.maxBackoff)
    ensures attempt >= 1 ==> p.BackoffFor(attempt + 1) == Least(p.factor * p.BackoffFor(attempt), p.maxBackoff)
  {
    if attempt <= 1 {
      assert Power(p.factor, 0) == 1.0;
    }
    if attempt >= 1 {
      var raw := p.baseBackoff * Power(p.factor, attempt - 1);
      assert Power(p.factor, attempt) == p.factor * Power(p.factor, attempt - 1);
      assert p.baseBackoff * Power(p.factor, attempt) == p.factor * raw;
      MultiplyKeepsOrder(p.factor, p.maxBackoff, if raw < p.maxBackoff then p.maxBackoff else raw);
      MultiplyKeepsOrder(p.maxBackoff, 1.0, p.factor);
    }
  }

  /** What the loop would end with if it had all the time in the world: the first decisive
      outcome, or the last one allowed. */
  function Patient<T>(p: Policy, outcomes: nat -> Outcome<T>, from: nat, left: int): Outcome<T>
    decreases left
  {
    if p.Decisive(outcomes(from)) || left <= 1 then outcomes(from)
    else Patient(p, outcomes, from + 1, left - 1)
  }

  function Sum(ds: seq<real>): real {
    if ds == [] then 0.0 else Sum(ds[..|ds| - 1]) + ds[|ds| - 1]
  }

  lemma SumAppend(ds: seq<real>, d: real)
    ensures Sum(ds + [d]) == Sum(ds) + d
  {
    assert (ds + [d])[..|ds|] == ds;
  }

  lemma {:induction false} PatientSkips<T>(p: Policy, outcomes: nat -> Outcome<T>, from: nat, left: int, n: nat)
    requires n < left
    requires forall k :: from <= k < from + n ==> !p.Decisive(outcomes(k))
    ensures Patient(p, outcomes, from, left) == Patient(p, outcomes, from + n, left - n)
    ensures p.Decisive(outcomes(from + n)) || left - n <= 1 ==> Patient(p, outcomes, from, left) == outcomes(from + n)
    decreases n
  {
    if n == 0 {
    } else {
      PatientSkips(p, outcomes, from + 1, left - 1, n - 1);
    }
  }

  /** The call, the clock and the sleep handed to the loop: arbitrary outcomes, and a clock that
      moves on by arbitrary amounts whenever it is looked at, called or slept on. */
  class World<T> {
    const outcomes: nat -> Outcome<T>
    const lags: nat -> real
    var calls: nat
    var ticks: nat
    var time: real

    constructor (outcomes: nat -> Outcome<T>, lags: nat -> real, time: real)
      ensures this.outcomes == outcomes && this.lags == lags && calls == 0 && this.time == time
    {
      this.outcomes, this.lags, this.time := outcomes, lags, time;
      calls, ticks := 0, 0;
    }

    method Elapse()
      modifies `time, `ticks
      ensures time >= old(time)
    {
      var lag := lags(ticks);
      time := if lag > 0.0 then time + lag else time;
      ticks := ticks + 1;
    }

    method Now() returns (now: real)
      modifies `time, `ticks
      ensures now == time >= old(time)
    {
      Elapse();
      now := time;
    }

    method Call() returns (o: Outcome<T>)
      modifies this
      ensures o == outcomes(old(calls)) && calls == old(calls) + 1 && time >= old(time)
    {
      o := outcomes(calls);
      calls := calls + 1;
      Elapse();
    }

    method Sleep(delay: real)
      modifies `time, `ticks
      ensures time >= old(time) + delay
    {
      time := time + delay;
      Elapse();
    }
  }

  /** What is true of the sleeps after `n` failed attempts, each followed by one. */
  ghost predicate Naps(p: Policy, sleeps: seq<real>, began: real, time: real) {
    && (forall k :: 0 <= k < |sleeps| ==> sleeps[k] == p.BackoffFor(k + 1))
    && began + Sum(sleeps) <= time
  }

  lemma NapsAppend(p: Policy, sleeps: seq<real>, began: real, time: real, later: real)
    requires Naps(p, sleeps, began, time) && later >= time + p.BackoffFor(|sleeps| + 1)
    ensures Naps(p, sleeps + [p.BackoffFor(|sleeps| + 1)], began, later)
  {
    SumAppend(sleeps, p.BackoffFor(|sleeps| + 1));
  }

  lemma NapsLater(p: Policy, sleeps: seq<real>, began: real, time: real, later: real)
    ensures Naps(p, sleeps, began, time) && later >= time ==> Naps(p, sleeps, began, later)
  {
  }

  /** Sleeps are nondecreasing and capped, and with a deadline they fit in the time left. */
  lemma NapsAreBounded(p: Policy, sleeps: seq<real>, i: nat, j: nat)
    requires p.Valid() && i <= j < |sleeps|
    requires forall k :: 0 <= k < |sleeps| ==> sleeps[k] == p.BackoffFor(k + 1)
    ensures 0.0 <= sleeps[i] <= sleeps[j] <= p.maxBackoff
  {
    BackoffIsMonotone(p, i + 1, j + 1);
  }

  /** Call with bounded retries. `starts` are the times at which calls were made, `sleeps` the
      backoffs taken. */
  method WithRetry<T>(w: World<T>, p: Policy, deadline: Option<real>)
    returns (v: Verdict<T>, ghost starts: seq<real>, ghost sleeps: seq<real>)
    requires p.Valid()
    modifies w
    ensures var n := w.calls - old(w.calls); 0 <= n <= p.maxAttempts && |starts| == n
    // Every call but the last failed retryably.
    ensures forall k :: old(w.calls) <= k < w.calls - 1 ==> !p.Decisive(w.outcomes(k))
    // The last outcome is passed on unchanged: a decisive one, or the last allowed.
    ensures v.Final? ==> && w.calls > old(w.calls) && v.outcome == w.outcomes(w.calls - 1)
                         && (p.Decisive(v.outcome) || w.calls - old(w.calls) == p.maxAttempts)
                         && v.outcome == Patient(p, w.outcomes, old(w.calls), p.maxAttempts)
    // Giving up needs a deadline, attempts to spare, and no time left for the next one.
    ensures v.BudgetExhausted? ==>
              && deadline.Some? && w.calls - old(w.calls) < p.maxAttempts
              && (w.calls > old(w.calls) ==> !p.Decisive(w.outcomes(w.calls - 1)))
              && (w.time >= deadline.value
                  || (w.calls > old(w.calls) && w.time + p.BackoffFor(w.calls - old(w.calls)) > deadline.value))
    // No call at or past the deadline.
    ensures deadline.Some? ==> forall k :: 0 <= k < |starts| ==> starts[k] < deadline.value
    ensures forall k :: 0 <= k < |sleeps| ==> sleeps[k] == p.BackoffFor(k + 1)
    ensures |sleeps| == |starts| || |sleeps| == |starts| - 1
    ensures old(w.time) + Sum(sleeps) <= w.time
    ensures deadline.Some? && sleeps != [] ==> old(w.time) + Sum(sleeps) <= deadline.value
  {
    hide Power, Patient, Policy.Decisive, Policy.BackoffFor, Policy.IsRetryable;
    starts, sleeps := [], [];
    ghost var base := w.calls;
    ghost var began := w.time;
    for attempt := 1 to p.maxAttempts + 1
      invariant attempt <= p.maxAttempts
      invariant w.calls == base + attempt - 1 && |starts| == |sleeps| == attempt - 1
      invariant forall k :: base <= k < w.calls ==> !p.Decisive(w.outcomes(k))
      invariant deadline.Some? ==> forall k :: 0 <= k < |starts| ==> starts[k] < deadline.value
      invariant Naps(p, sleeps, began, w.time)
      invariant deadline.Some? && sleeps != [] ==> began + Sum(sleeps) <= deadline.value
    {
      if deadline.Some? {
        var now := w.Now();
        if deadline.value - now <= 0.0 {
          return BudgetExhausted, starts, sleeps;
        }
      }
      starts := starts + [w.time];
      var o := w.Call();
      if p.Decisive(o) || attempt >= p.maxAttempts {
        PatientSkips(p, w.outcomes, base, p.maxAttempts, attempt - 1);
        return Final(o), starts, sleeps;
      }
      var delay := p.BackoffFor(attempt);
      if deadline.Some? {
        var now := w.Now();
        if deadline.value - now <= 0.0 || delay > deadline.value - now {
          return BudgetExhausted, starts, sleeps;
        }
      }
      NapsLater(p, sleeps, began, began + Sum(sleeps), w.time);
      ghost var before := w.time;
      w.Sleep(delay);
      NapsAppend(p, sleeps, began, before, w.time);
      SumAppend(sleeps, delay);
      sleeps := sleeps + [delay];
    }
    assert false;
  }
}
