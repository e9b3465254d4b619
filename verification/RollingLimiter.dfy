/** The per-actor rolling-window limiter inside providers. */
module RollingLimiter {
  import opened Helpers
  import opened Wrappers

  // One queue of grant times per actor, oldest first.
  type Buckets = map<string, seq<real>>

  datatype Call =
    | Allow(actor: Option<string>, count: int, at: real)
    | Remaining(actor: Option<string>, at: real)
  {
    // Calls that name nobody share one bucket.
    function Key(): string {
      if actor.None? || actor.value == "" then "<anonymous>" else actor.value
    }
  }

  datatype Answer = Granted(ok: bool) | Slots(free: int)

  datatype Limits = Limits(limit: int, window: real) {
    predicate Valid() {
      limit >= 1 && window > 0.0
    }
  }

  function Bucket(bs: Buckets, key: string): seq<real> {
    if key in bs then bs[key] else []
  }

  // Drop expired times from the front only.
  function Prune(ts: seq<real>, cutoff: real): seq<real> {
    if ts != [] && ts[0] <= cutoff then Prune(ts[1..], cutoff) else ts
  }

  function Step(lim: Limits, bs: Buckets, c: Call): (Buckets, Answer) {
    var kept := Prune(Bucket(bs, c.Key()), c.at - lim.window);
    match c
    case Remaining(_, _) => (bs[c.Key() := kept], Slots(Max(0, lim.limit - |kept|)))
    case Allow(_, count, at) =>
      if count < 1 then (bs, Granted(false))
      else if |kept| + count > lim.limit then (bs[c.Key() := kept], Granted(false))
      else (bs[c.Key() := kept + Repeat(at, count)], Granted(true))
  }

  function Run(lim: Limits, cs: seq<Call>): (s: (Buckets, seq<Answer>))
    ensures |s.1| == |cs|
  {
    if cs == [] then (map[], [])
    else
      var before := Run(lim, cs[..|cs| - 1]);
      var (bs, a) := Step(lim, before.0, cs[|cs| - 1]);
      (bs, before.1 + [a])
  }

  ghost predicate Ordered(cs: seq<Call>) {
    forall i, j :: 0 <= i < j < |cs| ==> cs[i].at <= cs[j].at
  }

  // The grants a call adds to its own bucket.
  function Added(c: Call, a: Answer): seq<real> {
    if a == Granted(true) && c.Allow? && c.count > 0 then Repeat(c.at, c.count) else []
  }

  // Every slot ever granted to `key`: nothing is pruned here.
  function Grants(cs: seq<Call>, answers: seq<Answer>, key: string): seq<real>
    requires |cs| == |answers|
  {
    if cs == [] then []
    else
      var n := |cs| - 1;
      var past := Grants(cs[..n], answers[..n], key);
      past + if cs[n].Key() == key then Added(cs[n], answers[n]) else []
  }

  // How many of the times are after `after` and no later than `upTo`.
  function Within(ts: seq<real>, after: real, upTo: real): (n: nat)
    ensures n <= |ts|
  {
    if ts == [] then 0
    else Within(ts[..|ts| - 1], after, upTo) + if after < ts[|ts| - 1] <= upTo then 1 else 0
  }

  /** Those times are counted, each once, that are after `after` and no later than `upTo`. */
  lemma {:induction false} WithinCounts(ts: seq<real>, after: real, upTo: real)
    ensures Within(ts, after, upTo) == |set i: nat | i < |ts| && after < ts[i] <= upTo|
  {
    var them := set i: nat | i < |ts| && after < ts[i] <= upTo;
    if ts == [] {
      assert them == {};
    } else {
      var n, fewer := |ts| - 1, ts[..|ts| - 1];
      WithinCounts(fewer, after, upTo);
      var before := set i: nat | i < |fewer| && after < fewer[i] <= upTo;
      assert them == before + if after < ts[n] <= upTo then {n} else {};
      assert n !in before;
    }
  }

  /** Named actors have a bucket each; all calls that name nobody share one. */
  lemma BucketsAreOwn(a: Call, b: Call)
    ensures a.actor in {None, Some("")} ==> a.Key() == "<anonymous>"
    ensures a.actor !in {None, Some("")} && b.actor !in {None, Some("")} ==> (a.Key() == b.Key() <==> a.actor == b.actor)
  {
  }

  // What a limiter that remembers every grant would answer.
  function Reference(lim: Limits, granted: seq<real>, c: Call): Answer {
    var used := Within(granted, c.at - lim.window, c.at);
    match c
    case Allow(_, count, _) => Granted(1 <= count && used + count <= lim.limit)
    case Remaining(_, _) => Slots(lim.limit - used)
  }

  /** Whatever the queues hold, `count` slots are granted exactly when that many are free. */
  lemma AllowedExactlyWhenRemaining(lim: Limits, bs: Buckets, actor: Option<string>, count: int, at: real)
    requires lim.Valid()
    ensures Step(lim, bs, Allow(actor, count, at)).1
            == Granted(1 <= count <= Step(lim, bs, Remaining(actor, at)).1.free)
  {
    assert Allow(actor, count, at).Key() == Remaining(actor, at).Key();
  }

  lemma {:induction false} WithinAppend(ts: seq<real>, t: real, n: nat, after: real, upTo: real)
    ensures Within(ts + Repeat(t, n), after, upTo) == Within(ts, after, upTo) + if after < t <= upTo then n else 0
  {
    if n == 0 {
      assert ts + Repeat(t, 0) == ts;
    } else {
      WithinAppend(ts, t, n - 1, after, upTo);
      assert (ts + Repeat(t, n))[..|ts| + n - 1] == ts + Repeat(t, n - 1);
    }
  }

  lemma {:induction false} WithinConcat(gone: seq<real>, ts: seq<real>, after: real, upTo: real)
    ensures Within(gone + ts, after, upTo) == Within(gone, after, upTo) + Within(ts, after, upTo)
  {
    if ts == [] {
      assert gone + ts == gone;
    } else {
      WithinConcat(gone, ts[..|ts| - 1], after, upTo);
      assert (gone + ts)[..|gone + ts| - 1] == gone + ts[..|ts| - 1];
    }
  }

  // Later lower ends, and times that are all past the upper end, change nothing upwards.
  lemma {:induction false} WithinShrinks(ts: seq<real>, after: real, after': real, upTo: real, upTo': real)
    requires after <= after' && (upTo' <= upTo || forall i :: 0 <= i < |ts| ==> ts[i] <= upTo)
    ensures Within(ts, after', upTo') <= Within(ts, after, upTo)
  {
    if ts == [] {
    } else {
      WithinShrinks(ts[..|ts| - 1], after, after', upTo, upTo');
    }
  }

  lemma {:induction false} NoneWithin(ts: seq<real>, after: real, upTo: real)
    requires forall i :: 0 <= i < |ts| ==> ts[i] <= after
    ensures Within(ts, after, upTo) == 0
  {
    if ts == [] {
    } else {
      NoneWithin(ts[..|ts| - 1], after, upTo);
    }
  }

  lemma {:induction false} AllWithin(ts: seq<real>, after: real, upTo: real)
    requires forall i :: 0 <= i < |ts| ==> after < ts[i] <= upTo
    ensures Within(ts, after, upTo) == |ts|
  {
    if ts == [] {
    } else {
      AllWithin(ts[..|ts| - 1], after, upTo);
    }
  }

  ghost predicate Sorted(ts: seq<real>) {
    forall i, j :: 0 <= i <= j < |ts| ==> ts[i] <= ts[j]
  }

  /** `ts` is what is left of `all` after dropping times that had expired by `now`. */
  ghost predicate Tail(all: seq<real>, ts: seq<real>, now: real, span: real) {
    && |ts| <= |all| && ts == all[|all| - |ts|..] && Sorted(all)
    && (forall i :: 0 <= i < |all| ==> all[i] <= now)
    && (forall i :: 0 <= i < |all| - |ts| ==> all[i] <= now - span)
  }

  // Once nothing at the front has expired, nothing in the queue has.
  lemma FrontIsOldest(all: seq<real>, ts: seq<real>, now: real, span: real, i: nat)
    requires Tail(all, ts, now, span) && ts != [] && ts[0] > now - span && i < |ts|
    ensures now - span < ts[i] <= now
  {
    var n := |all| - |ts|;
    assert all[n] <= all[n + i];
  }

  lemma TailCounts(all: seq<real>, ts: seq<real>, now: real, span: real)
    requires Tail(all, ts, now, span) && (ts != [] ==> ts[0] > now - span)
    ensures |ts| == Within(all, now - span, now)
  {
    hide Within, Sorted;
    var n := |all| - |ts|;
    assert all == all[..n] + ts;
    forall i | 0 <= i < |ts| ensures now - span < ts[i] <= now {
      FrontIsOldest(all, ts, now, span, i);
    }
    WithinConcat(all[..n], ts, now - span, now);
    NoneWithin(all[..n], now - span, now);
    AllWithin(ts, now - span, now);
  }

  lemma {:induction false} PruneKeepsTail(all: seq<real>, ts: seq<real>, now: real, span: real)
    requires Tail(all, ts, now, span)
    ensures Tail(all, Prune(ts, now - span), now, span)
    ensures |Prune(ts, now - span)| == Within(all, now - span, now)
  {
    hide Within;
    if ts != [] && ts[0] <= now - span {
      assert Tail(all, ts[1..], now, span) by {
        assert ts[1..] == all[|all| - |ts[1..]|..];
      }
      hide Tail;
      PruneKeepsTail(all, ts[1..], now, span);
    } else {
      hide Tail;
      TailCounts(all, ts, now, span);
    }
  }

  lemma AppendKeepsTail(all: seq<real>, ts: seq<real>, now: real, span: real, n: nat)
    requires Tail(all, ts, now, span)
    ensures Tail(all + Repeat(now, n), ts + Repeat(now, n), now, span)
  {
    var all', ts' := all + Repeat(now, n), ts + Repeat(now, n);
    assert all'[|all'| - |ts'|..] == ts';
  }

  // At most `limit` of the times fall into any stretch of one window's length.
  ghost predicate Sparse(ts: seq<real>, limit: int, span: real) {
    forall t :: Recent(ts, t, span) <= limit
  }

  function Recent(ts: seq<real>, t: real, span: real): nat {
    Within(ts, t - span, t)
  }

  lemma AppendKeepsSparse(ts: seq<real>, limit: int, span: real, now: real, n: nat)
    requires Sparse(ts, limit, span) && span > 0.0
    requires forall i :: 0 <= i < |ts| ==> ts[i] <= now
    requires Recent(ts, now, span) + n <= limit
    ensures Sparse(ts + Repeat(now, n), limit, span)
  {
    forall t ensures Recent(ts + Repeat(now, n), t, span) <= limit {
      WithinAppend(ts, now, n, t - span, t);
      assert Recent(ts, t, span) <= limit;
      if t - span < now <= t {
        WithinShrinks(ts, now - span, t - span, now, t);
      }
    }
  }

  ghost predicate Tracked(lim: Limits, cs: seq<Call>, key: string, now: real) {
    var (bs, answers) := Run(lim, cs);
    && Tail(Grants(cs, answers, key), Bucket(bs, key), now, lim.window)
    && Sparse(Grants(cs, answers, key), lim.limit, lim.window)
  }

  lemma RunAppend(lim: Limits, cs: seq<Call>, c: Call, key: string)
    ensures var before, after := Run(lim, cs), Run(lim, cs + [c]);
            var (bs, a) := Step(lim, before.0, c);
            && after == (bs, before.1 + [a])
            && Grants(cs + [c], after.1, key)
               == Grants(cs, before.1, key)
                  + if c.Key() == key then Added(c, a) else []
  {
    hide Step;
    assert (cs + [c])[..|cs|] == cs;
    assert Run(lim, cs + [c]).1[..|cs|] == Run(lim, cs).1;
  }

  lemma StepKeepsTail(lim: Limits, bs: Buckets, c: Call, all: seq<real>)
    requires lim.Valid() && Sparse(all, lim.limit, lim.window)
    requires Tail(all, Bucket(bs, c.Key()), c.at, lim.window)
    ensures var (bs', a) := Step(lim, bs, c);
            && a == Reference(lim, all, c)
            && Tail(all + Added(c, a), Bucket(bs', c.Key()), c.at, lim.window)
            && Sparse(all + Added(c, a), lim.limit, lim.window)
  {
    hide Within, Prune, Sorted;
    var bucket := Bucket(bs, c.Key());
    var kept := Prune(bucket, c.at - lim.window);
    PruneKeepsTail(all, bucket, c.at, lim.window);
    assert Recent(all, c.at, lim.window) <= lim.limit;
    assert forall i :: 0 <= i < |all| ==> all[i] <= c.at;
    assert all + [] == all;
    if c.Allow? && c.count > 0 {
      AppendKeepsTail(all, kept, c.at, lim.window, c.count);
      if |kept| + c.count <= lim.limit {
        AppendKeepsSparse(all, lim.limit, lim.window, c.at, c.count);
      }
    }
    hide Tail, Sparse;
  }

  lemma StepKeepsTracked(lim: Limits, cs: seq<Call>, c: Call, key: string)
    requires lim.Valid() && Tracked(lim, cs, key, c.at)
    ensures Tracked(lim, cs + [c], key, c.at)
    ensures c.Key() == key ==> Step(lim, Run(lim, cs).0, c).1 == Reference(lim, Grants(cs, Run(lim, cs).1, key), c)
  {
    hide Run, Grants, Tail, Sparse, Reference;
    RunAppend(lim, cs, c, key);
    var bs, all := Run(lim, cs).0, Grants(cs, Run(lim, cs).1, key);
    assert all + [] == all;
    if c.Key() == key {
      StepKeepsTail(lim, bs, c, all);
      hide Step;
    } else {
      ActorsAreIndependent(lim, bs, c, key);
      hide Step;
    }
  }

  lemma TrackedLater(lim: Limits, cs: seq<Call>, key: string, now: real, later: real)
    ensures Tracked(lim, cs, key, now) && now <= later ==> Tracked(lim, cs, key, later)
  {
    hide Run, Grants, Sparse;
  }

  lemma NothingTracked(lim: Limits, key: string, now: real)
    requires lim.Valid()
    ensures Tracked(lim, [], key, now)
  {
    assert forall t :: Recent([], t, lim.window) == 0;
  }

  lemma {:induction false} OrderedIsTracked(lim: Limits, cs: seq<Call>, key: string, now: real)
    requires lim.Valid() && Ordered(cs) && (cs != [] ==> cs[|cs| - 1].at <= now)
    ensures Tracked(lim, cs, key, now)
  {
    hide Tracked, Step, Run, Grants, Reference;
    if cs == [] {
      NothingTracked(lim, key, now);
    } else {
      var n := |cs| - 1;
      OrderedIsTracked(lim, cs[..n], key, cs[n].at);
      StepKeepsTracked(lim, cs[..n], cs[n], key);
      assert cs[..n] + [cs[n]] == cs;
      TrackedLater(lim, cs, key, cs[n].at, now);
    }
  }

  /** Under a clock that never goes back, the pruned queues answer every call as counting over
      the full history of grants would. */
  lemma {:induction false} AnswersCountTheHistory(lim: Limits, cs: seq<Call>, i: nat)
    requires lim.Valid() && Ordered(cs) && i < |cs|
    ensures Run(lim, cs).1[i] == Reference(lim, Grants(cs[..i], Run(lim, cs[..i]).1, cs[i].Key()), cs[i])
  {
    hide Step;
    var n := |cs| - 1;
    if i == n {
      OrderedIsTracked(lim, cs[..n], cs[n].Key(), cs[n].at);
      StepKeepsTracked(lim, cs[..n], cs[n], cs[n].Key());
    } else {
      AnswersCountTheHistory(lim, cs[..n], i);
      assert cs[..n][..i] == cs[..i];
    }
  }

  /** No actor is ever granted more than `limit` slots within one window's length. */
  lemma GrantsAreBounded(lim: Limits, cs: seq<Call>, key: string, t: real)
    requires lim.Valid() && Ordered(cs)
    ensures Within(Grants(cs, Run(lim, cs).1, key), t - lim.window, t) <= lim.limit
  {
    OrderedIsTracked(lim, cs, key, if cs == [] then 0.0 else cs[|cs| - 1].at);
    assert Recent(Grants(cs, Run(lim, cs).1, key), t, lim.window) <= lim.limit;
  }

  /** A call leaves every other actor's queue alone. */
  lemma ActorsAreIndependent(lim: Limits, bs: Buckets, c: Call, key: string)
    requires c.Key() != key
    ensures Bucket(Step(lim, bs, c).0, key) == Bucket(bs, key)
  {
  }

  class ActorRateLimiter {
    const limits: Limits
    var timestamps: Buckets
    ghost var calls: seq<Call>

    ghost predicate Valid()
      reads this
    {
      limits.Valid() && timestamps == Run(limits, calls).0
    }

    // Limits below one slot or a millisecond are raised to those.
    constructor (limit: int, windowSeconds: real)
      ensures Valid() && calls == []
      ensures limits == Limits(Max(1, limit), if windowSeconds < 0.001 then 0.001 else windowSeconds)
    {
      limits := Limits(Max(1, limit), if windowSeconds < 0.001 then 0.001 else windowSeconds);
      timestamps, calls := map[], [];
    }

    // Look up an actor's queue, creating it if need be, and drop what has expired.
    method Expire(key: string, cutoff: real) returns (bucket: seq<real>)
      modifies `timestamps
      ensures bucket == Prune(Bucket(old(timestamps), key), cutoff)
      ensures timestamps == old(timestamps)[key := bucket]
    {
      bucket := if key in timestamps then timestamps[key] else [];
      while |bucket| > 0 && bucket[0] <= cutoff
        invariant Prune(bucket, cutoff) == Prune(Bucket(old(timestamps), key), cutoff)
      {
        bucket := bucket[1..];
      }
      timestamps := timestamps[key := bucket];
    }

    method AllowMany(actor: Option<string>, count: int, now: real) returns (ok: bool)
      requires Valid()
      modifies this
      ensures Valid() && calls == old(calls) + [Allow(actor, count, now)]
      ensures Granted(ok) == Run(limits, calls).1[|calls| - 1]
      ensures Granted(ok) == Step(limits, old(timestamps), Allow(actor, count, now)).1
    {
      hide Run, Grants, Added, Prune;
      ghost var c := Allow(actor, count, now);
      RunAppend(limits, calls, c, c.Key());
      calls := calls + [c];
      if count < 1 {
        return false;
      }
      var key := if actor.None? || actor.value == "" then "<anonymous>" else actor.value;
      var bucket := Expire(key, now - limits.window);
      ok := |bucket| + count <= limits.limit;
      if ok {
        timestamps := timestamps[key := bucket + Repeat(now, count)];
      }
    }

    method AllowOne(actor: Option<string>, now: real) returns (ok: bool)
      requires Valid()
      modifies this
      ensures Valid() && calls == old(calls) + [Allow(actor, 1, now)]
      ensures Granted(ok) == Run(limits, calls).1[|calls| - 1]
    {
      ok := AllowMany(actor, 1, now);
    }

    method FreeSlots(actor: Option<string>, now: real) returns (free: int)
      requires Valid()
      modifies this
      ensures Valid() && calls == old(calls) + [Remaining(actor, now)]
      ensures Slots(free) == Run(limits, calls).1[|calls| - 1]
    {
      hide Run, Grants, Added, Prune;
      ghost var c := Remaining(actor, now);
      RunAppend(limits, calls, c, c.Key());
      var key := if actor.None? || actor.value == "" then "<anonymous>" else actor.value;
      var bucket := Expire(key, now - limits.window);
      calls := calls + [c];
      free := Max(0, limits.limit - |bucket|);
    }
  }
}
