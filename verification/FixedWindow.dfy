/** The API's fixed-window rate limiter: one bucket per source address, one per API key. */
module FixedWindow {
  import opened Helpers
  import opened Wrappers

  datatype Identity = Ip(address: string) | Key(fingerprint: string)

  datatype Window = Window(startedAt: real, count: nat)

  type Windows = map<Identity, Window>

  datatype Decision = Decision(allowed: bool, limit: int, remaining: int, retryAfter: int)

  datatype Request = Request(ip: string, apiKeyHash: Option<string>, at: real) {
    // An empty fingerprint counts as no key at all.
    predicate HasKey() {
      apiKeyHash.Some? && apiKeyHash.value != ""
    }

    predicate Uses(id: Identity) {
      id == Ip(ip) || (HasKey() && id == Key(apiKeyHash.value))
    }
  }

  datatype Limits = Limits(keyLimit: int, ipLimit: int, window: real) {
    predicate Valid() {
      keyLimit >= 1 && ipLimit >= 1 && window > 0.0
    }

    function Of(id: Identity): int {
      if id.Ip? then ipLimit else keyLimit
    }
  }

  function Ceil(x: real): (c: int)
    ensures c as real - 1.0 < x <= c as real
  {
    -((-x).Floor)
  }

  function Lesser(a: real, b: real): real {
    if a < b then a else b
  }

  // ---- one request ----

  function Live(ws: Windows, id: Identity, now: real, span: real): Option<Window> {
    if id in ws && now - ws[id].startedAt < span then Some(ws[id]) else None
  }

  // The window a request at `now` is counted in: the running one, or a new one.
  function Current(ws: Windows, id: Identity, now: real, span: real): Window {
    match Live(ws, id, now, span)
    case Some(w) => w
    case None => Window(now, 0)
  }

  function RetryAfter(w: Window, now: real, span: real): int {
    Max(1, Ceil(span - (now - w.startedAt)))
  }

  function Counted(w: Window): Window {
    w.(count := w.count + 1)
  }

  function Refusal(w: Window, limit: int, now: real, span: real): Decision {
    Decision(false, limit, 0, RetryAfter(w, now, span))
  }

  // A request counted in its address window alone.
  function AdmitIp(lim: Limits, ip: Window, now: real): Decision {
    Decision(true, lim.ipLimit, Max(0, lim.ipLimit - (ip.count + 1)), RetryAfter(ip, now, lim.window))
  }

  // A request counted in both windows: the tighter figure of the two is reported.
  function AdmitBoth(lim: Limits, ip: Window, key: Window, now: real): Decision {
    Decision(true, Min(lim.ipLimit, lim.keyLimit),
             Max(0, Min(lim.ipLimit - (ip.count + 1), lim.keyLimit - (key.count + 1))),
             Min(RetryAfter(ip, now, lim.window), RetryAfter(key, now, lim.window)))
  }

  /** One check. The address is looked at first; when it is used up, no key window is opened. */
  function Step(lim: Limits, ws: Windows, r: Request): (Windows, Decision) {
    var ip := Current(ws, Ip(r.ip), r.at, lim.window);
    if ip.count >= lim.ipLimit then
      (ws[Ip(r.ip) := ip], Refusal(ip, lim.ipLimit, r.at, lim.window))
    else if !r.HasKey() then
      (ws[Ip(r.ip) := Counted(ip)], AdmitIp(lim, ip, r.at))
    else
      var id := Key(r.apiKeyHash.value);
      var key := Current(ws, id, r.at, lim.window);
      if key.count >= lim.keyLimit then
        (ws[Ip(r.ip) := ip][id := key], Refusal(key, lim.keyLimit, r.at, lim.window))
      else
        (ws[Ip(r.ip) := Counted(ip)][id := Counted(key)], AdmitBoth(lim, ip, key, r.at))
  }

  // Forget every window that has run out.
  function Sweep(ws: Windows, now: real, span: real): Windows {
    map id | id in ws && ws[id].startedAt > now - span :: ws[id]
  }

  // ---- whole histories; `sweeps[i]` says whether request i ends with a sweep ----

  function Run(lim: Limits, rs: seq<Request>, sweeps: seq<bool>): (s: (Windows, seq<Decision>))
    requires |rs| == |sweeps|
    ensures |s.1| == |rs|
  {
    if rs == [] then (map[], [])
    else
      var n := |rs| - 1;
      var before := Run(lim, rs[..n], sweeps[..n]);
      var (ws, d) := Step(lim, before.0, rs[n]);
      (if sweeps[n] then Sweep(ws, rs[n].at, lim.window) else ws, before.1 + [d])
  }

  function Decisions(lim: Limits, rs: seq<Request>, sweeps: seq<bool>): (ds: seq<Decision>)
    requires |rs| == |sweeps|
    ensures |ds| == |rs|
  {
    Run(lim, rs, sweeps).1
  }

  function Never(n: nat): (s: seq<bool>)
    ensures |s| == n
  {
    seq(n, _ => false)
  }

  ghost predicate Ordered(rs: seq<Request>) {
    forall i, j :: 0 <= i < j < |rs| ==> rs[i].at <= rs[j].at
  }

  // Times at which requests were admitted through bucket `id`.
  function Admissions(rs: seq<Request>, ds: seq<Decision>, id: Identity): seq<real>
    requires |rs| == |ds|
  {
    if rs == [] then []
    else
      var n := |rs| - 1;
      Admissions(rs[..n], ds[..n], id) + if ds[n].allowed && rs[n].Uses(id) then [rs[n].at] else []
  }

  // How many of the times lie in [from, upTo).
  function Between(ts: seq<real>, from: real, upTo: real): (n: nat)
    ensures n <= |ts|
  {
    if ts == [] then 0
    else Between(ts[..|ts| - 1], from, upTo) + if from <= ts[|ts| - 1] < upTo then 1 else 0
  }

  /** Those times are counted, each once, that are no earlier than `from` and before `upTo`. */
  lemma {:induction false} BetweenCounts(ts: seq<real>, from: real, upTo: real)
    ensures Between(ts, from, upTo) == |set i: nat | i < |ts| && from <= ts[i] < upTo|
  {
    var them := set i: nat | i < |ts| && from <= ts[i] < upTo;
    if ts == [] {
      assert them == {};
    } else {
      var n, fewer := |ts| - 1, ts[..|ts| - 1];
      BetweenCounts(fewer, from, upTo);
      var before := set i: nat | i < |fewer| && from <= fewer[i] < upTo;
      assert them == before + if from <= ts[n] < upTo then {n} else {};
      assert n !in before;
    }
  }

  // ---- the meaning of one decision ----

  /** A request is admitted exactly when every bucket it uses has room. Admission adds one to
      each of them, refusal adds to none, and no other bucket is touched. */
  lemma StepMeaning(lim: Limits, ws: Windows, r: Request, id: Identity)
    requires lim.Valid()
    ensures var (after, d) := Step(lim, ws, r);
            && (d.allowed <==> forall b :: r.Uses(b) ==> Current(ws, b, r.at, lim.window).count < lim.Of(b))
            && (r.Uses(id) ==>
                  Current(after, id, r.at, lim.window).count
                  == Current(ws, id, r.at, lim.window).count + if d.allowed then 1 else 0)
            && (!r.Uses(id) ==> (id in after <==> id in ws) && (id in ws ==> after[id] == ws[id]))
  {
    assert r.Uses(Ip(r.ip));
    if r.HasKey() {
      assert r.Uses(Key(r.apiKeyHash.value));
    }
  }

  /** Once an address is used up, its requests open and change no key window. */
  lemma ExhaustedAddressOpensNoKey(lim: Limits, ws: Windows, r: Request, key: string)
    requires Current(ws, Ip(r.ip), r.at, lim.window).count >= lim.ipLimit
    ensures var after := Step(lim, ws, r).0;
            (Key(key) in after <==> Key(key) in ws) && (Key(key) in ws ==> after[Key(key)] == ws[Key(key)])
  {
  }

  // The room a bucket has left, and the whole seconds until its window ends.
  function Room(lim: Limits, ws: Windows, id: Identity, now: real): int {
    lim.Of(id) - Current(ws, id, now, lim.window).count
  }

  function Wait(lim: Limits, ws: Windows, id: Identity, now: real): int {
    RetryAfter(Current(ws, id, now, lim.window), now, lim.window)
  }

  /** The figures of an admission are each the least over the buckets the request was counted in. */
  lemma FiguresAreLeast(lim: Limits, ws: Windows, r: Request)
    requires lim.Valid() && Step(lim, ws, r).1.allowed
    ensures var (after, d) := Step(lim, ws, r);
            && 0 <= d.remaining < d.limit && 1 <= d.retryAfter
            && (forall b :: r.Uses(b) ==> d.remaining <= Room(lim, after, b, r.at))
            && (forall b :: r.Uses(b) ==> d.limit <= lim.Of(b))
            && (forall b :: r.Uses(b) ==> d.retryAfter <= Wait(lim, after, b, r.at))
            && (exists b :: r.Uses(b) && d.remaining == Room(lim, after, b, r.at))
            && (exists b :: r.Uses(b) && d.limit == lim.Of(b))
            && (exists b :: r.Uses(b) && d.retryAfter == Wait(lim, after, b, r.at))
  {
    var (after, d) := Step(lim, ws, r);
    var ip := Ip(r.ip);
    var id := if r.HasKey() then Key(r.apiKeyHash.value) else ip;
    assert r.Uses(ip) && r.Uses(id) && forall b :: r.Uses(b) ==> b == ip || b == id;
    assert d.remaining == Room(lim, after, ip, r.at) || d.remaining == Room(lim, after, id, r.at);
    assert d.limit == lim.Of(ip) || d.limit == lim.Of(id);
    assert d.retryAfter == Wait(lim, after, ip, r.at) || d.retryAfter == Wait(lim, after, id, r.at);
  }

  /** A refusal names a bucket: used up at every moment more than a second before `retryAfter`
      has passed, and empty again from then on as long as no request opens it anew. */
  lemma RetryAfterIsExact(lim: Limits, ws: Windows, r: Request) returns (id: Identity)
    requires lim.Valid() && !Step(lim, ws, r).1.allowed
    requires forall b :: b in ws ==> ws[b].startedAt <= r.at
    ensures var (after, d) := Step(lim, ws, r);
            && r.Uses(id) && d.limit == lim.Of(id) && d.retryAfter >= 1
            && (forall t: real :: r.at <= t < r.at + (d.retryAfter - 1) as real
                                  ==> Current(after, id, t, lim.window).count >= lim.Of(id))
            && (forall t: real :: t >= r.at + d.retryAfter as real ==> Current(after, id, t, lim.window).count == 0)
  {
    id := if Current(ws, Ip(r.ip), r.at, lim.window).count >= lim.ipLimit
          then Ip(r.ip) else Key(r.apiKeyHash.value);
  }

  // ---- sweeping cannot be observed ----

  ghost predicate Alike(a: Windows, b: Windows, now: real, span: real) {
    forall id :: Live(a, id, now, span) == Live(b, id, now, span)
  }

  lemma AlikeLater(a: Windows, b: Windows, now: real, later: real, span: real)
    requires Alike(a, b, now, span) && now <= later
    ensures Alike(a, b, later, span)
  {
    forall id ensures Live(a, id, later, span) == Live(b, id, later, span) {
      assert Live(a, id, now, span) == Live(b, id, now, span);
    }
  }

  lemma SweepIsAlike(ws: Windows, now: real, span: real)
    ensures Alike(Sweep(ws, now, span), ws, now, span)
  {
  }

  lemma StepKeepsAlike(lim: Limits, a: Windows, b: Windows, r: Request)
    requires Alike(a, b, r.at, lim.window)
    ensures Step(lim, a, r).1 == Step(lim, b, r).1
    ensures Alike(Step(lim, a, r).0, Step(lim, b, r).0, r.at, lim.window)
  {
    assert Live(a, Ip(r.ip), r.at, lim.window) == Live(b, Ip(r.ip), r.at, lim.window);
    if r.HasKey() {
      var id := Key(r.apiKeyHash.value);
      assert Live(a, id, r.at, lim.window) == Live(b, id, r.at, lim.window);
    }
    forall id ensures Live(Step(lim, a, r).0, id, r.at, lim.window) == Live(Step(lim, b, r).0, id, r.at, lim.window) {
      assert Live(a, id, r.at, lim.window) == Live(b, id, r.at, lim.window);
    }
  }

  lemma {:induction false} SweepsLeaveAlike(lim: Limits, rs: seq<Request>, s: seq<bool>, t: seq<bool>)
    requires |rs| == |s| == |t| && Ordered(rs)
    ensures Decisions(lim, rs, s) == Decisions(lim, rs, t)
    ensures rs != [] ==> Alike(Run(lim, rs, s).0, Run(lim, rs, t).0, rs[|rs| - 1].at, lim.window)
  {
    if rs == [] {
    } else {
      var n := |rs| - 1;
      var r := rs[n];
      var a, b := Run(lim, rs[..n], s[..n]).0, Run(lim, rs[..n], t[..n]).0;
      SweepsLeaveAlike(lim, rs[..n], s[..n], t[..n]);
      if n > 0 {
        AlikeLater(a, b, rs[n - 1].at, r.at, lim.window);
      }
      assert Alike(a, b, r.at, lim.window);
      StepKeepsAlike(lim, a, b, r);
      SweepIsAlike(Step(lim, a, r).0, r.at, lim.window);
      SweepIsAlike(Step(lim, b, r).0, r.at, lim.window);
      AlikeChain(Run(lim, rs, s).0, Step(lim, a, r).0, Step(lim, b, r).0, Run(lim, rs, t).0, r.at, lim.window);
    }
  }

  lemma AlikeChain(a: Windows, b: Windows, c: Windows, d: Windows, now: real, span: real)
    requires Alike(a, b, now, span) && Alike(b, c, now, span) && Alike(d, c, now, span)
    ensures Alike(a, d, now, span)
  {
    forall id ensures Live(a, id, now, span) == Live(d, id, now, span) {
      assert Live(a, id, now, span) == Live(b, id, now, span);
      assert Live(b, id, now, span) == Live(c, id, now, span);
      assert Live(d, id, now, span) == Live(c, id, now, span);
    }
  }

  /** Whenever the stale windows are dropped, every request gets the decision it would have got
      from a limiter that never drops any. */
  lemma CleanupIsUnobservable(lim: Limits, rs: seq<Request>, sweeps: seq<bool>)
    requires |rs| == |sweeps| && Ordered(rs)
    ensures Decisions(lim, rs, sweeps) == Decisions(lim, rs, Never(|rs|))
  {
    SweepsLeaveAlike(lim, rs, sweeps, Never(|rs|));
  }

  // ---- how many requests an interval can admit ----

  lemma {:induction false} BetweenAppend(ts: seq<real>, t: real, from: real, upTo: real)
    ensures Between(ts + [t], from, upTo) == Between(ts, from, upTo) + if from <= t < upTo then 1 else 0
  {
    assert (ts + [t])[..|ts|] == ts;
  }

  lemma {:induction false} BetweenSplits(ts: seq<real>, from: real, mid: real, upTo: real)
    requires from <= mid <= upTo
    ensures Between(ts, from, upTo) == Between(ts, from, mid) + Between(ts, mid, upTo)
  {
    if ts == [] {
    } else {
      BetweenSplits(ts[..|ts| - 1], from, mid, upTo);
    }
  }

  // No time is at `end` or later, so a longer interval counts no more.
  lemma {:induction false} BetweenStopsAt(ts: seq<real>, from: real, end: real, upTo: real)
    requires forall i :: 0 <= i < |ts| ==> ts[i] < end
    requires end <= upTo
    ensures Between(ts, from, upTo) == Between(ts, from, end)
    ensures end <= from ==> Between(ts, from, upTo) == 0
  {
    if ts == [] {
    } else {
      BetweenStopsAt(ts[..|ts| - 1], from, end, upTo);
    }
  }

  // Admissions from `a` until just before the window's start, and from `a` until its end.
  function Ahead(ts: seq<real>, w: Window, a: real): nat {
    Between(ts, a, w.startedAt)
  }

  function Inside(ts: seq<real>, w: Window, a: real, span: real): nat {
    Between(ts, a, w.startedAt + span)
  }

  function During(ts: seq<real>, a: real, span: real): nat {
    Between(ts, a, a + span)
  }

  /** What is known of one bucket's admissions `ts` while its latest window is `w`. `head` is
      one when opening a window always admits (keys), zero when it need not (addresses). */
  ghost predicate Kept(ts: seq<real>, w: Window, limit: int, head: nat, span: real) {
    && w.count <= limit
    && (forall i :: 0 <= i < |ts| ==> ts[i] < w.startedAt + span)
    && Inside(ts, w, w.startedAt, span) == w.count
    && (forall a :: a > w.startedAt ==> Inside(ts, w, a, span) <= w.count - head)
    && (forall a :: a > w.startedAt - span ==> Ahead(ts, w, a) <= limit - head)
    && (forall a :: During(ts, a, span) <= 2 * limit - head)
  }

  // An interval that reaches into the window is bounded by what is ahead of it and inside it.
  lemma BoundNearWindow(ts: seq<real>, w: Window, limit: int, head: nat, span: real, a: real)
    requires head <= 1 <= limit && span > 0.0 && w.count <= limit
    requires forall i :: 0 <= i < |ts| ==> ts[i] < w.startedAt + span
    requires Inside(ts, w, w.startedAt, span) == w.count
    requires a > w.startedAt ==> Inside(ts, w, a, span) <= w.count - head
    requires Ahead(ts, w, a) <= limit - head
    requires w.startedAt - span < a
    ensures During(ts, a, span) <= 2 * limit - head
  {
    var s := w.startedAt;
    if a < s {
      BetweenSplits(ts, a, s, a + span);
      BetweenSplits(ts, s, a + span, s + span);
    } else {
      BetweenStopsAt(ts, a, s + span, a + span);
    }
  }

  // The same for a bucket whose admissions have just been extended by one at `t`.
  lemma BoundAfter(ts: seq<real>, w: Window, limit: int, head: nat, span: real, t: real)
    requires head <= 1 <= limit && span > 0.0 && w.count <= limit
    requires w.startedAt <= t
    requires forall i :: 0 <= i < |ts + [t]| ==> (ts + [t])[i] < w.startedAt + span
    requires Inside(ts + [t], w, w.startedAt, span) == w.count
    requires forall a :: a > w.startedAt ==> Inside(ts + [t], w, a, span) <= w.count - head
    requires forall a :: a > w.startedAt - span ==> Ahead(ts + [t], w, a) <= limit - head
    requires forall a :: During(ts, a, span) <= 2 * limit - head
    ensures Kept(ts + [t], w, limit, head, span)
  {
    forall a ensures During(ts + [t], a, span) <= 2 * limit - head {
      BetweenAppend(ts, t, a, a + span);
      assert During(ts, a, span) <= 2 * limit - head;
      if a <= t < a + span {
        assert Ahead(ts + [t], w, a) <= limit - head;
        BoundNearWindow(ts + [t], w, limit, head, span, a);
      }
    }
  }

  lemma KeptWhenCounted(ts: seq<real>, w: Window, limit: int, head: nat, span: real, t: real)
    requires Kept(ts, w, limit, head, span) && head <= 1 <= limit && span > 0.0
    requires w.startedAt <= t < w.startedAt + span && w.count < limit
    ensures Kept(ts + [t], Counted(w), limit, head, span)
  {
    var now, w', s, end := ts + [t], Counted(w), w.startedAt, w.startedAt + span;
    BetweenAppend(ts, t, s, end);
    forall a | a > s ensures Inside(now, w', a, span) <= w'.count - head {
      BetweenAppend(ts, t, a, end);
      assert Inside(ts, w, a, span) <= w.count - head;
    }
    forall a | a > s - span ensures Ahead(now, w', a) <= limit - head {
      BetweenAppend(ts, t, a, s);
      assert Ahead(ts, w, a) <= limit - head;
    }
    BoundAfter(ts, w', limit, head, span, t);
  }

  // Nothing but the last window's admissions can be near a window opened at `t`.
  lemma AheadOfOpened(ts: seq<real>, w: Window, limit: int, head: nat, span: real, t: real, a: real)
    requires Kept(ts, w, limit, head, span) && head <= 1 <= limit && span > 0.0
    requires t >= w.startedAt + span && a > t - span
    ensures Between(ts, a, t) <= limit - head
  {
    BetweenStopsAt(ts, a, w.startedAt + span, t);
    assert Inside(ts, w, a, span) <= w.count - head;
  }

  lemma KeptWhenOpened(ts: seq<real>, w: Window, limit: int, span: real, t: real)
    requires Kept(ts, w, limit, 0, span) && 1 <= limit && span > 0.0
    requires t >= w.startedAt + span
    ensures Kept(ts, Window(t, 0), limit, 0, span)
  {
    var w' := Window(t, 0);
    forall a | a > t - span ensures Ahead(ts, w', a) <= limit {
      AheadOfOpened(ts, w, limit, 0, span, t, a);
    }
    forall a | a >= t ensures Inside(ts, w', a, span) == 0 {
      BetweenStopsAt(ts, a, w.startedAt + span, t + span);
    }
  }

  lemma KeptWhenOpenedAndCounted(ts: seq<real>, w: Window, limit: int, head: nat, span: real, t: real)
    requires Kept(ts, w, limit, head, span) && head <= 1 <= limit && span > 0.0
    requires t >= w.startedAt + span
    ensures Kept(ts + [t], Window(t, 1), limit, head, span)
  {
    var now, w' := ts + [t], Window(t, 1);
    forall a | a >= t ensures Inside(now, w', a, span) == if a == t then 1 else 0 {
      BetweenAppend(ts, t, a, t + span);
      BetweenStopsAt(ts, a, w.startedAt + span, t + span);
    }
    forall a | a > t - span ensures Ahead(now, w', a) <= limit - head {
      BetweenAppend(ts, t, a, t);
      AheadOfOpened(ts, w, limit, head, span, t, a);
    }
    BoundAfter(ts, w', limit, head, span, t);
  }

  lemma KeptWhenFirst(limit: int, head: nat, span: real, t: real)
    requires head <= 1 <= limit && span > 0.0
    ensures Kept([t], Window(t, 1), limit, head, span)
    ensures head == 0 ==> Kept([], Window(t, 0), limit, head, span)
  {
    assert [] + [t] == [t];
    forall a: real, b: real ensures Between([t], a, b) == if a <= t < b then 1 else 0 {
      BetweenAppend([], t, a, b);
    }
  }

  ghost predicate Tracked(ts: seq<real>, ws: Windows, id: Identity, limit: int, head: nat, span: real, now: real) {
    if id in ws then Kept(ts, ws[id], limit, head, span) && ws[id].startedAt <= now else ts == []
  }

  function Head(id: Identity): nat {
    if id.Key? then 1 else 0
  }

  // What a check does to one bucket: it counts in its current window, leaves that as it is - opening a
  // new one only for an address - or does not look at the bucket.
  ghost predicate Touches(ws: Windows, after: Windows, id: Identity, limit: int, now: real, span: real,
                          uses: bool, allowed: bool) {
    var w := Current(ws, id, now, span);
    if uses && allowed then w.count < limit && id in after && after[id] == Counted(w)
    else
      || (uses && id in after && after[id] == w && (id.Ip? || w.count >= limit))
      || ((id in after <==> id in ws) && (id in ws ==> after[id] == ws[id]))
  }

  lemma StepTouches(lim: Limits, ws: Windows, r: Request, id: Identity)
    requires lim.Valid()
    ensures var (after, d) := Step(lim, ws, r);
            Touches(ws, after, id, lim.Of(id), r.at, lim.window, r.Uses(id), d.allowed)
  {
  }

  lemma TouchKeepsTracked(ws: Windows, after: Windows, id: Identity, limit: int, span: real, t: real,
                          uses: bool, allowed: bool, ts: seq<real>)
    requires limit >= 1 && span > 0.0 && Tracked(ts, ws, id, limit, Head(id), span, t)
    requires Touches(ws, after, id, limit, t, span, uses, allowed)
    ensures Tracked(if uses && allowed then ts + [t] else ts, after, id, limit, Head(id), span, t)
  {
    hide Kept;
    var head := Head(id);
    if uses {
      if id !in ws {
        KeptWhenFirst(limit, head, span, t);
        assert [] + [t] == [t];
      } else if t - ws[id].startedAt < span {
        if allowed {
          KeptWhenCounted(ts, ws[id], limit, head, span, t);
        }
      } else {
        KeptWhenOpenedAndCounted(ts, ws[id], limit, head, span, t);
        if id.Ip? {
          KeptWhenOpened(ts, ws[id], limit, span, t);
        }
      }
    }
  }

  lemma {:induction false} RunIsTracked(lim: Limits, rs: seq<Request>, id: Identity, now: real)
    requires lim.Valid() && Ordered(rs) && (rs != [] ==> rs[|rs| - 1].at <= now)
    ensures Tracked(Admissions(rs, Decisions(lim, rs, Never(|rs|)), id), Run(lim, rs, Never(|rs|)).0, id,
                    lim.Of(id), Head(id), lim.window, now)
  {
    hide Kept, Step;
    if rs == [] {
    } else {
      var n := |rs| - 1;
      RunIsTracked(lim, rs[..n], id, rs[n].at);
      assert Never(|rs|)[..n] == Never(n);
      var before := Run(lim, rs[..n], Never(n));
      var ds := Decisions(lim, rs, Never(|rs|));
      assert ds[..n] == before.1;
      StepTouches(lim, before.0, rs[n], id);
      var (after, d) := Step(lim, before.0, rs[n]);
      TouchKeepsTracked(before.0, after, id, lim.Of(id), lim.window, rs[n].at, rs[n].Uses(id), d.allowed,
                        Admissions(rs[..n], before.1, id));
      assert Admissions(rs, ds, id) == Admissions(rs[..n], before.1, id) + if d.allowed && rs[n].Uses(id) then [rs[n].at] else [];
      assert Admissions(rs[..n], before.1, id) + [] == Admissions(rs[..n], before.1, id);
    }
  }

  /** In any interval of one window's length, at most `2 * keyLimit - 1` requests are admitted
      for a key and at most `2 * ipLimit` for an address, whenever stale windows are dropped. */
  lemma AdmissionsAreBounded(lim: Limits, rs: seq<Request>, sweeps: seq<bool>, id: Identity, from: real)
    requires lim.Valid() && |rs| == |sweeps| && Ordered(rs)
    ensures During(Admissions(rs, Decisions(lim, rs, sweeps), id), from, lim.window)
            <= 2 * lim.Of(id) - if id.Key? then 1 else 0
  {
    CleanupIsUnobservable(lim, rs, sweeps);
    var now := if rs == [] then 0.0 else rs[|rs| - 1].at;
    RunIsTracked(lim, rs, id, now);
  }

  // ---- the key bound is reached ----

  function Plain(lim: Limits, rs: seq<Request>): (s: (Windows, seq<Decision>))
    ensures |s.1| == |rs|
  {
    Run(lim, rs, Never(|rs|))
  }

  function Admitted(lim: Limits, rs: seq<Request>, id: Identity): seq<real> {
    Admissions(rs, Plain(lim, rs).1, id)
  }

  lemma PlainAppend(lim: Limits, rs: seq<Request>, r: Request)
    ensures var (ws, d) := Step(lim, Plain(lim, rs).0, r);
            && Plain(lim, rs + [r]) == (ws, Plain(lim, rs).1 + [d])
            && forall id :: Admitted(lim, rs + [r], id)
                            == Admitted(lim, rs, id) + if d.allowed && r.Uses(id) then [r.at] else []
  {
    hide Step;
    assert (rs + [r])[..|rs|] == rs && Never(|rs| + 1)[..|rs|] == Never(|rs|);
    assert Plain(lim, rs + [r]).1[..|rs|] == Plain(lim, rs).1;
  }

  ghost predicate HasWindow(lim: Limits, rs: seq<Request>, id: Identity, startedAt: real, count: nat) {
    id in Plain(lim, rs).0 && Plain(lim, rs).0[id] == Window(startedAt, count)
  }

  // What a request does not use is left as it was.
  ghost predicate SameElsewhere(lim: Limits, rs: seq<Request>, all: seq<Request>, r: Request) {
    forall id :: !r.Uses(id) ==>
      && Admitted(lim, all, id) == Admitted(lim, rs, id)
      && (id in Plain(lim, all).0 <==> id in Plain(lim, rs).0)
      && (id in Plain(lim, rs).0 ==> Plain(lim, all).0[id] == Plain(lim, rs).0[id])
  }

  lemma OneMoreLeavesTheRest(lim: Limits, rs: seq<Request>, r: Request)
    ensures SameElsewhere(lim, rs, rs + [r], r)
  {
    PlainAppend(lim, rs, r);
    hide Plain, Admitted;
    forall id ensures Admitted(lim, rs, id) + [] == Admitted(lim, rs, id) {
    }
  }

  lemma OneMoreIsCounted(lim: Limits, rs: seq<Request>, r: Request, start: real, c: nat)
    requires lim.Valid() && r.at - start < lim.window
    requires forall b :: r.Uses(b) ==> HasWindow(lim, rs, b, start, c) && c < lim.Of(b)
    ensures forall b :: r.Uses(b) ==>
              Admitted(lim, rs + [r], b) == Admitted(lim, rs, b) + [r.at] && HasWindow(lim, rs + [r], b, start, c + 1)
  {
    PlainAppend(lim, rs, r);
    assert r.Uses(Ip(r.ip)) && (r.HasKey() ==> r.Uses(Key(r.apiKeyHash.value)));
    hide Plain, Admitted;
  }

  // `n` equal requests while every window they are counted in has room.
  lemma {:induction false} BurstIsAdmitted(lim: Limits, rs: seq<Request>, r: Request, n: nat, start: real, c: nat)
    requires lim.Valid() && r.at - start < lim.window
    requires forall b :: r.Uses(b) ==> HasWindow(lim, rs, b, start, c) && c + n <= lim.Of(b)
    ensures var all := rs + Repeat(r, n);
            && (forall b :: r.Uses(b) ==>
                  Admitted(lim, all, b) == Admitted(lim, rs, b) + Repeat(r.at, n) && HasWindow(lim, all, b, start, c + n))
            && SameElsewhere(lim, rs, all, r)
  {
    if n == 0 {
      assert rs + Repeat(r, 0) == rs;
      forall b ensures Admitted(lim, rs, b) + Repeat(r.at, 0) == Admitted(lim, rs, b) {
      }
    } else {
      hide *;
      var prior := rs + Repeat(r, n - 1);
      BurstIsAdmitted(lim, rs, r, n - 1, start, c);
      OneMoreIsCounted(lim, prior, r, start, c + n - 1);
      OneMoreLeavesTheRest(lim, prior, r);
      RepeatGrows(rs, r, n);
      ElsewhereChains(lim, rs, prior, prior + [r], r);
      forall b ensures Admitted(lim, rs, b) + Repeat(r.at, n) == Admitted(lim, rs, b) + Repeat(r.at, n - 1) + [r.at] {
        RepeatGrows(Admitted(lim, rs, b), r.at, n);
      }
    }
  }

  lemma RepeatGrows<T>(xs: seq<T>, x: T, n: nat)
    requires n > 0
    ensures xs + Repeat(x, n) == xs + Repeat(x, n - 1) + [x]
  {
  }

  lemma ElsewhereChains(lim: Limits, rs: seq<Request>, mid: seq<Request>, all: seq<Request>, r: Request)
    requires SameElsewhere(lim, rs, mid, r) && SameElsewhere(lim, mid, all, r)
    ensures SameElsewhere(lim, rs, all, r)
  {
    hide Plain, Admitted;
  }

  // A request that finds none of its windows running opens them all.
  lemma OpenerIsAdmitted(lim: Limits, rs: seq<Request>, r: Request)
    requires lim.Valid()
    requires forall b :: r.Uses(b) ==> Live(Plain(lim, rs).0, b, r.at, lim.window).None?
    ensures forall b :: r.Uses(b) ==>
              Admitted(lim, rs + [r], b) == Admitted(lim, rs, b) + [r.at] && HasWindow(lim, rs + [r], b, r.at, 1)
    ensures SameElsewhere(lim, rs, rs + [r], r)
  {
    PlainAppend(lim, rs, r);
    OneMoreLeavesTheRest(lim, rs, r);
    assert r.Uses(Ip(r.ip)) && (r.HasKey() ==> r.Uses(Key(r.apiKeyHash.value)));
    hide Plain, Admitted, SameElsewhere;
  }

  lemma {:induction false} BetweenRepeat(ts: seq<real>, t: real, n: nat, from: real, upTo: real)
    ensures Between(ts + Repeat(t, n), from, upTo) == Between(ts, from, upTo) + if from <= t < upTo then n else 0
  {
    if n == 0 {
      assert ts + Repeat(t, 0) == ts;
    } else {
      BetweenRepeat(ts, t, n - 1, from, upTo);
      BetweenAppend(ts + Repeat(t, n - 1), t, from, upTo);
      assert ts + Repeat(t, n) == ts + Repeat(t, n - 1) + [t];
    }
  }

  // An opening request, `n` half a window later, one that opens the next window, and `m` more.
  function Straddle(r: Request, W: real, n: nat, m: nat): seq<Request> {
    Repeat(r.(at := W / 2.0), n) + [r.(at := W)] + Repeat(r.(at := W), m)
  }

  lemma StraddleIsAdmitted(lim: Limits, rs: seq<Request>, r: Request, id: Identity, c: nat, n: nat, m: nat)
    requires lim.Valid() && r.Uses(id)
    requires forall b :: r.Uses(b) ==> HasWindow(lim, rs, b, 0.0, c) && c + n <= lim.Of(b) && 1 + m <= lim.Of(b)
    ensures var W := lim.window;
            Admitted(lim, rs + Straddle(r, W, n, m), id)
            == Admitted(lim, rs, id) + Repeat(W / 2.0, n) + [W] + Repeat(W, m)
  {
    hide Plain, Admitted, HasWindow, Live, Repeat, SameElsewhere;
    var W := lim.window;
    var half, full := r.(at := W / 2.0), r.(at := W);
    assert forall b :: (half.Uses(b) <==> r.Uses(b)) && (full.Uses(b) <==> r.Uses(b));
    BurstIsAdmitted(lim, rs, half, n, 0.0, c);
    var first := rs + Repeat(half, n);
    assert forall b :: full.Uses(b) ==> HasWindow(lim, first, b, 0.0, c + n);
    forall b | full.Uses(b) ensures Live(Plain(lim, first).0, b, W, W).None? {
      WindowIsOver(lim, first, b, c + n);
    }
    OpenerIsAdmitted(lim, first, full);
    BurstIsAdmitted(lim, first + [full], full, m, W, 1);
    assert rs + Straddle(r, W, n, m) == first + [full] + Repeat(full, m);
  }

  lemma WindowIsOver(lim: Limits, rs: seq<Request>, b: Identity, c: nat)
    requires lim.Valid() && HasWindow(lim, rs, b, 0.0, c)
    ensures Live(Plain(lim, rs).0, b, lim.window, lim.window).None?
  {
    hide Plain;
  }

  lemma NoneYet(ts: seq<real>, from: real, upTo: real)
    requires (ts == [] || ts == [0.0]) && from > 0.0
    ensures Between(ts, from, upTo) == 0
  {
    if ts != [] {
      assert ts[..0] == [];
    }
  }

  lemma StraddleCount(ts: seq<real>, W: real, n: nat, m: nat)
    requires W > 0.0 && (ts == [] || ts == [0.0])
    ensures During(ts + Repeat(W / 2.0, n) + [W] + Repeat(W, m), W / 2.0, W) == n + 1 + m
  {
    hide Between, Repeat;
    var half := W / 2.0;
    var end := half + W;
    NoneYet(ts, half, end);
    BetweenRepeat(ts, half, n, half, end);
    BetweenAppend(ts + Repeat(half, n), W, half, end);
    BetweenRepeat(ts + Repeat(half, n) + [W], W, m, half, end);
  }

  // As many addresses as needed.
  function Address(i: nat): (s: string)
    ensures |s| == i
  {
    Repeat('a', i)
  }

  // `n` requests with one key, each from an address of its own.
  function Fan(at: real, from: nat, n: nat): (rs: seq<Request>)
    ensures |rs| == n
    ensures forall i :: 0 <= i < n ==> rs[i].at == at
    decreases n
  {
    if n == 0 then [] else Fan(at, from, n - 1) + [Request(Address(from + n - 1), Some("k"), at)]
  }

  // No address from the `from`-th on has been seen yet.
  ghost predicate Unseen(lim: Limits, rs: seq<Request>, from: nat) {
    forall i: nat :: i >= from ==> Ip(Address(i)) !in Plain(lim, rs).0
  }

  lemma AddressesDiffer(i: nat, j: nat)
    requires i != j
    ensures Ip(Address(i)) != Ip(Address(j))
  {
    assert |Address(i)| != |Address(j)|;
  }

  // One request from a new address, whose key has a running window with room or none at all.
  lemma NewAddressIsAdmitted(lim: Limits, rs: seq<Request>, at: real, from: nat, start: real, c: nat)
    requires lim.Valid() && Unseen(lim, rs, from)
    requires at - start < lim.window && c < lim.keyLimit
    requires HasWindow(lim, rs, Key("k"), start, c)
             || (Live(Plain(lim, rs).0, Key("k"), at, lim.window).None? && start == at && c == 0)
    ensures var all := rs + [Request(Address(from), Some("k"), at)];
            && Admitted(lim, all, Key("k")) == Admitted(lim, rs, Key("k")) + [at]
            && HasWindow(lim, all, Key("k"), start, c + 1) && Unseen(lim, all, from + 1)
  {
    var r := Request(Address(from), Some("k"), at);
    assert Ip(Address(from)) !in Plain(lim, rs).0;
    PlainAppend(lim, rs, r);
    hide Plain, Admitted, Address;
    assert r.Uses(Key("k"));
    var after := Step(lim, Plain(lim, rs).0, r).0;
    forall i: nat | i >= from + 1 ensures Ip(Address(i)) !in after {
      AddressesDiffer(i, from);
      assert Ip(Address(i)) !in Plain(lim, rs).0;
    }
  }

  lemma {:induction false} FanIsAdmitted(lim: Limits, rs: seq<Request>, at: real, from: nat, n: nat, start: real, c: nat)
    requires lim.Valid() && Unseen(lim, rs, from)
    requires at - start < lim.window && c + n <= lim.keyLimit && HasWindow(lim, rs, Key("k"), start, c)
    ensures var all := rs + Fan(at, from, n);
            && Admitted(lim, all, Key("k")) == Admitted(lim, rs, Key("k")) + Repeat(at, n)
            && HasWindow(lim, all, Key("k"), start, c + n) && Unseen(lim, all, from + n)
    decreases n
  {
    if n == 0 {
      assert rs + Fan(at, from, 0) == rs;
      assert Admitted(lim, rs, Key("k")) + Repeat(at, 0) == Admitted(lim, rs, Key("k"));
    } else {
      hide *;
      FanIsAdmitted(lim, rs, at, from, n - 1, start, c);
      NewAddressIsAdmitted(lim, rs + Fan(at, from, n - 1), at, from + n - 1, start, c + n - 1);
      FanGrows(rs, at, from, n);
      RepeatGrows(Admitted(lim, rs, Key("k")), at, n);
    }
  }

  lemma FanGrows(rs: seq<Request>, at: real, from: nat, n: nat)
    requires n > 0
    ensures rs + Fan(at, from, n) == rs + Fan(at, from, n - 1) + [Request(Address(from + n - 1), Some("k"), at)]
  {
  }

  // A key's first `n` requests, all at one moment, from addresses not seen before.
  lemma FreshFanIsAdmitted(lim: Limits, rs: seq<Request>, at: real, from: nat, n: nat)
    requires lim.Valid() && Unseen(lim, rs, from) && 1 <= n <= lim.keyLimit
    requires Live(Plain(lim, rs).0, Key("k"), at, lim.window).None?
    ensures var all := rs + Fan(at, from, n);
            && Admitted(lim, all, Key("k")) == Admitted(lim, rs, Key("k")) + Repeat(at, n)
            && HasWindow(lim, all, Key("k"), at, n) && Unseen(lim, all, from + n)
  {
    hide Plain, Admitted, Unseen, HasWindow, Live;
    var first := Request(Address(from), Some("k"), at);
    NewAddressIsAdmitted(lim, rs, at, from, at, 0);
    FanIsAdmitted(lim, rs + [first], at, from + 1, n - 1, at, 1);
    FanSplits(at, from, n);
    assert rs + Fan(at, from, n) == rs + [first] + Fan(at, from + 1, n - 1);
    assert Repeat(at, n) == [at] + Repeat(at, n - 1);
    assert Admitted(lim, rs, Key("k")) + Repeat(at, n) == Admitted(lim, rs, Key("k")) + [at] + Repeat(at, n - 1);
  }

  lemma {:induction false} FanSplits(at: real, from: nat, n: nat)
    requires n > 0
    ensures Fan(at, from, n) == [Request(Address(from), Some("k"), at)] + Fan(at, from + 1, n - 1)
    decreases n
  {
    if n == 1 {
      assert Fan(at, from, 0) == [] && Fan(at, from + 1, 0) == [];
    } else {
      FanSplits(at, from, n - 1);
    }
  }

  function WorstForKey(lim: Limits): seq<Request>
    requires lim.Valid()
  {
    var W, L := lim.window, lim.keyLimit;
    Fan(0.0, 0, 1) + Fan(W / 2.0, 1, L - 1) + Fan(W, L, L)
  }

  /** The key bound is exact for every configuration. One request opens a window, the rest of its
      allowance is used half way through, and a full allowance as soon as it ends; no address is
      used twice. */
  lemma KeyBoundIsReached(lim: Limits)
    requires lim.Valid()
    ensures Ordered(WorstForKey(lim))
    ensures During(Admitted(lim, WorstForKey(lim), Key("k")), lim.window / 2.0, lim.window) == 2 * lim.keyLimit - 1
  {
    hide Plain, Admitted, During, Fan, Unseen, HasWindow, Live;
    var W, L := lim.window, lim.keyLimit;
    NothingSeen(lim, Key("k"), 0.0);
    FreshFanIsAdmitted(lim, [], 0.0, 0, 1);
    assert [] + Fan(0.0, 0, 1) == Fan(0.0, 0, 1) && [] + Repeat(0.0, 1) == [0.0];
    var first := Fan(0.0, 0, 1);
    FanIsAdmitted(lim, first, W / 2.0, 1, L - 1, 0.0, 1);
    var second := first + Fan(W / 2.0, 1, L - 1);
    WindowIsOver(lim, second, Key("k"), L);
    FreshFanIsAdmitted(lim, second, W, L, L);
    assert Repeat(W, L) == [W] + Repeat(W, L - 1);
    assert [0.0] + Repeat(W / 2.0, L - 1) + Repeat(W, L) == [0.0] + Repeat(W / 2.0, L - 1) + [W] + Repeat(W, L - 1);
    StraddleCount([0.0], W, L - 1, L - 1);
  }

  // Others use up the key; a refused request then opens the address window without being counted.
  function WorstForAddress(lim: Limits): seq<Request>
    requires lim.Valid()
  {
    var L, target := lim.keyLimit, Address(lim.keyLimit);
    Fan(0.0, 0, L) + [Request(target, Some("k"), 0.0)]
    + Straddle(Request(target, None, 0.0), lim.window, lim.ipLimit, lim.ipLimit - 1)
  }

  lemma RefusedOpensAddress(lim: Limits, rs: seq<Request>, r: Request, c: nat)
    requires lim.Valid() && r.HasKey() && Live(Plain(lim, rs).0, Ip(r.ip), r.at, lim.window).None?
    requires HasWindow(lim, rs, Key(r.apiKeyHash.value), r.at, c) && c >= lim.keyLimit
    ensures Admitted(lim, rs + [r], Ip(r.ip)) == Admitted(lim, rs, Ip(r.ip))
    ensures HasWindow(lim, rs + [r], Ip(r.ip), r.at, 0)
  {
    PlainAppend(lim, rs, r);
    hide Plain, Admitted;
    assert Admitted(lim, rs, Ip(r.ip)) + [] == Admitted(lim, rs, Ip(r.ip));
  }

  // A fan is not admitted through any address beyond its own.
  lemma {:induction false} FanMissesAddress(lim: Limits, at: real, n: nat, i: nat)
    requires i >= n
    ensures Admitted(lim, Fan(at, 0, n), Ip(Address(i))) == []
    decreases n
  {
    if n == 0 {
      NothingYet(lim, Ip(Address(i)));
    } else {
      hide Plain, Admitted, Address, Step;
      FanMissesAddress(lim, at, n - 1, i);
      AddressesDiffer(i, n - 1);
      PlainAppend(lim, Fan(at, 0, n - 1), Request(Address(n - 1), Some("k"), at));
    }
  }

  /** The address bound is exact for every configuration too: a window opened by a refused request
      holds a full allowance half way through, and the next one another as soon as it begins. */
  lemma AddressBoundIsReached(lim: Limits)
    requires lim.Valid()
    ensures Ordered(WorstForAddress(lim))
    ensures During(Admitted(lim, WorstForAddress(lim), Ip(Address(lim.keyLimit))), lim.window / 2.0, lim.window)
            == 2 * lim.ipLimit
  {
    hide Plain, Admitted, During, Fan, HasWindow, Address, Live, Repeat;
    var L, target := lim.keyLimit, Address(lim.keyLimit);
    var refused, r := Request(target, Some("k"), 0.0), Request(target, None, 0.0);
    var used := Fan(0.0, 0, L);
    KeyIsUsedUp(lim);
    RefusedOpensAddress(lim, used, refused, L);
    assert forall b :: r.Uses(b) ==> b == Ip(target);
    StraddleIsAdmitted(lim, used + [refused], r, Ip(target), 0, lim.ipLimit, lim.ipLimit - 1);
    assert [] + Repeat(lim.window / 2.0, lim.ipLimit) == Repeat(lim.window / 2.0, lim.ipLimit);
    StraddleCount([], lim.window, lim.ipLimit, lim.ipLimit - 1);
    StraddleIsOrdered(r, lim.window, lim.ipLimit, lim.ipLimit - 1);
  }

  lemma StraddleIsOrdered(r: Request, W: real, n: nat, m: nat)
    requires W > 0.0
    ensures Ordered(Straddle(r, W, n, m))
    ensures forall i :: 0 <= i < |Straddle(r, W, n, m)| ==> Straddle(r, W, n, m)[i].at > 0.0
  {
  }

  // After a full allowance of requests the next address has still not been seen.
  lemma KeyIsUsedUp(lim: Limits)
    requires lim.Valid()
    ensures var L, used := lim.keyLimit, Fan(0.0, 0, lim.keyLimit);
            && HasWindow(lim, used, Key("k"), 0.0, L)
            && Live(Plain(lim, used).0, Ip(Address(L)), 0.0, lim.window).None?
            && Admitted(lim, used, Ip(Address(L))) == []
  {
    hide Plain, Admitted, Fan, HasWindow, Address;
    var L := lim.keyLimit;
    NothingSeen(lim, Key("k"), 0.0);
    FreshFanIsAdmitted(lim, [], 0.0, 0, L);
    assert [] + Fan(0.0, 0, L) == Fan(0.0, 0, L);
    FanMissesAddress(lim, 0.0, L, L);
    assert Ip(Address(L)) !in Plain(lim, Fan(0.0, 0, L)).0;
  }

  lemma NothingSeen(lim: Limits, id: Identity, at: real)
    ensures Unseen(lim, [], 0) && Admitted(lim, [], id) == [] && Live(Plain(lim, []).0, id, at, lim.window).None?
  {
  }

  lemma NothingYet(lim: Limits, id: Identity)
    ensures Plain(lim, []) == (map[], []) && Admitted(lim, [], id) == []
  {
  }

  // ---- the limiter itself ----

  class FixedWindowRateLimiter {
    const limits: Limits
    var windows: Windows
    var checks: nat
    ghost var history: seq<Request>
    ghost var sweeps: seq<bool>
    ghost var decisions: seq<Decision>

    ghost predicate Valid()
      reads this
    {
      && limits.Valid()
      && |history| == |sweeps|
      && Run(limits, history, sweeps) == (windows, decisions)
    }

    constructor (limits: Limits)
      requires limits.Valid()
      ensures Valid() && this.limits == limits && history == []
    {
      this.limits := limits;
      windows, checks := map[], 0;
      history, sweeps, decisions := [], [], [];
    }

    // None stands for the configurations the program refuses to build a limiter from.
    static method Build(keyLimit: int, ipLimit: int, window: real) returns (limiter: Option<FixedWindowRateLimiter>)
      ensures limiter.Some? <==> keyLimit >= 1 && ipLimit >= 1 && window > 0.0
      ensures limiter.Some? ==> fresh(limiter.value) && limiter.value.Valid() && limiter.value.history == []
                                && limiter.value.limits == Limits(keyLimit, ipLimit, window)
    {
      if keyLimit < 1 || ipLimit < 1 || window <= 0.0 {
        return None;
      }
      var built := new FixedWindowRateLimiter(Limits(keyLimit, ipLimit, window));
      limiter := Some(built);
    }

    // Count the request in every bucket and report the tightest figures.
    method Admit(buckets: seq<Identity>, now: real, ghost r: Request, ghost was: Windows) returns (d: Decision)
      requires limits.Valid() && now == r.at
      requires buckets == [Ip(r.ip)] + if r.HasKey() then [Key(r.apiKeyHash.value)] else []
      requires Opened(windows, was, limits, r, |buckets|)
      modifies `windows
      ensures d.allowed && (windows, d) == Step(limits, was, r)
    {
      ghost var start := windows;
      ghost var ip := Current(was, Ip(r.ip), now, limits.window);
      ghost var key := if r.HasKey() then Current(was, Key(r.apiKeyHash.value), now, limits.window) else ip;
      var limit, remaining, left := 0, 0, 0.0;
      var i := 0;
      while i < |buckets|
        invariant 0 <= i <= |buckets|
        invariant i == 0 ==> windows == start
        invariant i == 1 ==> windows == start[Ip(r.ip) := Counted(ip)]
        invariant i == 1 ==> limit == limits.ipLimit && remaining == limits.ipLimit - (ip.count + 1)
                             && left == limits.window - (now - ip.startedAt)
        invariant i == 2 ==> windows == start[Ip(r.ip) := Counted(ip)][buckets[1] := Counted(key)]
        invariant i == 2 ==> && limit == Min(limits.ipLimit, limits.keyLimit)
                             && remaining == Min(limits.ipLimit - (ip.count + 1), limits.keyLimit - (key.count + 1))
                             && left == Lesser(limits.window - (now - ip.startedAt), limits.window - (now - key.startedAt))
      {
        var id := buckets[i];
        windows := windows[id := Counted(windows[id])];
        var room := limits.Of(id) - windows[id].count;
        var time := limits.window - (now - windows[id].startedAt);
        limit := if i == 0 then limits.Of(id) else Min(limit, limits.Of(id));
        remaining := if i == 0 then room else Min(remaining, room);
        left := if i == 0 then time else Lesser(left, time);
        i := i + 1;
      }
      d := Decision(true, limit, Max(0, remaining), Max(1, Ceil(left)));
      assert windows == Step(limits, was, r).0;
    }

    /** Decide one request. The decisions given so far are always those of `Run`. */
    method Check(apiKeyHash: Option<string>, ip: string, now: real) returns (d: Decision)
      requires Valid()
      modifies this
      ensures Valid()
      ensures history == old(history) + [Request(ip, apiKeyHash, now)]
      ensures decisions == old(decisions) + [d]
      ensures d == Step(limits, old(windows), Request(ip, apiKeyHash, now)).1
      ensures checks == old(checks) + 1
      ensures sweeps == old(sweeps) + [d.allowed && checks % 256 == 0]
    {
      ghost var r := Request(ip, apiKeyHash, now);
      ghost var spec := Step(limits, windows, r);
      var buckets := [Ip(ip)];
      if apiKeyHash.Some? && apiKeyHash.value != "" {
        buckets := buckets + [Key(apiKeyHash.value)];
      }
      checks := checks + 1;
      var sweep := false;
      var exhausted, i := false, 0;
      d := Decision(false, 0, 0, 0);
      while i < |buckets| && !exhausted
        invariant 0 <= i <= |buckets|
        invariant exhausted ==> !d.allowed && d == spec.1 && windows == spec.0
        invariant !exhausted ==> Opened(windows, old(windows), limits, r, i)
        invariant checks == old(checks) + 1
        invariant history == old(history) && sweeps == old(sweeps) && decisions == old(decisions)
      {
        var limit := limits.Of(buckets[i]);
        if buckets[i] !in windows || now - windows[buckets[i]].startedAt >= limits.window {
          windows := windows[buckets[i] := Window(now, 0)];
        }
        if windows[buckets[i]].count >= limit {
          exhausted := true;
          var left := limits.window - (now - windows[buckets[i]].startedAt);
          d := Decision(false, limit, 0, Max(1, Ceil(left)));
        }
        i := i + 1;
      }
      if !exhausted {
        assert Opened(windows, old(windows), limits, r, |buckets|);
        d := Admit(buckets, now, r, old(windows));
        if checks % 256 == 0 {
          sweep := true;
          windows := Sweep(windows, now, limits.window);
        }
      }
      history, sweeps, decisions := history + [r], sweeps + [sweep], decisions + [d];
    }
  }

  // After looking at `i` buckets without finding one used up, each of them has a running window.
  ghost predicate Opened(ws: Windows, was: Windows, lim: Limits, r: Request, i: nat) {
    var ip := Current(was, Ip(r.ip), r.at, lim.window);
    if i == 0 then ws == was
    else if i == 1 then ip.count < lim.ipLimit && ws == was[Ip(r.ip) := ip]
    else
      && r.HasKey() && ip.count < lim.ipLimit
      && var key := Current(was, Key(r.apiKeyHash.value), r.at, lim.window);
      && key.count < lim.keyLimit && ws == was[Ip(r.ip) := ip][Key(r.apiKeyHash.value) := key]
  }
}
