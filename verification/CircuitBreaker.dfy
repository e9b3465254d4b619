/** The per-provider circuit breaker and its durable state store. */
module CircuitBreakers {
  import opened Helpers
  import opened Wrappers
  import opened ProviderErrors

  datatype State = Closed | Open | HalfOpen

  datatype Snapshot = Snapshot(state: State, failures: int, openedAt: Option<real>)

  const INITIAL := Snapshot(Closed, 0, None)

  datatype Config = Config(threshold: int, cooldown: real, tripCodes: set<Code>) {
    predicate Valid() {
      threshold >= 1 && cooldown >= 0.0
    }

    // A string outside the taxonomy is None.
    predicate IsEligible(code: Option<Code>) {
      code.Some? && code.value in tripCodes
    }
  }

  datatype Kind = Allow | Success | Failure(code: Option<Code>)

  // Something asked of, or reported to, the breaker at time `at`.
  datatype Event = Event(kind: Kind, at: real)

  /** What an operation comes back with: a verdict on a request, nothing but having recorded an outcome,
      or an assertion that fails. */
  datatype Reply = Admitted | Blocked | Recorded | Crashed

  /** What one operation does: the memory it leaves, whether it saves it, and its reply. */
  datatype Turn = Turn(memory: Snapshot, saves: bool, reply: Reply)

  // ---- one operation ----

  function Refresh(memory: Snapshot, stored: Option<Snapshot>): Snapshot {
    match stored
    case None => memory
    case Some(s) => s.(failures := if s.failures < 0 then 0 else s.failures)
  }

  predicate Ignored(cfg: Config, e: Event) {
    e.kind.Failure? && !cfg.IsEligible(e.kind.code)
  }

  predicate Cooled(cfg: Config, s: Snapshot, now: real) {
    s.openedAt.Some? && now - s.openedAt.value >= cfg.cooldown
  }

  // The operation on a memory that has just been refreshed.
  function Act(cfg: Config, s: Snapshot, e: Event): Turn {
    match e.kind
    case Allow =>
      if !s.state.Open? then Turn(s, false, Admitted)
      else if s.openedAt.None? then Turn(s, false, Crashed)
      else if Cooled(cfg, s, e.at) then Turn(s.(state := HalfOpen), true, Admitted)
      else Turn(s, false, Blocked)
    case Success =>
      if s.state.Open? then Turn(s, false, Recorded) else Turn(INITIAL, true, Recorded)
    case Failure(code) =>
      if !cfg.IsEligible(code) || s.state.Open? then Turn(s, false, Recorded)
      else if s.state.HalfOpen? then Turn(Snapshot(Open, 1, Some(e.at)), true, Recorded)
      else if s.failures + 1 >= cfg.threshold then Turn(Snapshot(Open, s.failures + 1, Some(e.at)), true, Recorded)
      else Turn(s.(failures := s.failures + 1), true, Recorded)
  }

  // ---- one breaker that lives for ever in one memory ----

  function Run(cfg: Config, from: Snapshot, es: seq<Event>): Snapshot {
    if es == [] then from
    else Act(cfg, Run(cfg, from, es[..|es| - 1]), es[|es| - 1]).memory
  }

  function Answer(cfg: Config, from: Snapshot, es: seq<Event>, i: nat): Reply
    requires i < |es|
  {
    Act(cfg, Run(cfg, from, es[..i]), es[i]).reply
  }

  ghost predicate Ordered(es: seq<Event>) {
    forall i, j :: 0 <= i < j < |es| ==> es[i].at <= es[j].at
  }

  lemma RunNothing(cfg: Config, from: Snapshot)
    ensures Run(cfg, from, []) == from
  {
  }

  lemma RunAppend(cfg: Config, from: Snapshot, es: seq<Event>, e: Event)
    ensures Run(cfg, from, es + [e]) == Act(cfg, Run(cfg, from, es), e).memory
  {
    assert (es + [e])[..|es|] == es;
  }

  lemma RunStep(cfg: Config, from: Snapshot, es: seq<Event>, i: nat)
    requires i < |es|
    ensures Run(cfg, from, es[..i + 1]) == Act(cfg, Run(cfg, from, es[..i]), es[i]).memory
  {
    assert es[..i + 1][..i] == es[..i];
  }

  // ---- invariants of the machine ----

  /** An open breaker knows since when, and a closed one is short of its threshold. */
  ghost predicate Sound(cfg: Config, s: Snapshot) {
    && (s.state.Open? ==> s.openedAt.Some?)
    && (s.state.Closed? ==> 0 <= s.failures < cfg.threshold)
    && 0 <= s.failures
  }

  // Open without an opening time, which no breaker saves but a store may hold.
  predicate Undated(s: Snapshot) {
    s.state.Open? && s.openedAt.None?
  }

  lemma {:induction false} UndatedStays(cfg: Config, from: Snapshot, es: seq<Event>)
    ensures Undated(from) ==> Run(cfg, from, es) == from
    ensures !Undated(from) ==> !Undated(Run(cfg, from, es))
  {
    if es == [] {
    } else {
      UndatedStays(cfg, from, es[..|es| - 1]);
    }
  }

  /** A request fails the code's assertion exactly when the snapshot the history began with was open
      without an opening time; then every request does, for ever. */
  lemma CrashesExactlyWhen(cfg: Config, from: Snapshot, es: seq<Event>, i: nat)
    requires i < |es|
    ensures Answer(cfg, from, es, i) == Crashed <==> es[i].kind.Allow? && Undated(from)
  {
    UndatedStays(cfg, from, es[..i]);
  }

  lemma ActKeepsSound(cfg: Config, s: Snapshot, e: Event)
    requires cfg.Valid() && Sound(cfg, s)
    ensures Sound(cfg, Act(cfg, s, e).memory)
  {
  }

  lemma {:induction false} RunIsSound(cfg: Config, from: Snapshot, es: seq<Event>)
    requires cfg.Valid() && Sound(cfg, from)
    ensures Sound(cfg, Run(cfg, from, es))
  {
    if es == [] {
    } else {
      RunIsSound(cfg, from, es[..|es| - 1]);
      ActKeepsSound(cfg, Run(cfg, from, es[..|es| - 1]), es[|es| - 1]);
    }
  }

  // ---- ineligible failures leave no trace ----

  // The nine kinds of failure documented never to affect a breaker.
  const DOCUMENTED_CODES: set<Code> :=
    {AUTH, FORBIDDEN, VALIDATION, NOT_FOUND, CONFLICT, NOT_IMPLEMENTED, TIMEOUT, INTERNAL, UNKNOWN}

  // A history whose failures are all of documented kinds, or of no known kind.
  ghost predicate DocumentedOnly(es: seq<Event>) {
    forall i :: 0 <= i < |es| && es[i].kind.Failure? && es[i].kind.code.Some?
                ==> es[i].kind.code.value in DOCUMENTED_CODES
  }

  lemma {:induction false} IneligibleNeverOpens(cfg: Config, es: seq<Event>)
    requires cfg.Valid() && cfg.tripCodes !! DOCUMENTED_CODES && DocumentedOnly(es)
    ensures Run(cfg, INITIAL, es) == INITIAL
  {
    if es == [] {
    } else {
      var n := |es| - 1;
      IneligibleNeverOpens(cfg, es[..n]);
      assert es[n].kind.Failure? && es[n].kind.code.Some? ==> es[n].kind.code.value !in cfg.tripCodes;
    }
  }

  lemma {:induction false} RepeatedFailureCounts(cfg: Config, code: Code, at: real, n: nat)
    requires cfg.Valid() && code in cfg.tripCodes && n <= cfg.threshold
    ensures var s := Run(cfg, INITIAL, Repeat(Event(Failure(Some(code)), at), n));
            && s.failures == n
            && s.state == if n < cfg.threshold then Closed else Open
  {
    hide Run, Repeat;
    var e := Event(Failure(Some(code)), at);
    if n == 0 {
      assert Repeat(e, 0) == [];
      RunNothing(cfg, INITIAL);
    } else {
      RepeatedFailureCounts(cfg, code, at, n - 1);
      assert Repeat(e, n) == Repeat(e, n - 1) + [e];
      RunAppend(cfg, INITIAL, Repeat(e, n - 1), e);
    }
  }

  /** Failures of the documented kinds can never open the circuit exactly for configurations whose
      trip codes contain none of them; the others are accepted without complaint. */
  lemma DocumentedFailuresNeverOpen(cfg: Config)
    requires cfg.Valid()
    ensures (forall es :: DocumentedOnly(es) ==> Run(cfg, INITIAL, es).state.Closed?)
            <==> cfg.tripCodes !! DOCUMENTED_CODES
    ensures cfg.tripCodes !! DOCUMENTED_CODES
            <==> cfg.tripCodes <= DEFAULT_RETRYABLE_CODES + {SIDE_EFFECT_UNKNOWN}
  {
    if cfg.tripCodes !! DOCUMENTED_CODES {
      forall es | DocumentedOnly(es) ensures Run(cfg, INITIAL, es).state.Closed? {
        IneligibleNeverOpens(cfg, es);
      }
      forall code | code in cfg.tripCodes ensures code in DEFAULT_RETRYABLE_CODES + {SIDE_EFFECT_UNKNOWN} {
        EveryCodeIsListed(code);
      }
    } else {
      var code :| code in cfg.tripCodes && code in DOCUMENTED_CODES;
      var es := Repeat(Event(Failure(Some(code)), 0.0), cfg.threshold);
      RepeatedFailureCounts(cfg, code, 0.0, cfg.threshold);
      assert DocumentedOnly(es) && !Run(cfg, INITIAL, es).state.Closed?;
    }
  }

  lemma EveryCodeIsListed(code: Code)
    ensures code in DOCUMENTED_CODES || code in DEFAULT_RETRYABLE_CODES || code == SIDE_EFFECT_UNKNOWN
  {
  }

  /** One such configuration: a single authorization failure opens the circuit. */
  lemma AuthFailureOpens()
    ensures var cfg := Config(1, 30.0, {AUTH});
            cfg.Valid() && AUTH in DOCUMENTED_CODES
            && Run(cfg, INITIAL, [Event(Failure(Some(AUTH)), 0.0)]) == Snapshot(Open, 1, Some(0.0))
  {
    var cfg, e := Config(1, 30.0, {AUTH}), Event(Failure(Some(AUTH)), 0.0);
    RunAppend(cfg, INITIAL, [], e);
    assert [] + [e] == [e];
  }

  function Effective(cfg: Config, es: seq<Event>): seq<Event> {
    if es == [] then []
    else
      var e := es[|es| - 1];
      Effective(cfg, es[..|es| - 1]) + if Ignored(cfg, e) then [] else [e]
  }

  /** Deleting every ineligible failure from a history leaves the breaker in the same state. */
  lemma {:induction false} IneligibleFailuresLeaveNoTrace(cfg: Config, from: Snapshot, es: seq<Event>)
    ensures Run(cfg, from, Effective(cfg, es)) == Run(cfg, from, es)
  {
    if es == [] {
    } else {
      var n := |es| - 1;
      var fewer := Effective(cfg, es[..n]);
      IneligibleFailuresLeaveNoTrace(cfg, from, es[..n]);
      if Ignored(cfg, es[n]) {
        assert fewer + [] == fewer;
      } else {
        RunAppend(cfg, from, fewer, es[n]);
      }
    }
  }

  // ---- what the count means, and when the circuit opens ----

  // Eligible failures reported since the last success, or since the start.
  function Streak(cfg: Config, es: seq<Event>): nat {
    if es == [] || es[|es| - 1].kind.Success? then 0
    else Streak(cfg, es[..|es| - 1]) + if Eligible(cfg, es[|es| - 1]) then 1 else 0
  }

  predicate Eligible(cfg: Config, e: Event) {
    e.kind.Failure? && cfg.IsEligible(e.kind.code)
  }

  lemma {:induction false} ClosedCountIsTheStreak(cfg: Config, es: seq<Event>)
    requires cfg.Valid() && Run(cfg, INITIAL, es).state.Closed?
    ensures Run(cfg, INITIAL, es).failures == Streak(cfg, es) < cfg.threshold
  {
    if es == [] {
    } else {
      var n := |es| - 1;
      RunIsSound(cfg, INITIAL, es);
      if Run(cfg, INITIAL, es[..n]).state.Closed? {
        ClosedCountIsTheStreak(cfg, es[..n]);
      }
    }
  }

  // Event `i` opens the circuit.
  ghost predicate Opens(cfg: Config, es: seq<Event>, i: nat)
    requires i < |es|
  {
    !Run(cfg, INITIAL, es[..i]).state.Open? && Run(cfg, INITIAL, es[..i + 1]).state.Open?
  }

  /** A closed circuit opens exactly on the eligible failure that completes the streak; a
      half-open one on any eligible failure. */
  lemma OpensExactlyWhen(cfg: Config, es: seq<Event>, i: nat)
    requires cfg.Valid() && i < |es|
    ensures var state := Run(cfg, INITIAL, es[..i]).state;
            && (state.Closed? ==> (Opens(cfg, es, i) <==>
                                     Eligible(cfg, es[i]) && Streak(cfg, es[..i]) == cfg.threshold - 1))
            && (state.HalfOpen? ==> (Opens(cfg, es, i) <==> Eligible(cfg, es[i])))
  {
    RunStep(cfg, INITIAL, es, i);
    if Run(cfg, INITIAL, es[..i]).state.Closed? {
      ClosedCountIsTheStreak(cfg, es[..i]);
    }
  }

  // ---- the cooldown ----

  /** The way back: a circuit closes exactly on a success while half-open, and becomes half-open
      exactly on a request that finds it open for a cooldown or longer. */
  lemma RecoversExactlyWhen(cfg: Config, es: seq<Event>, i: nat)
    requires cfg.Valid() && i < |es|
    ensures var before, after := Run(cfg, INITIAL, es[..i]), Run(cfg, INITIAL, es[..i + 1]).state;
            && (!before.state.Closed? ==> (after.Closed? <==> before.state.HalfOpen? && es[i].kind.Success?))
            && (!before.state.HalfOpen? ==>
                  (after.HalfOpen? <==> && before.state.Open? && es[i].kind.Allow? && before.openedAt.Some?
                                        && es[i].at >= before.openedAt.value + cfg.cooldown))
  {
    RunStep(cfg, INITIAL, es, i);
  }

  /** An opening records when it happened, and counts the whole streak or the failed probe. */
  lemma OpeningIsRecorded(cfg: Config, es: seq<Event>, i: nat)
    requires cfg.Valid() && i < |es| && Opens(cfg, es, i)
    ensures Run(cfg, INITIAL, es[..i + 1])
            == Snapshot(Open, if Run(cfg, INITIAL, es[..i]).state.Closed? then cfg.threshold else 1, Some(es[i].at))
  {
    RunStep(cfg, INITIAL, es, i);
    RunIsSound(cfg, INITIAL, es[..i]);
  }

  lemma {:induction false} StaysOpen(cfg: Config, es: seq<Event>, i: nat, j: nat)
    requires cfg.Valid() && Ordered(es) && i <= j < |es| && Opens(cfg, es, i)
    requires es[j].at < es[i].at + cfg.cooldown
    ensures Run(cfg, INITIAL, es[..j + 1]) == Run(cfg, INITIAL, es[..i + 1])
    decreases j
  {
    hide Run;
    if j > i {
      OpeningIsRecorded(cfg, es, i);
      StaysOpen(cfg, es, i, j - 1);
      RunStep(cfg, INITIAL, es, j);
    }
  }

  /** From an opening until the cooldown has passed, no request is admitted. */
  lemma NothingAdmittedWhileCooling(cfg: Config, es: seq<Event>, i: nat, j: nat)
    requires cfg.Valid() && Ordered(es) && i < j < |es| && Opens(cfg, es, i)
    requires es[j].kind.Allow? && es[j].at < es[i].at + cfg.cooldown
    ensures Answer(cfg, INITIAL, es, j) == Blocked
  {
    StaysOpen(cfg, es, i, j - 1);
    OpeningIsRecorded(cfg, es, i);
  }

  // Event `i` has opened the circuit less than a cooldown before event `j`.
  ghost predicate CoolingFrom(cfg: Config, es: seq<Event>, i: nat, j: nat)
    requires j < |es|
  {
    i < j && Opens(cfg, es, i) && es[j].at < es[i].at + cfg.cooldown
  }

  // An open circuit was opened by an event of its history, at the time it remembers.
  lemma {:induction false} OpenSince(cfg: Config, es: seq<Event>, j: nat) returns (i: nat)
    requires cfg.Valid() && j < |es| && Run(cfg, INITIAL, es[..j]).state.Open?
    ensures i < j && Opens(cfg, es, i) && Run(cfg, INITIAL, es[..j]).openedAt == Some(es[i].at)
    decreases j
  {
    hide Run;
    RunNothing(cfg, INITIAL);
    assert es[..0] == [];
    RunStep(cfg, INITIAL, es, j - 1);
    if Run(cfg, INITIAL, es[..j - 1]).state.Open? {
      i := OpenSince(cfg, es, j - 1);
    } else {
      i := j - 1;
      OpeningIsRecorded(cfg, es, i);
    }
  }

  /** The gate, decided by the history alone: a request is blocked exactly when the circuit was opened
      less than a cooldown before, and admitted otherwise, a new breaker's first request included. */
  lemma BlockedExactlyWhen(cfg: Config, es: seq<Event>, j: nat)
    requires cfg.Valid() && Ordered(es) && j < |es| && es[j].kind.Allow?
    ensures Answer(cfg, INITIAL, es, j) == if exists i: nat :: CoolingFrom(cfg, es, i, j) then Blocked else Admitted
  {
    hide Run, Opens, Ordered;
    var s := Run(cfg, INITIAL, es[..j]);
    if s.state.Open? {
      var i := OpenSince(cfg, es, j);
      if Cooled(cfg, s, es[j].at) {
        forall k: nat ensures !CoolingFrom(cfg, es, k, j) {
          if CoolingFrom(cfg, es, k, j) {
            StaysOpenThrough(cfg, es, k, j);
          }
        }
      } else {
        assert CoolingFrom(cfg, es, i, j);
      }
    } else {
      forall k: nat ensures !CoolingFrom(cfg, es, k, j) {
        if CoolingFrom(cfg, es, k, j) {
          StaysOpenThrough(cfg, es, k, j);
        }
      }
    }
  }

  lemma StaysOpenThrough(cfg: Config, es: seq<Event>, i: nat, j: nat)
    requires cfg.Valid() && Ordered(es) && j < |es| && CoolingFrom(cfg, es, i, j)
    ensures Run(cfg, INITIAL, es[..j]).state.Open? && Run(cfg, INITIAL, es[..j]).openedAt == Some(es[i].at)
  {
    hide Run;
    OpeningIsRecorded(cfg, es, i);
    StaysOpen(cfg, es, i, j - 1);
  }

  /** Two openings are at least one cooldown apart. */
  lemma OpeningsAreApart(cfg: Config, es: seq<Event>, i: nat, j: nat)
    requires cfg.Valid() && Ordered(es) && i < j < |es| && Opens(cfg, es, i) && Opens(cfg, es, j)
    ensures es[j].at >= es[i].at + cfg.cooldown
  {
    if es[j].at < es[i].at + cfg.cooldown {
      StaysOpen(cfg, es, i, j - 1);
    }
  }

  /** The first request after the cooldown is admitted, and so is every further one until an
      outcome is reported: half-open does not limit probes to one. */
  lemma {:induction false} EveryProbeIsAdmitted(cfg: Config, s: Snapshot, es: seq<Event>, i: nat)
    requires s.state.Open? ==> es != [] && Cooled(cfg, s, es[0].at)
    requires !s.state.Closed? && (forall k :: 0 <= k < |es| ==> es[k].kind.Allow?) && i < |es|
    ensures Answer(cfg, s, es, i) == Admitted && Run(cfg, s, es[..i + 1]).state.HalfOpen?
  {
    RunStep(cfg, s, es, i);
    if i == 0 {
    } else {
      EveryProbeIsAdmitted(cfg, s, es, i - 1);
    }
  }

  // ---- many breakers on one durable store, taking turns ----

  datatype Fleet = Fleet(memories: map<int, Snapshot>, stored: Option<Snapshot>)

  /** `Build` replaces a breaker by a new one, as a restart does; `Do` lets a breaker serve. */
  datatype Op = Build(who: int) | Do(who: int, event: Event)

  // A breaker that does not exist yet is built when it is first asked for.
  function MemoryOf(f: Fleet, who: int): Snapshot {
    if who in f.memories then f.memories[who] else Refresh(INITIAL, f.stored)
  }

  // One whole operation of a breaker on the store: refresh, act, save.
  function Operate(cfg: Config, memory: Snapshot, stored: Option<Snapshot>, e: Event): Turn {
    if Ignored(cfg, e) then Turn(memory, false, Recorded) else Act(cfg, Refresh(memory, stored), e)
  }

  function FleetStep(cfg: Config, f: Fleet, op: Op): (Fleet, Reply) {
    match op
    case Build(who) => (f.(memories := f.memories[who := Refresh(INITIAL, f.stored)]), Recorded)
    case Do(who, e) =>
      var t := Operate(cfg, MemoryOf(f, who), f.stored, e);
      (Fleet(f.memories[who := t.memory], if t.saves then Some(t.memory) else f.stored), t.reply)
  }

  function FleetRun(cfg: Config, stored: Option<Snapshot>, ops: seq<Op>): (s: (Fleet, seq<Reply>)) {
    if ops == [] then (Fleet(map[], stored), [])
    else
      var before := FleetRun(cfg, stored, ops[..|ops| - 1]);
      var (f, reply) := FleetStep(cfg, before.0, ops[|ops| - 1]);
      (f, if ops[|ops| - 1].Do? then before.1 + [reply] else before.1)
  }

  function Events(ops: seq<Op>): seq<Event> {
    if ops == [] then []
    else Events(ops[..|ops| - 1]) + if ops[|ops| - 1].Do? then [ops[|ops| - 1].event] else []
  }

  function Durable(stored: Option<Snapshot>): Snapshot {
    Refresh(INITIAL, stored)
  }

  // Before anything is saved, no breaker can remember anything.
  ghost predicate Consistent(f: Fleet) {
    f.stored.None? ==> forall who :: who in f.memories ==> f.memories[who] == INITIAL
  }

  lemma FleetStepRefines(cfg: Config, f: Fleet, op: Op)
    requires cfg.Valid() && Consistent(f) && Durable(f.stored).failures >= 0
    ensures var (f', reply) := FleetStep(cfg, f, op);
            && Consistent(f') && Durable(f'.stored).failures >= 0
            && (op.Build? ==> Durable(f'.stored) == Durable(f.stored))
            && (op.Do? ==> Act(cfg, Durable(f.stored), op.event)
                           == Turn(Durable(f'.stored), Act(cfg, Durable(f.stored), op.event).saves, reply))
  {
  }

  /** Breakers rebuilt at any points and taking turns on one store reply to every operation as a
      single breaker would that was never restarted and kept its state in memory, down to the failing
      assertions of a store that began open without an opening time. */
  lemma {:induction false} RestartsAreInvisible(cfg: Config, stored: Option<Snapshot>, ops: seq<Op>)
    requires cfg.Valid()
    ensures var (f, replies) := FleetRun(cfg, stored, ops);
            && Consistent(f) && Durable(f.stored) == Run(cfg, Durable(stored), Events(ops))
            && Durable(f.stored).failures >= 0
            && |replies| == |Events(ops)|
            && forall i :: 0 <= i < |replies| ==> replies[i] == Answer(cfg, Durable(stored), Events(ops), i)
  {
    if ops == [] {
    } else {
      var n := |ops| - 1;
      var op, es := ops[n], Events(ops[..n]);
      RestartsAreInvisible(cfg, stored, ops[..n]);
      var (f, replies) := FleetRun(cfg, stored, ops[..n]);
      FleetStepRefines(cfg, f, op);
      if op.Do? {
        RunAppend(cfg, Durable(stored), es, op.event);
        forall i | 0 <= i <= |es| ensures (es + [op.event])[..i] == es[..i] {
        }
      } else {
        assert es + [] == es;
      }
    }
  }

  // ---- workers whose load and save interleave ----

  datatype Worker = Worker(memory: Snapshot, loaded: Option<Event>)

  datatype Shop = Shop(workers: map<int, Worker>, stored: Option<Snapshot>)

  /** `Load` starts an operation by reading the store; `Finish` acts on what was read and saves. */
  datatype Move = Load(w: int, event: Event) | Finish(w: int)

  function WorkerOf(s: Shop, w: int): Worker {
    if w in s.workers then s.workers[w] else Worker(Refresh(INITIAL, s.stored), None)
  }

  function ShopStep(cfg: Config, s: Shop, m: Move): Shop {
    var worker := WorkerOf(s, m.w);
    match m
    case Load(w, e) =>
      if Ignored(cfg, e) || worker.loaded.Some? then s
      else s.(workers := s.workers[w := Worker(Refresh(worker.memory, s.stored), Some(e))])
    case Finish(w) =>
      if worker.loaded.None? then s
      else
        var t := Act(cfg, worker.memory, worker.loaded.value);
        Shop(s.workers[w := Worker(t.memory, None)], if t.saves then Some(t.memory) else s.stored)
  }

  function ShopRun(cfg: Config, stored: Option<Snapshot>, ms: seq<Move>): Shop {
    if ms == [] then Shop(map[], stored)
    else ShopStep(cfg, ShopRun(cfg, stored, ms[..|ms| - 1]), ms[|ms| - 1])
  }

  ghost predicate ShopSound(cfg: Config, s: Shop) {
    && (s.stored.Some? ==> Sound(cfg, s.stored.value))
    && forall w :: w in s.workers ==> Sound(cfg, s.workers[w].memory)
  }

  /** However loads and saves of different workers interleave, every snapshot that reaches the
      store, and every memory, is sound. */
  lemma {:induction false} SavedSnapshotsAreSound(cfg: Config, stored: Option<Snapshot>, ms: seq<Move>)
    requires cfg.Valid() && (stored.Some? ==> Sound(cfg, stored.value))
    ensures ShopSound(cfg, ShopRun(cfg, stored, ms))
  {
    if ms == [] {
    } else {
      var n := |ms| - 1;
      SavedSnapshotsAreSound(cfg, stored, ms[..n]);
      var s := ShopRun(cfg, stored, ms[..n]);
      assert Sound(cfg, WorkerOf(s, ms[n].w).memory);
      if ms[n].Finish? && WorkerOf(s, ms[n].w).loaded.Some? {
        ActKeepsSound(cfg, WorkerOf(s, ms[n].w).memory, WorkerOf(s, ms[n].w).loaded.value);
      }
    }
  }

  // ---- the classes ----

  class CircuitStateStore {
    var saved: map<string, Snapshot>

    constructor ()
      ensures saved == map[]
    {
      saved := map[];
    }

    function Find(providerId: string): Option<Snapshot>
      reads this
    {
      if providerId in saved then Some(saved[providerId]) else None
    }

    method Load(providerId: string) returns (snapshot: Option<Snapshot>)
      ensures snapshot == Find(providerId)
    {
      snapshot := if providerId in saved then Some(saved[providerId]) else None;
    }

    method Save(providerId: string, snapshot: Snapshot)
      modifies this
      ensures saved == old(saved)[providerId := snapshot]
    {
      saved := saved[providerId := snapshot];
    }
  }

  class CircuitBreaker {
    const config: Config
    const providerId: string
    const store: CircuitStateStore?
    var state: State
    var failures: int
    var openedAt: Option<real>

    function Memory(): Snapshot
      reads this
    {
      Snapshot(state, failures, openedAt)
    }

    // What the store holds for this provider; a breaker without a store never finds anything.
    function Stored(): Option<Snapshot>
      reads store
    {
      if store == null then None else store.Find(providerId)
    }

    /** The state the breaker will act on next. */
    function Current(): Snapshot
      reads this, store
    {
      Refresh(Memory(), Stored())
    }

    ghost predicate Valid()
      reads this, store
    {
      && config.Valid() && (store != null ==> providerId != "")
      && Current().failures >= 0
      && (store != null && Stored().None? ==> Memory() == INITIAL)
    }

    // What an operation that ends in `t` leaves behind, given what the store held before.
    twostate predicate Left(t: Turn)
      reads this, store
    {
      && Memory() == t.memory
      && (store != null ==> store.saved == if t.saves then old(store.saved)[providerId := t.memory] else old(store.saved))
    }

    constructor (config: Config, providerId: string, store: CircuitStateStore?)
      requires config.Valid()
      requires store != null ==> providerId != ""
      ensures Valid() && this.config == config && this.providerId == providerId && this.store == store
      ensures Memory() == if store == null then INITIAL else Refresh(INITIAL, store.Find(providerId))
    {
      this.config, this.providerId, this.store := config, providerId, store;
      state, failures, openedAt := Closed, 0, None;
      new;
      DoRefresh();
    }

    method DoRefresh()
      modifies this
      ensures Memory() == old(Current()) && Current() == old(Current())
    {
      if store == null {
        return;
      }
      var snapshot := store.Load(providerId);
      if snapshot.None? {
        return;
      }
      state, openedAt := snapshot.value.state, snapshot.value.openedAt;
      failures := if snapshot.value.failures < 0 then 0 else snapshot.value.failures;
    }

    method Persist()
      requires failures >= 0
      modifies store
      ensures Memory() == old(Memory()) && Left(Turn(Memory(), true, Recorded))
    {
      if store == null {
        return;
      }
      store.Save(providerId, Snapshot(state, failures, openedAt));
    }

    /** The gate before a dispatch. The clock is only read when the circuit is open; an open circuit
        without an opening time fails the assertion. */
    method AllowRequest(now: real) returns (reply: Reply)
      requires Valid()
      modifies this, store
      ensures Valid() && Left(Operate(config, old(Memory()), old(Stored()), Event(Allow, now)))
      ensures Current() == Act(config, old(Current()), Event(Allow, now)).memory
      ensures reply == Act(config, old(Current()), Event(Allow, now)).reply
    {
      DoRefresh();
      reply := Admitted;
      if state.Open? {
        if openedAt.None? {
          return Crashed;
        }
        if now - openedAt.value >= config.cooldown {
          state := HalfOpen;
          Persist();
        } else {
          reply := Blocked;
        }
      }
    }

    method RecordSuccess(ghost now: real)
      requires Valid()
      modifies this, store
      ensures Valid() && Left(Operate(config, old(Memory()), old(Stored()), Event(Success, now)))
      ensures Current() == Act(config, old(Current()), Event(Success, now)).memory
    {
      DoRefresh();
      if !state.Open? {
        failures, openedAt := 0, None;
        if state.HalfOpen? {
          state := Closed;
        }
        Persist();
      }
    }

    method RecordFailure(code: Option<Code>, now: real)
      requires Valid()
      modifies this, store
      ensures Valid() && Left(Operate(config, old(Memory()), old(Stored()), Event(Failure(code), now)))
      ensures Current() == Act(config, old(Current()), Event(Failure(code), now)).memory
    {
      if !config.IsEligible(code) {
        return;
      }
      DoRefresh();
      if state.HalfOpen? {
        state, failures, openedAt := Open, 1, Some(now);
        Persist();
      } else if state.Closed? {
        failures := failures + 1;
        if failures >= config.threshold {
          state, openedAt := Open, Some(now);
        }
        Persist();
      }
    }
  }
}
