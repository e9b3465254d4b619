/** Opaque references to page elements: the registry that scopes them. */
module ElementRefs {
  import opened Wrappers

  type Path = seq<nat>

  datatype FrameId = Main | Nested(index: nat)

  // What a reference remembers of its element's identity.
  datatype Fingerprint = Fingerprint(tag: string, role: string, name: string, inputType: string)

  datatype Record = Record(tabId: string, frameId: FrameId, generation: int, url: string, origin: string,
                           fingerprint: Fingerprint, path: Path, created: real, ttl: real) {
    predicate Expired(now: real) {
      now - created > ttl
    }
  }

  type Refs = map<string, Record>

  type Generations = map<string, int>

  /** References and snapshot generations of every session. */
  datatype Store = Store(refs: map<string, Refs>, generations: map<string, Generations>) {
    function RefsOf(session: string): Refs {
      if session in refs then refs[session] else map[]
    }

    function GenerationsOf(session: string): Generations {
      if session in generations then generations[session] else map[]
    }

    function Generation(session: string, tab: string): int {
      var gens := GenerationsOf(session);
      if tab in gens then gens[tab] else 0
    }
  }

  const EMPTY := Store(map[], map[])

  // ---- the registry's operations ----

  function Bumped(st: Store, session: string, tab: string): map<string, Generations> {
    st.generations[session := st.GenerationsOf(session)[tab := st.Generation(session, tab) + 1]]
  }

  // A session's references that are not the tab's, or not yet expired.
  function Unexpired(refs: Refs, tab: string, now: real): Refs {
    map r | r in refs && !(refs[r].tabId == tab && refs[r].Expired(now)) :: refs[r]
  }

  function OfOtherTabs(refs: Refs, tab: string): Refs {
    map r | r in refs && refs[r].tabId != tab :: refs[r]
  }

  function BeginSnapshot(st: Store, session: string, tab: string, now: real): Store {
    Store(if session in st.refs then st.refs[session := Unexpired(st.refs[session], tab, now)] else st.refs,
          Bumped(st, session, tab))
  }

  function Register(st: Store, session: string, ref: string, record: Record): Store {
    st.(refs := st.refs[session := st.RefsOf(session)[ref := record]])
  }

  // Registering adds one reference to one session.
  lemma RegisterFrame(st: Store, session: string, ref: string, record: Record)
    ensures var after := Register(st, session, ref, record);
            && after.RefsOf(session) == st.RefsOf(session)[ref := record]
            && (forall s :: s != session ==> after.RefsOf(s) == st.RefsOf(s))
            && (forall s, tab :: after.Generation(s, tab) == st.Generation(s, tab))
  {
  }

  function InvalidateTab(st: Store, session: string, tab: string): Store {
    Store(if session in st.refs then st.refs[session := OfOtherTabs(st.refs[session], tab)] else st.refs,
          Bumped(st, session, tab))
  }

  function InvalidateSession(st: Store, session: string): Store {
    Store(st.refs - {session}, st.generations - {session})
  }

  datatype Refusal =
    | Unknown | FrameGone
    | Expired | OtherTab | Stale | PageChanged | OriginChanged
    | NoMatch | ManyMatches | Moved

  /** The first scope a reference is used outside of, if any. */
  function CheckScope(r: Record, tab: string, url: string, generation: int, origin: string, now: real): Option<Refusal> {
    if r.Expired(now) then Some(Expired)
    else if r.tabId != tab then Some(OtherTab)
    else if r.generation != generation then Some(Stale)
    else if r.url != url then Some(PageChanged)
    else if r.origin != origin then Some(OriginChanged)
    else None
  }

  // ---- every sequence of operations ----

  /** Registering gives the tab's current generation to a token never issued before. */
  datatype Op =
    | Tick(to: real)
    | Snapshot(session: string, tab: string)
    | Issue(session: string, tab: string, ref: string, frameId: FrameId, url: string, origin: string,
            fingerprint: Fingerprint, path: Path, ttl: real)
    | DropTab(session: string, tab: string)
    | DropSession(session: string)

  datatype World = World(store: Store, issued: set<string>, now: real)

  function Step(w: World, op: Op): World {
    match op
    case Tick(to) => if to > w.now then w.(now := to) else w
    case Snapshot(s, tab) => w.(store := BeginSnapshot(w.store, s, tab, w.now))
    case Issue(s, tab, ref, frame, url, origin, fp, path, ttl) =>
      if ref in w.issued then w
      else World(Register(w.store, s, ref, Record(tab, frame, w.store.Generation(s, tab), url, origin, fp, path, w.now, ttl)),
                 w.issued + {ref}, w.now)
    case DropTab(s, tab) => w.(store := InvalidateTab(w.store, s, tab))
    case DropSession(s) => w.(store := InvalidateSession(w.store, s))
  }

  function Run(w: World, ops: seq<Op>): World {
    if ops == [] then w else Step(Run(w, ops[..|ops| - 1]), ops[|ops| - 1])
  }

  // A stored reference was issued, and belongs to no later generation than its tab's.
  predicate SoundRef(w: World, session: string, ref: string) {
    var refs := w.store.RefsOf(session);
    ref in refs ==> ref in w.issued && refs[ref].generation <= w.store.Generation(session, refs[ref].tabId)
  }

  ghost predicate Sound(w: World) {
    forall s: string, r: string :: SoundRef(w, s, r)
  }

  /** A reference that could still pass: stored, of its tab's current generation, unexpired. */
  predicate Live(w: World, session: string, ref: string) {
    var refs := w.store.RefsOf(session);
    && ref in refs
    && refs[ref].generation == w.store.Generation(session, refs[ref].tabId)
    && !refs[ref].Expired(w.now)
  }

  lemma EmptyIsSound(now: real)
    ensures Sound(World(EMPTY, {}, now))
  {
  }

  lemma StepKeepsSound(w: World, op: Op)
    requires Sound(w)
    ensures Sound(Step(w, op))
  {
    forall s: string, r: string ensures SoundRef(Step(w, op), s, r) {
      assert SoundRef(w, s, r);
    }
  }

  lemma {:induction false} StoredGenerationsNeverLead(w: World, ops: seq<Op>)
    requires Sound(w)
    ensures Sound(Run(w, ops))
  {
    if ops == [] {
    } else {
      StoredGenerationsNeverLead(w, ops[..|ops| - 1]);
      StepKeepsSound(Run(w, ops[..|ops| - 1]), ops[|ops| - 1]);
    }
  }

  lemma DeadStaysDeadStep(w: World, op: Op, session: string, ref: string)
    requires Sound(w) && ref in w.issued && !Live(w, session, ref)
    ensures ref in Step(w, op).issued && !Live(Step(w, op), session, ref)
  {
    assert SoundRef(w, session, ref);
  }

  /** A reference that has been issued and is no longer live never becomes live again. */
  lemma {:induction false} DeadStaysDead(w: World, ops: seq<Op>, session: string, ref: string)
    requires Sound(w) && ref in w.issued && !Live(w, session, ref)
    ensures ref in Run(w, ops).issued && !Live(Run(w, ops), session, ref)
  {
    if ops == [] {
    } else {
      var n := |ops| - 1;
      DeadStaysDead(w, ops[..n], session, ref);
      StoredGenerationsNeverLead(w, ops[..n]);
      DeadStaysDeadStep(Run(w, ops[..n]), ops[n], session, ref);
    }
  }

  /** What ends a reference's life: a later snapshot of its tab, dropping its tab or its
      session, and outliving its time. */
  lemma EndsOfLife(w: World, op: Op, session: string, ref: string)
    requires Sound(w) && Live(w, session, ref)
    ensures var r := w.store.RefsOf(session)[ref];
            Live(Step(w, op), session, ref) <==>
              && op != Snapshot(session, r.tabId) && op != DropTab(session, r.tabId) && op != DropSession(session)
              && !(op.Tick? && op.to - r.created > r.ttl)
  {
    assert SoundRef(w, session, ref);
  }

  /** Passing the scope check, with any tab, address and origin, takes a live reference; and a
      live one passes when used on its own tab, address and origin. */
  lemma OnlyLivePass(w: World, session: string, ref: string, tab: string, url: string, origin: string)
    requires ref in w.store.RefsOf(session)
    ensures var r := w.store.RefsOf(session)[ref];
            CheckScope(r, tab, url, w.store.Generation(session, tab), origin, w.now).None?
            <==> Live(w, session, ref) && tab == r.tabId && url == r.url && origin == r.origin
  {
  }

  /** A newer snapshot makes a live reference stale rather than unknown: it is kept until it
      expires, so that using it is told apart from using one never issued. */
  lemma SupersededIsStale(w: World, session: string, ref: string)
    requires Sound(w) && Live(w, session, ref)
    ensures var r := w.store.RefsOf(session)[ref];
            var after := BeginSnapshot(w.store, session, r.tabId, w.now);
            && ref in after.RefsOf(session) && after.RefsOf(session)[ref] == r
            && CheckScope(r, r.tabId, r.url, after.Generation(session, r.tabId), r.origin, w.now) == Some(Stale)
  {
  }

  // ---- the registry ----

  class ElementReferenceRegistry {
    const ttlSeconds: real
    var refs: map<string, Refs>
    var generations: map<string, Generations>

    function State(): Store
      reads this
    {
      Store(refs, generations)
    }

    constructor (ttlSeconds: real)
      requires ttlSeconds > 0.0
      ensures this.ttlSeconds == ttlSeconds && State() == EMPTY
    {
      this.ttlSeconds := ttlSeconds;
      refs, generations := map[], map[];
    }

    method Snapshot(session: string, tab: string, now: real) returns (generation: int)
      modifies this
      ensures State() == BeginSnapshot(old(State()), session, tab, now)
      ensures generation == old(State()).Generation(session, tab) + 1 == State().Generation(session, tab)
    {
      if session !in generations {
        generations := generations[session := map[]];
      }
      generation := (if tab in generations[session] then generations[session][tab] else 0) + 1;
      generations := generations[session := generations[session][tab := generation]];
      if session in refs {
        var mine := refs[session];
        var expired := set r | r in mine && mine[r].tabId == tab && mine[r].Expired(now);
        refs := refs[session := mine - expired];
        assert mine - expired == Unexpired(mine, tab, now);
      }
    }

    method Enrol(session: string, token: string, tab: string, frameId: FrameId, generation: int, url: string,
                 origin: string, fingerprint: Fingerprint, path: Path, now: real)
      returns (ref: string)
      modifies this`refs
      ensures ref == "er_" + token
      ensures State() == Register(old(State()), session, ref,
                                  Record(tab, frameId, generation, url, origin, fingerprint, path, now, ttlSeconds))
    {
      ref := "er_" + token;
      var mine := if session in refs then refs[session] else map[];
      refs := refs[session := mine[ref := Record(tab, frameId, generation, url, origin, fingerprint, path, now, ttlSeconds)]];
    }

    function Get(session: string, ref: string): (record: Option<Record>)
      reads this
      ensures record.Some? <==> ref in State().RefsOf(session)
    {
      if session in refs && ref in refs[session] then Some(refs[session][ref]) else None
    }

    method ForgetTab(session: string, tab: string)
      modifies this
      ensures State() == InvalidateTab(old(State()), session, tab)
    {
      if session in refs {
        var mine := refs[session];
        var gone := set r | r in mine && mine[r].tabId == tab;
        refs := refs[session := mine - gone];
        assert mine - gone == OfOtherTabs(mine, tab);
      }
      var gens := if session in generations then generations[session] else map[];
      generations := generations[session := gens[tab := (if tab in gens then gens[tab] else 0) + 1]];
    }

    method ForgetSession(session: string)
      modifies this
      ensures State() == InvalidateSession(old(State()), session)
    {
      refs, generations := refs - {session}, generations - {session};
    }
  }
}
