/** The offline browser: walking pages, issuing element references, resolving them again. */
module PageInspection {
  import opened Wrappers
  import opened ElementRefs
  import opened ProviderErrors

  /** A parsed element. `src` is its trimmed source attribute, empty if it has none. */
  datatype Node = Node(tag: string, src: string, children: seq<Node>)

  const SHADOW := "__shadow__"

  datatype Spot = Spot(node: Node, path: Path)

  datatype Desc = Desc(fingerprint: Fingerprint, path: Path)

  datatype Frame = Frame(id: FrameId, url: string, html: string)

  datatype Tab = Tab(tabId: string, url: string, html: string)

  /** What lies outside this file: parsing, describing an element of a page (None when it is not
      usable), joining addresses, the origin of an address, and the pages that exist. */
  datatype Web = Web(parse: string -> seq<Node>,
                     describe: (string, string, Path) -> Option<Fingerprint>,
                     join: (string, string) -> string,
                     originOf: string -> string,
                     pages: map<string, string>)

  // ---- walking a tree ----

  /** The nodes of `nodes[i..]` and below, in document order, each with its position. */
  function Collected(nodes: seq<Node>, path: Path, i: nat): seq<Spot>
    requires i <= |nodes|
    decreases nodes, |nodes| - i
  {
    if i == |nodes| then []
    else if nodes[i].tag == SHADOW then Collected(nodes, path, i + 1)
    else [Spot(nodes[i], path + [i])] + Collected(nodes[i].children, path + [i], 0) + Collected(nodes, path, i + 1)
  }

  method Collect(nodes: seq<Node>, path: Path, before: seq<Spot>) returns (spots: seq<Spot>)
    ensures spots == before + Collected(nodes, path, 0)
    decreases nodes
  {
    spots := before;
    for i := 0 to |nodes|
      invariant spots + Collected(nodes, path, i) == before + Collected(nodes, path, 0)
    {
      if nodes[i].tag != SHADOW {
        ghost var prior := spots;
        spots := spots + [Spot(nodes[i], path + [i])];
        spots := Collect(nodes[i].children, path + [i], spots);
        assert spots + Collected(nodes, path, i + 1) == prior + Collected(nodes, path, i);
      }
    }
  }

  ghost predicate Below(path: Path, from: nat, deeper: Path) {
    |path| < |deeper| && deeper[..|path|] == path && from <= deeper[|path|]
  }

  lemma {:induction false} CollectedIsBelow(nodes: seq<Node>, path: Path, i: nat, k: nat)
    requires i <= |nodes| && k < |Collected(nodes, path, i)|
    ensures Below(path, i, Collected(nodes, path, i)[k].path)
    decreases nodes, |nodes| - i
  {
    if nodes[i].tag == SHADOW {
      CollectedIsBelow(nodes, path, i + 1, k);
    } else {
      var inner := Collected(nodes[i].children, path + [i], 0);
      if 1 <= k <= |inner| {
        CollectedIsBelow(nodes[i].children, path + [i], 0, k - 1);
        var p := inner[k - 1].path;
        assert p[..|path|] == p[..|path| + 1][..|path|] == path;
        assert p[|path|] == p[..|path| + 1][|path|] == i;
      } else if k > |inner| {
        CollectedIsBelow(nodes, path, i + 1, k - 1 - |inner|);
      }
    }
  }

  /** No two collected nodes have the same path. */
  lemma {:induction false} PathsAreDistinct(nodes: seq<Node>, path: Path, i: nat, j: nat, k: nat)
    requires i <= |nodes| && j < k < |Collected(nodes, path, i)|
    ensures Collected(nodes, path, i)[j].path != Collected(nodes, path, i)[k].path
    decreases nodes, |nodes| - i
  {
    if nodes[i].tag == SHADOW {
      PathsAreDistinct(nodes, path, i + 1, j, k);
    } else {
      var inner, later := Collected(nodes[i].children, path + [i], 0), Collected(nodes, path, i + 1);
      if k <= |inner| {
        CollectedIsBelow(nodes[i].children, path + [i], 0, k - 1);
        if j > 0 {
          PathsAreDistinct(nodes[i].children, path + [i], 0, j - 1, k - 1);
        }
      } else if j > |inner| {
        PathsAreDistinct(nodes, path, i + 1, j - 1 - |inner|, k - 1 - |inner|);
      } else {
        CollectedIsBelow(nodes, path, i + 1, k - 1 - |inner|);
        if j == 0 {
        } else {
          CollectedIsBelow(nodes[i].children, path + [i], 0, j - 1);
          var p := inner[j - 1].path;
          assert p[|path|] == p[..|path| + 1][|path|] == i;
        }
      }
    }
  }

  // ---- which nodes are collected, and in which order ----

  /** The node that a list of child indices leads to. */
  function NodeAt(nodes: seq<Node>, path: Path): Option<Node> {
    if path == [] || path[0] >= |nodes| then None
    else if |path| == 1 then Some(nodes[path[0]])
    else NodeAt(nodes[path[0]].children, path[1..])
  }

  // The path leads to a node, and none of the nodes on its way, the last included, is a shadow placeholder.
  predicate Unshadowed(nodes: seq<Node>, path: Path) {
    forall n :: 1 <= n <= |path| ==> NodeAt(nodes, path[..n]).Some? && NodeAt(nodes, path[..n]).value.tag != SHADOW
  }

  lemma UnshadowedStep(nodes: seq<Node>, path: Path)
    requires path != []
    ensures Unshadowed(nodes, path)
            <==> && path[0] < |nodes| && nodes[path[0]].tag != SHADOW
                 && (|path| > 1 ==> Unshadowed(nodes[path[0]].children, path[1..]))
  {
    assert path[..1] == [path[0]];
    forall n | 2 <= n <= |path| && path[0] < |nodes|
      ensures NodeAt(nodes, path[..n]) == NodeAt(nodes[path[0]].children, path[1..][..n - 1])
    {
      assert path[..n][1..] == path[1..][..n - 1];
    }
    if Unshadowed(nodes, path) && |path| > 1 {
      forall n | 1 <= n <= |path[1..]|
        ensures var at := NodeAt(nodes[path[0]].children, path[1..][..n]); at.Some? && at.value.tag != SHADOW
      {
        assert NodeAt(nodes, path[..n + 1]).Some?;
      }
    }
    if path[0] < |nodes| && nodes[path[0]].tag != SHADOW && (|path| > 1 ==> Unshadowed(nodes[path[0]].children, path[1..])) {
      forall n | 1 <= n <= |path|
        ensures NodeAt(nodes, path[..n]).Some? && NodeAt(nodes, path[..n]).value.tag != SHADOW
      {
        if n > 1 {
          assert NodeAt(nodes[path[0]].children, path[1..][..n - 1]).Some?;
        }
      }
    }
  }

  // What the walk over `nodes[i..]` is to collect.
  predicate Wanted(nodes: seq<Node>, i: nat, deeper: Path, node: Node) {
    deeper != [] && i <= deeper[0] && Unshadowed(nodes, deeper) && NodeAt(nodes, deeper) == Some(node)
  }

  lemma WantedHere(nodes: seq<Node>, i: nat, deeper: Path, node: Node)
    requires i < |nodes|
    ensures Wanted(nodes, i, deeper, node)
            <==> || Wanted(nodes, i + 1, deeper, node)
                 || (nodes[i].tag != SHADOW && deeper == [i] && node == nodes[i])
                 || (nodes[i].tag != SHADOW && |deeper| > 1 && deeper[0] == i
                     && Wanted(nodes[i].children, 0, deeper[1..], node))
  {
    if deeper != [] {
      UnshadowedStep(nodes, deeper);
      if |deeper| == 1 && deeper[0] == i {
        assert deeper == [i];
      }
      hide Unshadowed;
    }
  }

  lemma SpotInParts(first: Spot, inner: seq<Spot>, later: seq<Spot>, spot: Spot)
    ensures spot in [first] + inner + later <==> spot == first || spot in inner || spot in later
  {
  }

  lemma {:induction false} CollectedExactly(nodes: seq<Node>, path: Path, i: nat, deeper: Path, node: Node)
    requires i <= |nodes|
    ensures Spot(node, path + deeper) in Collected(nodes, path, i) <==> Wanted(nodes, i, deeper, node)
    decreases nodes, |nodes| - i
  {
    hide Unshadowed;
    if i == |nodes| {
      if deeper != [] {
        UnshadowedStep(nodes, deeper);
      }
    } else {
      WantedHere(nodes, i, deeper, node);
      CollectedExactly(nodes, path, i + 1, deeper, node);
      if nodes[i].tag != SHADOW {
        var inner, later := Collected(nodes[i].children, path + [i], 0), Collected(nodes, path, i + 1);
        SpotInParts(Spot(nodes[i], path + [i]), inner, later, Spot(node, path + deeper));
        assert path + [i] == path + deeper <==> deeper == [i] by { PrefixCancels(path, [i], deeper); }
        if |deeper| > 1 && deeper[0] == i {
          assert path + deeper == path + [i] + deeper[1..];
          CollectedExactly(nodes[i].children, path + [i], 0, deeper[1..], node);
        } else if Spot(node, path + deeper) in inner {
          var k :| 0 <= k < |inner| && inner[k] == Spot(node, path + deeper);
          CollectedIsBelow(nodes[i].children, path + [i], 0, k);
          StartsWith(path, i, deeper);
        }
      }
    }
  }

  lemma PrefixCancels(path: Path, a: Path, b: Path)
    ensures path + a == path + b <==> a == b
  {
    if path + a == path + b {
      assert a == (path + a)[|path|..] && b == (path + b)[|path|..];
    }
  }

  lemma StartsWith(path: Path, i: nat, deeper: Path)
    requires Below(path + [i], 0, path + deeper)
    ensures |deeper| > 1 && deeper[0] == i
  {
    assert (path + deeper)[..|path| + 1][|path|] == i;
  }

  /** Exactly the nodes that can be reached without passing a shadow placeholder are collected, each
      with its own path. */
  lemma WalkCollectsExactly(nodes: seq<Node>, path: Path, node: Node)
    ensures Spot(node, path) in Collected(nodes, [], 0)
            <==> path != [] && Unshadowed(nodes, path) && NodeAt(nodes, path) == Some(node)
  {
    assert [] + path == path;
    CollectedExactly(nodes, [], 0, path, node);
  }

  // Document order: a node before what is below it, and what is below it before its next sibling.
  ghost predicate Precedes(a: Path, b: Path) {
    exists n :: 0 <= n <= |a| && n < |b| && a[..n] == b[..n] && (n == |a| || a[n] < b[n])
  }

  lemma AncestorPrecedes(path: Path, i: nat, b: Path)
    requires Below(path + [i], 0, b)
    ensures Precedes(path + [i], b)
  {
    assert (path + [i])[..|path| + 1] == b[..|path| + 1];
  }

  lemma SiblingPrecedes(path: Path, i: nat, a: Path, b: Path)
    requires a == path + [i] || Below(path + [i], 0, a)
    requires Below(path, i + 1, b)
    ensures Precedes(a, b)
  {
    assert a[..|path|] == path by {
      if a != path + [i] {
        assert a[..|path|] == a[..|path| + 1][..|path|] == path;
      }
    }
    assert a[|path|] == a[..|path| + 1][|path|] == i;
    assert a[..|path|] == b[..|path|] && a[|path|] < b[|path|];
  }

  /** The nodes are collected in document order. */
  lemma {:induction false} CollectedInOrder(nodes: seq<Node>, path: Path, i: nat, j: nat, k: nat)
    requires i <= |nodes| && j < k < |Collected(nodes, path, i)|
    ensures Precedes(Collected(nodes, path, i)[j].path, Collected(nodes, path, i)[k].path)
    decreases nodes, |nodes| - i
  {
    hide Below, Precedes;
    if nodes[i].tag == SHADOW {
      CollectedInOrder(nodes, path, i + 1, j, k);
    } else {
      var inner, later := Collected(nodes[i].children, path + [i], 0), Collected(nodes, path, i + 1);
      if k <= |inner| {
        CollectedIsBelow(nodes[i].children, path + [i], 0, k - 1);
        if j == 0 {
          AncestorPrecedes(path, i, inner[k - 1].path);
        } else {
          CollectedInOrder(nodes[i].children, path + [i], 0, j - 1, k - 1);
        }
      } else if j > |inner| {
        CollectedInOrder(nodes, path, i + 1, j - 1 - |inner|, k - 1 - |inner|);
      } else {
        CollectedIsBelow(nodes, path, i + 1, k - 1 - |inner|);
        if j > 0 {
          CollectedIsBelow(nodes[i].children, path + [i], 0, j - 1);
        }
        SiblingPrecedes(path, i, Collected(nodes, path, i)[j].path, later[k - 1 - |inner|].path);
      }
    }
  }

  // ---- the descriptors of one page ----

  function Described(w: Web, html: string, url: string, spots: seq<Spot>): seq<Desc> {
    if spots == [] then []
    else
      var last := spots[|spots| - 1];
      Described(w, html, url, spots[..|spots| - 1])
        + match w.describe(html, url, last.path)
          case None => []
          case Some(f) => [Desc(f, last.path)]
  }

  function Walk(w: Web, html: string, url: string): seq<Desc> {
    Described(w, html, url, Collected(w.parse(html), [], 0))
  }

  lemma {:induction false} DescribedComesFromSpot(w: Web, html: string, url: string, spots: seq<Spot>, k: nat)
    returns (s: nat)
    requires k < |Described(w, html, url, spots)|
    ensures s < |spots| && Described(w, html, url, spots)[k].path == spots[s].path
  {
    var n := |spots| - 1;
    var fewer := Described(w, html, url, spots[..n]);
    if k < |fewer| {
      s := DescribedComesFromSpot(w, html, url, spots[..n], k);
    } else {
      s := n;
    }
  }

  lemma {:induction false} DescribedAreDistinct(w: Web, html: string, url: string, spots: seq<Spot>, j: nat, k: nat)
    requires forall a, b :: 0 <= a < b < |spots| ==> spots[a].path != spots[b].path
    requires j < k < |Described(w, html, url, spots)|
    ensures Described(w, html, url, spots)[j].path != Described(w, html, url, spots)[k].path
  {
    var n := |spots| - 1;
    var fewer := Described(w, html, url, spots[..n]);
    if k < |fewer| {
      DescribedAreDistinct(w, html, url, spots[..n], j, k);
    } else {
      var s := DescribedComesFromSpot(w, html, url, spots[..n], j);
    }
  }

  lemma {:induction false} DescribedExactly(w: Web, html: string, url: string, spots: seq<Spot>, d: Desc)
    ensures d in Described(w, html, url, spots)
            <==> w.describe(html, url, d.path) == Some(d.fingerprint) && exists s :: 0 <= s < |spots| && spots[s].path == d.path
  {
    if spots == [] {
    } else {
      var n := |spots| - 1;
      DescribedExactly(w, html, url, spots[..n], d);
      assert forall s :: 0 <= s < n ==> spots[..n][s] == spots[s];
      if s :| 0 <= s < |spots| && spots[s].path == d.path {
        assert s < n ==> spots[..n][s].path == d.path;
      }
    }
  }

  /** A page's descriptors are those of the nodes outside shadow placeholders that can be described. */
  lemma WalkDescribesExactly(w: Web, html: string, url: string, d: Desc)
    ensures d in Walk(w, html, url)
            <==> && d.path != [] && Unshadowed(w.parse(html), d.path)
                 && w.describe(html, url, d.path) == Some(d.fingerprint)
  {
    var nodes := w.parse(html);
    var spots := Collected(nodes, [], 0);
    DescribedExactly(w, html, url, spots, d);
    hide Collected, Described;
    if s :| 0 <= s < |spots| && spots[s].path == d.path {
      assert spots[s] in spots;
      WalkCollectsExactly(nodes, d.path, spots[s].node);
    }
    if d.path != [] && Unshadowed(nodes, d.path) {
      assert d.path[..|d.path|] == d.path;
      var node := NodeAt(nodes, d.path).value;
      WalkCollectsExactly(nodes, d.path, node);
      var s :| 0 <= s < |spots| && spots[s] == Spot(node, d.path);
      assert spots[s].path == d.path;
    }
  }

  /** A page's descriptors are told apart by their paths. */
  lemma WalkPathsAreDistinct(w: Web, html: string, url: string, j: nat, k: nat)
    requires j < |Walk(w, html, url)| && k < |Walk(w, html, url)|
    ensures Walk(w, html, url)[j].path == Walk(w, html, url)[k].path <==> j == k
  {
    var spots := Collected(w.parse(html), [], 0);
    forall a, b | 0 <= a < b < |spots| ensures spots[a].path != spots[b].path {
      PathsAreDistinct(w.parse(html), [], 0, a, b);
    }
    if j < k {
      DescribedAreDistinct(w, html, url, spots, j, k);
    } else if k < j {
      DescribedAreDistinct(w, html, url, spots, k, j);
    }
  }

  // ---- frames ----

  function PageAt(w: Web, url: string): string {
    if url in w.pages then w.pages[url] else ""
  }

  function FramesIn(w: Web, url: string, spots: seq<Spot>): seq<Frame> {
    if spots == [] then []
    else
      var before := FramesIn(w, url, spots[..|spots| - 1]);
      var node := spots[|spots| - 1].node;
      if node.tag == "iframe" && node.src != "" then
        before + [Frame(Nested(|before| + 1), w.join(url, node.src), PageAt(w, w.join(url, node.src)))]
      else before
  }

  function Frames(w: Web, tab: Tab): seq<Frame> {
    [Frame(Main, tab.url, tab.html)] + FramesIn(w, tab.url, Collected(w.parse(tab.html), [], 0))
  }

  lemma FramesInStep(w: Web, url: string, spots: seq<Spot>, i: nat)
    requires i < |spots|
    ensures var before, node := FramesIn(w, url, spots[..i]), spots[i].node;
            FramesIn(w, url, spots[..i + 1])
            == before + if node.tag == "iframe" && node.src != ""
                        then [Frame(Nested(|before| + 1), w.join(url, node.src), PageAt(w, w.join(url, node.src)))] else []
  {
    assert spots[..i + 1][..i] == spots[..i];
  }

  method FrameDocuments(w: Web, tab: Tab) returns (frames: seq<Frame>)
    ensures frames == Frames(w, tab)
  {
    hide Collected, FramesIn;
    frames := [Frame(Main, tab.url, tab.html)];
    var spots := Collect(w.parse(tab.html), [], []);
    assert spots == Collected(w.parse(tab.html), [], 0);
    var index := 1;
    assert FramesIn(w, tab.url, spots[..0]) == [] by { NoFrames(w, tab.url); }
    for i := 0 to |spots|
      invariant frames == [Frame(Main, tab.url, tab.html)] + FramesIn(w, tab.url, spots[..i])
      invariant index == |frames|
    {
      FramesInStep(w, tab.url, spots, i);
      var node := spots[i].node;
      if node.tag == "iframe" && node.src != "" {
        var resolved := w.join(tab.url, node.src);
        frames := frames + [Frame(Nested(index), resolved, if resolved in w.pages then w.pages[resolved] else "")];
        index := index + 1;
      }
    }
    assert spots[..|spots|] == spots;
  }

  lemma NoFrames(w: Web, url: string)
    ensures FramesIn(w, url, []) == []
  {
  }

  lemma {:induction false} FramesAreNumbered(w: Web, url: string, spots: seq<Spot>, k: nat)
    requires k < |FramesIn(w, url, spots)|
    ensures FramesIn(w, url, spots)[k].id == Nested(k + 1)
  {
    var before := FramesIn(w, url, spots[..|spots| - 1]);
    if k < |before| {
      FramesAreNumbered(w, url, spots[..|spots| - 1], k);
    }
  }

  predicate IsFrame(node: Node) {
    node.tag == "iframe" && node.src != ""
  }

  function FramesAmong(spots: seq<Spot>): set<nat> {
    set s: nat | s < |spots| && IsFrame(spots[s].node)
  }

  lemma OneMoreFrame(spots: seq<Spot>)
    requires spots != []
    ensures |FramesAmong(spots)|
            == |FramesAmong(spots[..|spots| - 1])| + if IsFrame(spots[|spots| - 1].node) then 1 else 0
  {
    var n := |spots| - 1;
    assert FramesAmong(spots) == FramesAmong(spots[..n]) + if IsFrame(spots[n].node) then {n} else {};
    assert n !in FramesAmong(spots[..n]);
  }

  /** There is one frame for each iframe with a source. Frame `k` is the k-th of them, at its address
      joined with the tab's, holding the page there or nothing where there is none. */
  lemma {:induction false} FramesAreIframes(w: Web, url: string, spots: seq<Spot>, k: nat) returns (s: nat)
    ensures |FramesIn(w, url, spots)| == |FramesAmong(spots)|
    ensures k < |FramesAmong(spots)| ==>
              && s < |spots| && IsFrame(spots[s].node) && |FramesAmong(spots[..s])| == k
              && var frame, address := FramesIn(w, url, spots)[k], w.join(url, spots[s].node.src);
                 && frame.url == address && frame.id == Nested(k + 1)
                 && frame.html == if address in w.pages then w.pages[address] else ""
  {
    hide FramesAmong;
    s := 0;
    if spots == [] {
      assert FramesAmong([]) == {} by { NoFramesAmong(); }
    } else {
      var n := |spots| - 1;
      s := FramesAreIframes(w, url, spots[..n], k);
      OneMoreFrame(spots);
      if k == |FramesAmong(spots[..n])| {
        s := n;
      } else if k < |FramesAmong(spots[..n])| {
        assert spots[..n][..s] == spots[..s];
      }
    }
  }

  /** A tab's frames are its own page and the pages of its iframes, in document order. */
  lemma TabFrames(w: Web, tab: Tab, k: nat) returns (s: nat)
    ensures var spots, frames := Collected(w.parse(tab.html), [], 0), Frames(w, tab);
            && |frames| == 1 + |FramesAmong(spots)| && frames[0] == Frame(Main, tab.url, tab.html)
            && (0 < k < |frames| ==>
                  && s < |spots| && IsFrame(spots[s].node) && |FramesAmong(spots[..s])| == k - 1
                  && var address := w.join(tab.url, spots[s].node.src);
                     frames[k] == Frame(Nested(k), address, if address in w.pages then w.pages[address] else ""))
  {
    hide Collected, FramesIn, FramesAmong;
    s := FramesAreIframes(w, tab.url, Collected(w.parse(tab.html), [], 0), if k > 0 then k - 1 else 0);
  }

  lemma NoFramesAmong()
    ensures FramesAmong([]) == {}
  {
  }

  /** No two frames of a tab have the same id. */
  lemma FrameIdsAreDistinct(w: Web, tab: Tab, j: nat, k: nat)
    requires j < |Frames(w, tab)| && k < |Frames(w, tab)|
    ensures Frames(w, tab)[j].id == Frames(w, tab)[k].id <==> j == k
  {
    var spots := Collected(w.parse(tab.html), [], 0);
    if j > 0 {
      FramesAreNumbered(w, tab.url, spots, j - 1);
    }
    if k > 0 {
      FramesAreNumbered(w, tab.url, spots, k - 1);
    }
  }

  // ---- resolving a reference ----

  datatype Resolution = Found(desc: Desc, frameId: FrameId) | Refused(why: Refusal) {
    // The code a refusal is reported with.
    function ErrorCode(): Option<Code> {
      if Found? then None else if why == Unknown || why == NoMatch then Some(NOT_FOUND) else Some(CONFLICT)
    }
  }

  function FrameNamed(frames: seq<Frame>, id: FrameId): Option<Frame> {
    if frames == [] then None
    else if frames[0].id == id then Some(frames[0])
    else FrameNamed(frames[1..], id)
  }

  function Matches(descs: seq<Desc>, f: Fingerprint): seq<Desc> {
    if descs == [] then []
    else
      var last := descs[|descs| - 1];
      Matches(descs[..|descs| - 1], f) + if last.fingerprint == f then [last] else []
  }

  function Resolve(w: Web, st: Store, session: string, tab: Tab, ref: string, now: real): Resolution {
    var refs := st.RefsOf(session);
    if ref !in refs then Refused(Unknown)
    else
      var r := refs[ref];
      match FrameNamed(Frames(w, tab), r.frameId)
      case None => Refused(FrameGone)
      case Some(frame) =>
        match CheckScope(r, tab.tabId, tab.url, st.Generation(session, tab.tabId), w.originOf(frame.url), now)
        case Some(why) => Refused(why)
        case None =>
          var matches := Matches(Walk(w, frame.html, frame.url), r.fingerprint);
          if matches == [] then Refused(NoMatch)
          else if |matches| > 1 then Refused(ManyMatches)
          else if matches[0].path != r.path then Refused(Moved)
          else Found(matches[0], frame.id)
  }

  lemma {:induction false} FirstFrameNamed(frames: seq<Frame>, k: nat)
    requires k < |frames| && forall j :: 0 <= j < k ==> frames[j].id != frames[k].id
    ensures FrameNamed(frames, frames[k].id) == Some(frames[k])
  {
    if k == 0 {
    } else {
      FirstFrameNamed(frames[1..], k - 1);
    }
  }

  lemma {:induction false} NamedFrameIsListed(frames: seq<Frame>, id: FrameId)
    requires FrameNamed(frames, id).Some?
    ensures FrameNamed(frames, id).value in frames && FrameNamed(frames, id).value.id == id
  {
    if frames[0].id != id {
      NamedFrameIsListed(frames[1..], id);
    }
  }

  ghost predicate UniqueIn(descs: seq<Desc>, k: nat)
    requires k < |descs|
  {
    forall j :: 0 <= j < |descs| && descs[j].fingerprint == descs[k].fingerprint ==> j == k
  }

  lemma {:induction false} MatchesAreThose(descs: seq<Desc>, f: Fingerprint)
    ensures forall d :: d in Matches(descs, f) <==> d in descs && d.fingerprint == f
  {
    if descs == [] {
    } else {
      var n := |descs| - 1;
      MatchesAreThose(descs[..n], f);
      assert descs == descs[..n] + [descs[n]];
    }
  }

  lemma {:induction false} NoMatches(descs: seq<Desc>, f: Fingerprint)
    requires forall j :: 0 <= j < |descs| ==> descs[j].fingerprint != f
    ensures Matches(descs, f) == []
  {
    if descs == [] {
    } else {
      NoMatches(descs[..|descs| - 1], f);
    }
  }

  // A descriptor's own match is single exactly when its fingerprint is unique.
  lemma {:induction false} OwnMatches(descs: seq<Desc>, k: nat)
    requires k < |descs|
    ensures UniqueIn(descs, k) ==> Matches(descs, descs[k].fingerprint) == [descs[k]]
    ensures !UniqueIn(descs, k) ==> |Matches(descs, descs[k].fingerprint)| > 1
  {
    var n, f := |descs| - 1, descs[k].fingerprint;
    var fewer := descs[..n];
    if k == n {
      if UniqueIn(descs, k) {
        NoMatches(fewer, f);
      } else {
        var j :| 0 <= j < n && descs[j].fingerprint == f;
        MatchesAreThose(fewer, f);
        assert fewer[j] in Matches(fewer, f);
      }
    } else {
      OwnMatches(fewer, k);
      if descs[n].fingerprint != f {
        UniqueWithoutLast(descs, k);
      } else {
        assert !UniqueIn(descs, k);
      }
    }
  }

  lemma UniqueWithoutLast(descs: seq<Desc>, k: nat)
    requires k < |descs| - 1 && descs[|descs| - 1].fingerprint != descs[k].fingerprint
    ensures UniqueIn(descs[..|descs| - 1], k) <==> UniqueIn(descs, k)
  {
    var fewer := descs[..|descs| - 1];
    if UniqueIn(fewer, k) {
      forall j | 0 <= j < |descs| && descs[j].fingerprint == descs[k].fingerprint ensures j == k {
        assert fewer[j] == descs[j];
      }
    }
    if UniqueIn(descs, k) {
      forall j | 0 <= j < |fewer| && fewer[j].fingerprint == fewer[k].fingerprint ensures j == k {
        assert fewer[j] == descs[j];
      }
    }
  }

  /** `ref` still stands for element `k` of frame `i` of the tab as it is now. */
  ghost predicate StandsFor(w: Web, st: Store, session: string, tab: Tab, ref: string, i: nat, k: nat)
    requires i < |Frames(w, tab)| && k < |Walk(w, Frames(w, tab)[i].html, Frames(w, tab)[i].url)|
  {
    var frame := Frames(w, tab)[i];
    var desc := Walk(w, frame.html, frame.url)[k];
    var refs := st.RefsOf(session);
    && ref in refs
    && var r := refs[ref];
    && r.tabId == tab.tabId && r.frameId == frame.id && r.generation == st.Generation(session, tab.tabId)
    && r.url == tab.url && r.origin == w.originOf(frame.url)
    && r.fingerprint == desc.fingerprint && r.path == desc.path
  }

  /** Within its lifetime, a reference that still stands for an element resolves to exactly that
      element if its fingerprint is unique in the frame, and to a conflict otherwise. */
  lemma ResolvesToItsElement(w: Web, st: Store, session: string, tab: Tab, ref: string, now: real, i: nat, k: nat)
    requires i < |Frames(w, tab)| && k < |Walk(w, Frames(w, tab)[i].html, Frames(w, tab)[i].url)|
    requires StandsFor(w, st, session, tab, ref, i, k) && !st.RefsOf(session)[ref].Expired(now)
    ensures var frame := Frames(w, tab)[i];
            var descs := Walk(w, frame.html, frame.url);
            Resolve(w, st, session, tab, ref, now)
            == if UniqueIn(descs, k) then Found(descs[k], frame.id) else Refused(ManyMatches)
  {
    hide Frames, Walk;
    var frames := Frames(w, tab);
    forall j | 0 <= j < i ensures frames[j].id != frames[i].id {
      FrameIdsAreDistinct(w, tab, j, i);
    }
    FirstFrameNamed(frames, i);
    OwnMatches(Walk(w, frames[i].html, frames[i].url), k);
  }

  /** Whatever has happened since, a reference that resolves at all resolves to the one element
      of its frame that has its fingerprint, at the place where it was seen, and is used on its
      own tab, page and origin, before it expires and before a newer snapshot. */
  lemma ResolvedIsTheOnlyMatch(w: Web, st: Store, session: string, tab: Tab, ref: string, now: real)
    requires Resolve(w, st, session, tab, ref, now).Found?
    ensures var desc := Resolve(w, st, session, tab, ref, now).desc;
            && ref in st.RefsOf(session)
            && var r := st.RefsOf(session)[ref];
            && now - r.created <= r.ttl && r.tabId == tab.tabId && r.url == tab.url
            && r.generation == st.Generation(session, tab.tabId)
            && desc.path == r.path && desc.fingerprint == r.fingerprint
            && exists frame :: frame in Frames(w, tab) && frame.id == r.frameId && w.originOf(frame.url) == r.origin
                               && OnlyMatch(Walk(w, frame.html, frame.url), desc)
  {
    hide Frames, Walk;
    var r := st.RefsOf(session)[ref];
    var frames := Frames(w, tab);
    NamedFrameIsListed(frames, r.frameId);
    var frame := FrameNamed(frames, r.frameId).value;
    var descs := Walk(w, frame.html, frame.url);
    MatchesAreThose(descs, r.fingerprint);
    var desc := Matches(descs, r.fingerprint)[0];
    assert desc in Matches(descs, r.fingerprint);
    forall d | d in descs && d.fingerprint == desc.fingerprint ensures d == desc {
      assert d in Matches(descs, r.fingerprint);
    }
    assert OnlyMatch(descs, desc);
  }

  /** A refusal says NOT_FOUND exactly when the reference is not stored, or nothing in its frame has the
      fingerprint although it is used within its scope; every other refusal is a CONFLICT. */
  lemma RefusalCodes(w: Web, st: Store, session: string, tab: Tab, ref: string, now: real)
    ensures var code := Resolve(w, st, session, tab, ref, now).ErrorCode();
            && code in {None, Some(NOT_FOUND), Some(CONFLICT)}
            && (code == Some(NOT_FOUND) <==>
                  ref in st.RefsOf(session) ==>
                    var r := st.RefsOf(session)[ref];
                    && now - r.created <= r.ttl && r.tabId == tab.tabId && r.url == tab.url
                    && r.generation == st.Generation(session, tab.tabId)
                    && exists frame :: ScopeFrame(w, tab, r, frame)
                                       && forall d :: d in Walk(w, frame.html, frame.url) ==> d.fingerprint != r.fingerprint)
  {
    hide Frames, Walk, Matches;
    if ref in st.RefsOf(session) {
      var r := st.RefsOf(session)[ref];
      var frames := Frames(w, tab);
      NamedOrNone(w, tab, r.frameId);
      if FrameNamed(frames, r.frameId).Some? {
        var frame := FrameNamed(frames, r.frameId).value;
        MatchesAreThose(Walk(w, frame.html, frame.url), r.fingerprint);
        NoneMatch(Walk(w, frame.html, frame.url), r.fingerprint);
      }
    }
  }

  // The frame a reference was issued in, still of the same origin.
  predicate ScopeFrame(w: Web, tab: Tab, r: Record, frame: Frame) {
    frame in Frames(w, tab) && frame.id == r.frameId && w.originOf(frame.url) == r.origin
  }

  lemma NoneMatch(descs: seq<Desc>, f: Fingerprint)
    ensures Matches(descs, f) == [] <==> forall d :: d in descs ==> d.fingerprint != f
  {
    MatchesAreThose(descs, f);
    hide Matches;
    if Matches(descs, f) != [] {
      assert Matches(descs, f)[0] in Matches(descs, f);
    }
    forall d | d in descs && d.fingerprint == f ensures Matches(descs, f) != [] {
      assert d in Matches(descs, f);
    }
  }

  // A frame id names the one frame that has it, if any does.
  lemma NamedOrNone(w: Web, tab: Tab, id: FrameId)
    ensures FrameNamed(Frames(w, tab), id).None? ==> forall frame :: frame in Frames(w, tab) ==> frame.id != id
    ensures FrameNamed(Frames(w, tab), id).Some? ==>
              var named := FrameNamed(Frames(w, tab), id).value;
              named in Frames(w, tab) && forall frame :: frame in Frames(w, tab) ==> (frame.id == id <==> frame == named)
  {
    hide Frames;
    var frames := Frames(w, tab);
    if FrameNamed(frames, id).Some? {
      NamedFrameIsListed(frames, id);
      var named := FrameNamed(frames, id).value;
      var m :| 0 <= m < |frames| && frames[m] == named;
      forall frame | frame in frames && frame.id == id ensures frame == named {
        var k :| 0 <= k < |frames| && frames[k] == frame;
        FrameIdsAreDistinct(w, tab, m, k);
      }
    } else {
      forall frame | frame in frames ensures frame.id != id {
        UnnamedIsAbsent(frames, id, frame);
      }
    }
  }

  lemma {:induction false} UnnamedIsAbsent(frames: seq<Frame>, id: FrameId, frame: Frame)
    requires FrameNamed(frames, id).None? && frame in frames
    ensures frame.id != id
  {
    if frame != frames[0] {
      UnnamedIsAbsent(frames[1..], id, frame);
    }
  }

  ghost predicate OnlyMatch(descs: seq<Desc>, desc: Desc) {
    desc in descs && forall d :: d in descs && d.fingerprint == desc.fingerprint ==> d == desc
  }

  // ---- what keeps a reference standing ----

  /** Nothing but a snapshot or reset of the same tab, or the end of the session, takes a
      reference away from its element, however many other references, tabs and sessions come and
      go; the passing of time only expires it. */
  lemma OtherStepsKeepStanding(w: Web, o: World, op: Op, session: string, tab: Tab, ref: string, i: nat, k: nat)
    requires i < |Frames(w, tab)| && k < |Walk(w, Frames(w, tab)[i].html, Frames(w, tab)[i].url)|
    requires Sound(o) && StandsFor(w, o.store, session, tab, ref, i, k) && !o.store.RefsOf(session)[ref].Expired(o.now)
    requires op != Snapshot(session, tab.tabId) && op != DropTab(session, tab.tabId) && op != DropSession(session)
    ensures StandsFor(w, Step(o, op).store, session, tab, ref, i, k)
    ensures Step(o, op).store.RefsOf(session)[ref] == o.store.RefsOf(session)[ref]
  {
    hide Frames, Walk, Sound;
    assert SoundRef(o, session, ref) by { SoundIsSound(o, session, ref); }
  }

  // No step of `ops` snapshots or resets the tab, or ends the session.
  ghost predicate Elsewhere(ops: seq<Op>, session: string, tabId: string) {
    forall i :: 0 <= i < |ops| ==>
      ops[i] != Snapshot(session, tabId) && ops[i] != DropTab(session, tabId) && ops[i] != DropSession(session)
  }

  lemma {:induction false} ClockOnlyAdvances(o: World, ops: seq<Op>)
    ensures o.now <= Run(o, ops).now
  {
    if ops == [] {
    } else {
      ClockOnlyAdvances(o, ops[..|ops| - 1]);
    }
  }

  /** Over any sequence of operations elsewhere, a reference that has not expired by the end still
      stands for its element. */
  lemma {:induction false} StandsOverRun(w: Web, o: World, ops: seq<Op>, session: string, tab: Tab, ref: string, i: nat, k: nat)
    requires i < |Frames(w, tab)| && k < |Walk(w, Frames(w, tab)[i].html, Frames(w, tab)[i].url)|
    requires Sound(o) && StandsFor(w, o.store, session, tab, ref, i, k) && Elsewhere(ops, session, tab.tabId)
    requires !o.store.RefsOf(session)[ref].Expired(Run(o, ops).now)
    ensures StandsFor(w, Run(o, ops).store, session, tab, ref, i, k)
    ensures Run(o, ops).store.RefsOf(session)[ref] == o.store.RefsOf(session)[ref]
  {
    hide Frames, Walk, StandsFor, Step, Sound;
    if ops == [] {
    } else {
      var n := |ops| - 1;
      var before := Run(o, ops[..n]);
      ClockOnlyAdvances(before, [ops[n]]);
      assert [ops[n]][..0] == [];
      StandsOverRun(w, o, ops[..n], session, tab, ref, i, k);
      StoredGenerationsNeverLead(o, ops[..n]);
      OtherStepsKeepStanding(w, before, ops[n], session, tab, ref, i, k);
    }
  }

  lemma SoundIsSound(o: World, session: string, ref: string)
    ensures Sound(o) ==> SoundRef(o, session, ref)
  {
  }

  /** After a navigation, or the end of the session, the tab's references are unknown. */
  lemma ResetForgets(w: Web, st: Store, session: string, tab: Tab, ref: string, now: real)
    requires ref in st.RefsOf(session) ==> st.RefsOf(session)[ref].tabId == tab.tabId
    ensures Resolve(w, InvalidateTab(st, session, tab.tabId), session, tab, ref, now) == Refused(Unknown)
    ensures Resolve(w, InvalidateSession(st, session), session, tab, ref, now) == Refused(Unknown)
  {
    hide Frames, Walk;
  }

  // ---- inspecting a tab ----

  datatype Element = Element(frameId: FrameId, desc: Desc, ref: string)

  // Element `k` of frame `i`.
  datatype Place = Place(i: nat, k: nat)

  function DescsOf(w: Web, frames: seq<Frame>, i: nat): seq<Desc>
    requires i < |frames|
  {
    Walk(w, frames[i].html, frames[i].url)
  }

  function PlacesIn(i: nat, n: nat): (ps: seq<Place>)
    ensures |ps| == n
    ensures forall k :: 0 <= k < n ==> ps[k] == Place(i, k)
  {
    seq(n, k requires k >= 0 => Place(i, k))
  }

  /** Every element of the first `n` frames, in the order in which they are visited. */
  function Places(w: Web, frames: seq<Frame>, n: nat): seq<Place>
    requires n <= |frames|
  {
    if n == 0 then [] else Places(w, frames, n - 1) + PlacesIn(n - 1, |DescsOf(w, frames, n - 1)|)
  }

  lemma {:induction false} PlacesGrow(w: Web, frames: seq<Frame>, n: nat, m: nat)
    requires n <= m <= |frames|
    ensures Places(w, frames, n) <= Places(w, frames, m)
  {
    if n < m {
      PlacesGrow(w, frames, n, m - 1);
    }
  }

  ghost predicate Exists(w: Web, frames: seq<Frame>, p: Place) {
    p.i < |frames| && p.k < |DescsOf(w, frames, p.i)|
  }

  /** An inspection visits every descriptor of every frame once: frame by frame, in the order of the walk. */
  lemma {:induction false} PlacesAreAll(w: Web, frames: seq<Frame>, n: nat, p: Place, a: nat, b: nat)
    requires n <= |frames|
    ensures p in Places(w, frames, n) <==> p.i < n && Exists(w, frames, p)
    ensures var all := Places(w, frames, n);
            a < b < |all| ==> all[a].i < all[b].i || (all[a].i == all[b].i && all[a].k < all[b].k)
  {
    hide Walk;
    if n > 0 {
      var before, here := Places(w, frames, n - 1), PlacesIn(n - 1, |DescsOf(w, frames, n - 1)|);
      PlacesAreAll(w, frames, n - 1, p, a, b);
      if p.i == n - 1 && Exists(w, frames, p) {
        assert here[p.k] == p;
      }
      if a < |before| <= b < |before + here| {
        PlacesAreAll(w, frames, n - 1, before[a], 0, 0);
      }
    }
  }

  function RecordAt(w: Web, tab: Tab, frames: seq<Frame>, p: Place, generation: int, created: real, ttl: real): Record
    requires Exists(w, frames, p)
  {
    var d := DescsOf(w, frames, p.i)[p.k];
    Record(tab.tabId, frames[p.i].id, generation, tab.url, w.originOf(frames[p.i].url), d.fingerprint, d.path, created, ttl)
  }

  /** The elements found so far, the places they were found at, and the references stored. */
  ghost predicate Enrolled(w: Web, refs: Refs, tab: Tab, frames: seq<Frame>, places: seq<Place>, elements: seq<Element>,
                           generation: int, tokens: nat -> string, times: nat -> real, ttl: real)
  {
    && |places| == |elements|
    && forall n :: 0 <= n < |places| ==>
         && Exists(w, frames, places[n])
         && elements[n] == Element(frames[places[n].i].id, DescsOf(w, frames, places[n].i)[places[n].k], "er_" + tokens(n))
         && elements[n].ref in refs
         && refs[elements[n].ref] == RecordAt(w, tab, frames, places[n], generation, times(n), ttl)
  }

  lemma EnrolOneMore(w: Web, refs: Refs, tab: Tab, frames: seq<Frame>, places: seq<Place>, elements: seq<Element>,
                     generation: int, tokens: nat -> string, times: nat -> real, ttl: real, p: Place, e: Element)
    requires Enrolled(w, refs, tab, frames, places, elements, generation, tokens, times, ttl)
    requires forall i, j :: tokens(i) == tokens(j) ==> i == j
    requires Exists(w, frames, p)
    requires e == Element(frames[p.i].id, DescsOf(w, frames, p.i)[p.k], "er_" + tokens(|elements|))
    ensures Enrolled(w, refs[e.ref := RecordAt(w, tab, frames, p, generation, times(|elements|), ttl)], tab, frames,
                     places + [p], elements + [e], generation, tokens, times, ttl)
  {
    hide DescsOf;
    var n := |elements|;
    forall m | 0 <= m < n ensures elements[m].ref != e.ref {
      assert ("er_" + tokens(m))[3..] == tokens(m) && ("er_" + tokens(n))[3..] == tokens(n);
    }
  }

  lemma EnrolledStandFor(w: Web, st: Store, session: string, tab: Tab, places: seq<Place>, elements: seq<Element>,
                         tokens: nat -> string, times: nat -> real, ttl: real, n: nat)
    requires Enrolled(w, st.RefsOf(session), tab, Frames(w, tab), places, elements,
                      st.Generation(session, tab.tabId), tokens, times, ttl)
    requires n < |places|
    ensures Exists(w, Frames(w, tab), places[n])
    ensures StandsFor(w, st, session, tab, elements[n].ref, places[n].i, places[n].k)
    ensures st.RefsOf(session)[elements[n].ref].created == times(n) && st.RefsOf(session)[elements[n].ref].ttl == ttl
  {
    hide Frames, Walk;
  }

  /** Each reference an inspection has returned resolves, until it expires, to exactly the element
      it was returned with, if nothing else in the frame looks the same, and to a conflict
      otherwise. */
  lemma InspectedElementResolves(w: Web, st: Store, session: string, tab: Tab, places: seq<Place>, elements: seq<Element>,
                                 tokens: nat -> string, times: nat -> real, ttl: real, n: nat, now: real)
    requires Enrolled(w, st.RefsOf(session), tab, Frames(w, tab), places, elements,
                      st.Generation(session, tab.tabId), tokens, times, ttl)
    requires n < |elements| == |places| && now - times(n) <= ttl
    ensures Exists(w, Frames(w, tab), places[n])
    ensures Resolve(w, st, session, tab, elements[n].ref, now)
            == if UniqueIn(DescsOf(w, Frames(w, tab), places[n].i), places[n].k)
               then Found(elements[n].desc, elements[n].frameId) else Refused(ManyMatches)
    ensures Resolve(w, st, session, tab, elements[n].ref, now).ErrorCode() in {None, Some(CONFLICT)}
  {
    hide Frames, Walk, Resolve, UniqueIn;
    EnrolledStandFor(w, st, session, tab, places, elements, tokens, times, ttl, n);
    ResolvesToItsElement(w, st, session, tab, elements[n].ref, now, places[n].i, places[n].k);
  }

  /** The same after any sequence of operations that neither snapshots nor resets the tab nor ends
      the session, as long as the page has not changed. */
  lemma InspectedElementStillResolves(w: Web, o: World, ops: seq<Op>, session: string, tab: Tab, places: seq<Place>,
                                      elements: seq<Element>, tokens: nat -> string, times: nat -> real, ttl: real, n: nat)
    requires Enrolled(w, o.store.RefsOf(session), tab, Frames(w, tab), places, elements,
                      o.store.Generation(session, tab.tabId), tokens, times, ttl)
    requires Sound(o) && Elsewhere(ops, session, tab.tabId)
    requires n < |elements| == |places| && Run(o, ops).now - times(n) <= ttl
    ensures Exists(w, Frames(w, tab), places[n])
    ensures Resolve(w, Run(o, ops).store, session, tab, elements[n].ref, Run(o, ops).now)
            == if UniqueIn(DescsOf(w, Frames(w, tab), places[n].i), places[n].k)
               then Found(elements[n].desc, elements[n].frameId) else Refused(ManyMatches)
  {
    hide Frames, Walk, Resolve, UniqueIn, StandsFor, ElementRefs.Run, Sound;
    EnrolledStandFor(w, o.store, session, tab, places, elements, tokens, times, ttl, n);
    StandsOverRun(w, o, ops, session, tab, elements[n].ref, places[n].i, places[n].k);
    ResolvesToItsElement(w, Run(o, ops).store, session, tab, elements[n].ref, Run(o, ops).now, places[n].i, places[n].k);
  }

  // ---- an inspection as a sequence of the registry's operations ----

  // What an inspection of this tab may do: snapshot it, let time pass, and issue references on it.
  ghost predicate InspectsOnly(ops: seq<Op>, session: string, tabId: string) {
    forall i :: 0 <= i < |ops| ==>
      || ops[i].Tick? || ops[i] == Op.Snapshot(session, tabId)
      || (ops[i].Issue? && ops[i].session == session && ops[i].tab == tabId)
  }

  // From `now` on the clock does not go back.
  ghost predicate ClockRuns(now: real, times: nat -> real) {
    now <= times(0) && forall m: nat, n: nat :: m <= n ==> times(m) <= times(n)
  }

  // No reference of this kind has been issued from the n-th token on.
  ghost predicate Unissued(tokens: nat -> string, n: nat, issued: set<string>) {
    forall m: nat :: n <= m ==> "er_" + tokens(m) !in issued
  }

  // After `ops`, `n` references have been issued and the store is `st`.
  ghost predicate Follows(w0: World, ops: seq<Op>, st: Store, session: string, tabId: string,
                          tokens: nat -> string, times: nat -> real, n: nat)
  {
    && Run(w0, ops).store == st && InspectsOnly(ops, session, tabId)
    && Run(w0, ops).now <= times(n) && Unissued(tokens, n, Run(w0, ops).issued)
  }

  function IssueOps(w: Web, session: string, tab: Tab, frame: Frame, desc: Desc, token: string, at: real, ttl: real): seq<Op> {
    [Tick(at), Issue(session, tab.tabId, "er_" + token, frame.id, tab.url, w.originOf(frame.url), desc.fingerprint, desc.path, ttl)]
  }

  lemma RunOn(w0: World, ops: seq<Op>, op: Op)
    ensures Run(w0, ops + [op]) == Step(Run(w0, ops), op)
  {
    assert (ops + [op])[..|ops|] == ops;
  }

  lemma InspectionBegins(w0: World, session: string, tabId: string, tokens: nat -> string, times: nat -> real)
    requires ClockRuns(w0.now, times) && Unissued(tokens, 0, w0.issued)
    ensures Follows(w0, [Op.Snapshot(session, tabId)], BeginSnapshot(w0.store, session, tabId, w0.now), session, tabId,
                    tokens, times, 0)
  {
    assert [] + [Op.Snapshot(session, tabId)] == [Op.Snapshot(session, tabId)];
    RunOn(w0, [], Op.Snapshot(session, tabId));
  }

  lemma InspectionIssues(w: Web, w0: World, ops: seq<Op>, st: Store, session: string, tab: Tab, frame: Frame, desc: Desc,
                         tokens: nat -> string, times: nat -> real, n: nat, ttl: real)
    requires Follows(w0, ops, st, session, tab.tabId, tokens, times, n)
    requires ClockRuns(w0.now, times) && forall i, j :: tokens(i) == tokens(j) ==> i == j
    ensures Follows(w0, ops + IssueOps(w, session, tab, frame, desc, tokens(n), times(n), ttl),
                    Register(st, session, "er_" + tokens(n),
                             Record(tab.tabId, frame.id, st.Generation(session, tab.tabId), tab.url, w.originOf(frame.url),
                                    desc.fingerprint, desc.path, times(n), ttl)),
                    session, tab.tabId, tokens, times, n + 1)
  {
    hide Register, Run;
    var more := IssueOps(w, session, tab, frame, desc, tokens(n), times(n), ttl);
    assert ops + more == ops + [more[0]] + [more[1]];
    RunOn(w0, ops, more[0]);
    RunOn(w0, ops + [more[0]], more[1]);
    forall m: nat | n + 1 <= m ensures "er_" + tokens(m) != "er_" + tokens(n) {
      assert ("er_" + tokens(m))[3..] == tokens(m) && ("er_" + tokens(n))[3..] == tokens(n);
    }
    assert times(n) <= times(n + 1);
  }

  /** To every other tab, and in every other session, an inspection happens elsewhere. */
  lemma InspectionIsElsewhere(ops: seq<Op>, session: string, tabId: string, session': string, tabId': string)
    ensures InspectsOnly(ops, session, tabId) && (session, tabId) != (session', tabId') ==>
              Elsewhere(ops, session', tabId')
  {
  }

  /** The references of a tab survive the inspection of another: until they expire they resolve as
      they did before. */
  lemma OtherTabsKeepTheirReferences(w: Web, o: World, ops: seq<Op>, inspected: string, inspectedTab: string,
                                     session: string, tab: Tab, ref: string, i: nat, k: nat)
    requires InspectsOnly(ops, inspected, inspectedTab) && (inspected, inspectedTab) != (session, tab.tabId)
    requires i < |Frames(w, tab)| && k < |Walk(w, Frames(w, tab)[i].html, Frames(w, tab)[i].url)|
    requires Sound(o) && StandsFor(w, o.store, session, tab, ref, i, k)
    requires !o.store.RefsOf(session)[ref].Expired(Run(o, ops).now)
    ensures StandsFor(w, Run(o, ops).store, session, tab, ref, i, k)
    ensures Resolve(w, Run(o, ops).store, session, tab, ref, Run(o, ops).now) == Resolve(w, o.store, session, tab, ref, o.now)
  {
    hide Frames, Walk, Resolve, UniqueIn, StandsFor, Run, Sound, InspectsOnly;
    InspectionIsElsewhere(ops, inspected, inspectedTab, session, tab.tabId);
    ClockOnlyAdvances(o, ops);
    StandsOverRun(w, o, ops, session, tab, ref, i, k);
    ResolvesToItsElement(w, o.store, session, tab, ref, o.now, i, k);
    ResolvesToItsElement(w, Run(o, ops).store, session, tab, ref, Run(o, ops).now, i, k);
  }

  datatype Session = Session(tabs: map<string, Tab>, activeTab: string) {
    predicate IsOpen() {
      activeTab in tabs
    }
  }

  class SimulatedBrowserTransport {
    const web: Web
    const registry: ElementReferenceRegistry
    var sessions: map<string, Session>

    constructor (web: Web, ttlSeconds: real)
      requires ttlSeconds > 0.0
      ensures this.web == web && fresh(registry) && registry.State() == EMPTY && registry.ttlSeconds == ttlSeconds
      ensures sessions == map[]
    {
      this.web := web;
      registry := new ElementReferenceRegistry(ttlSeconds);
      sessions := map[];
    }

    // The tab a session is looking at; None when it has no open page.
    function ActiveTab(session: string): Option<Tab>
      reads this
    {
      if session in sessions && sessions[session].IsOpen() then Some(sessions[session].tabs[sessions[session].activeTab])
      else None
    }

    /** Load a page in the active tab, or in a first tab named `newTab`. References issued for
        the tab before are unknown from then on. */
    method Navigate(session: string, url: string, newTab: string) returns (found: bool)
      requires session in sessions ==> sessions[session].IsOpen()
      modifies this, registry
      ensures found <==> url in web.pages
      ensures !found ==> sessions == old(sessions) && registry.State() == old(registry.State())
      ensures found ==>
                var id := if session in old(sessions) then old(sessions)[session].activeTab else newTab;
                && session in sessions && sessions[session].activeTab == id && id in sessions[session].tabs
                && sessions[session].tabs[id] == Tab(if session in old(sessions) then old(sessions)[session].tabs[id].tabId else id,
                                                     url, web.pages[url])
                && (forall s :: s != session ==> (s in sessions <==> s in old(sessions)))
                && (forall s :: s != session && s in sessions ==> sessions[s] == old(sessions)[s])
                && sessions[session].tabs.Keys == (if session in old(sessions) then old(sessions)[session].tabs.Keys else {id})
                && (forall t :: t != id && t in sessions[session].tabs ==>
                      session in old(sessions) && sessions[session].tabs[t] == old(sessions)[session].tabs[t])
                && registry.State() == if session in old(sessions)
                                       then InvalidateTab(old(registry.State()), session, old(ActiveTab(session)).value.tabId)
                                       else old(registry.State())
    {
      found := url in web.pages;
      if found {
        if session in sessions {
          var was := sessions[session];
          var tab := was.tabs[was.activeTab];
          registry.ForgetTab(session, tab.tabId);
          var loaded := Tab(tab.tabId, url, web.pages[url]);
          sessions := sessions[session := Session(was.tabs[was.activeTab := loaded], was.activeTab)];
        } else {
          sessions := sessions[session := Session(map[newTab := Tab(newTab, url, web.pages[url])], newTab)];
        }
      }
    }

    method CloseContext(session: string)
      modifies this, registry
      ensures sessions == old(sessions) - {session}
      ensures registry.State() == InvalidateSession(old(registry.State()), session)
    {
      sessions := sessions - {session};
      registry.ForgetSession(session);
    }

    // The inner loop of an inspection: the elements of one frame.
    method InspectFrame(session: string, tab: Tab, frames: seq<Frame>, i: nat, before: seq<Element>, generation: int,
                        maxElements: int, tokens: nat -> string, times: nat -> real, ghost seen: seq<Place>,
                        ghost w0: World, ghost earlier: seq<Op>)
      returns (truncated: bool, found: seq<Element>, ghost places: seq<Place>, ghost ops: seq<Op>)
      requires i < |frames| && (forall a, b :: tokens(a) == tokens(b) ==> a == b)
      requires seen == Places(web, frames, i) && (seen == [] || |seen| < maxElements)
      requires Enrolled(web, registry.State().RefsOf(session), tab, frames, seen, before, generation, tokens, times,
                        registry.ttlSeconds)
      requires generation == registry.State().Generation(session, tab.tabId)
      modifies registry`refs
      ensures ClockRuns(w0.now, times)
              && Follows(w0, earlier, old(registry.State()), session, tab.tabId, tokens, times, |before|)
              ==> Follows(w0, ops, registry.State(), session, tab.tabId, tokens, times, |found|)
      ensures !truncated ==> places == Places(web, frames, i + 1) && (places == [] || |places| < maxElements)
      ensures truncated ==> places <= Places(web, frames, i + 1) && |places| >= maxElements
                            && |places| == if maxElements < 1 then 1 else maxElements
      ensures Enrolled(web, registry.State().RefsOf(session), tab, frames, places, found, generation, tokens, times,
                       registry.ttlSeconds)
      ensures forall s :: s != session ==> registry.State().RefsOf(s) == old(registry.State()).RefsOf(s)
    {
      hide Frames, Walk, Enrolled, Follows, ClockRuns, IssueOps, Register, Store.RefsOf, Store.Generation, Store.GenerationsOf;
      hide Places, PlacesIn;
      NoPlaces(i);
      truncated, found, places, ops := false, before, seen, earlier;
      ghost var followed := ClockRuns(w0.now, times)
                            && Follows(w0, earlier, registry.State(), session, tab.tabId, tokens, times, |before|);
      var descs := Walk(web, frames[i].html, frames[i].url);
      var k := 0;
      while k < |descs| && !truncated
        invariant 0 <= k <= |descs|
        invariant places == seen + PlacesIn(i, k)
        invariant generation == registry.State().Generation(session, tab.tabId)
        invariant followed ==> Follows(w0, ops, registry.State(), session, tab.tabId, tokens, times, |found|)
        invariant !truncated ==> places == [] || |places| < maxElements
        invariant truncated ==> |places| >= maxElements && |places| == if maxElements < 1 then 1 else maxElements
        invariant Enrolled(web, registry.State().RefsOf(session), tab, frames, places, found, generation, tokens, times,
                           registry.ttlSeconds)
        invariant forall s :: s != session ==> registry.State().RefsOf(s) == old(registry.State()).RefsOf(s)
      {
        EnrolledLengths(web, registry.State().RefsOf(session), tab, frames, places, found, generation, tokens, times,
                        registry.ttlSeconds);
        var desc := descs[k];
        ghost var st, refs := registry.State(), registry.State().RefsOf(session);
        var ref := registry.Enrol(session, tokens(|found|), tab.tabId, frames[i].id, generation, tab.url,
                                  web.originOf(frames[i].url), desc.fingerprint, desc.path, times(|found|));
        RegisterFrame(st, session, ref, Record(tab.tabId, frames[i].id, generation, tab.url, web.originOf(frames[i].url),
                                               desc.fingerprint, desc.path, times(|found|), registry.ttlSeconds));
        EnrolOneMore(web, refs, tab, frames, places, found, generation, tokens, times, registry.ttlSeconds,
                     Place(i, k), Element(frames[i].id, desc, ref));
        if followed {
          InspectionIssues(web, w0, ops, st, session, tab, frames[i], desc, tokens, times, |found|, registry.ttlSeconds);
        }
        ops := ops + IssueOps(web, session, tab, frames[i], desc, tokens(|found|), times(|found|), registry.ttlSeconds);
        found := found + [Element(frames[i].id, desc, ref)];
        OneMorePlace(seen, i, k);
        places := places + [Place(i, k)];
        k := k + 1;
        if |found| >= maxElements {
          truncated := true;
        }
      }
      PlacesOfFrame(web, frames, i, k);
    }

    /** Issue a reference for every element of the active tab, up to `maxElements`. The clock
        reads `now` at the start and `times(n)` when the n-th reference is issued. If it does not go
        back, and no token was issued before, all that has happened to the registry is `ops`: steps on
        this tab alone, after which every invariant of the registry's runs still holds. */
    method Inspect(session: string, maxElements: int, tokens: nat -> string, now: real, times: nat -> real,
                   ghost issued: set<string>)
      returns (elements: Option<seq<Element>>, truncated: bool, ghost places: seq<Place>, ghost ops: seq<Op>)
      requires forall i, j :: tokens(i) == tokens(j) ==> i == j
      modifies registry
      ensures elements.None? <==> ActiveTab(session).None?
      ensures elements.None? ==> registry.State() == old(registry.State()) && ops == []
      ensures elements.Some? && ClockRuns(now, times) && Unissued(tokens, 0, issued) ==>
                var w0 := World(old(registry.State()), issued, now);
                && registry.State() == Run(w0, ops).store
                && InspectsOnly(ops, session, ActiveTab(session).value.tabId)
                && (Sound(w0) ==> Sound(Run(w0, ops)))
      ensures elements.Some? ==>
                var tab := ActiveTab(session).value;
                var all := Places(web, Frames(web, tab), |Frames(web, tab)|);
                && places <= all
                && |places| == (if all == [] then 0 else if maxElements < 1 then 1
                                else if maxElements < |all| then maxElements else |all|)
                && (truncated <==> all != [] && |places| >= maxElements)
                && registry.State().Generation(session, tab.tabId) == old(registry.State()).Generation(session, tab.tabId) + 1
                && Enrolled(web, registry.State().RefsOf(session), tab, Frames(web, tab), places, elements.value,
                            registry.State().Generation(session, tab.tabId), tokens, times, registry.ttlSeconds)
      ensures forall s :: s != session ==>
                registry.State().RefsOf(s) == old(registry.State()).RefsOf(s)
                && registry.State().GenerationsOf(s) == old(registry.State()).GenerationsOf(s)
    {
      hide Frames, DescsOf, Enrolled, RecordAt, Follows, ClockRuns, Unissued, Sound, Run, InspectsOnly, BeginSnapshot;
      truncated, places, ops := false, [], [];
      if session !in sessions || !sessions[session].IsOpen() {
        return None, false, [], [];
      }
      var tab := sessions[session].tabs[sessions[session].activeTab];
      ghost var w0 := World(registry.State(), issued, now);
      ghost var orderly := ClockRuns(now, times) && Unissued(tokens, 0, issued);
      ops := [Op.Snapshot(session, tab.tabId)];
      var generation := registry.Snapshot(session, tab.tabId, now);
      SnapshotElsewhere(w0.store, session, tab.tabId, now);
      if orderly {
        InspectionBegins(w0, session, tab.tabId, tokens, times);
      }
      ghost var gens := registry.generations;
      var frames := FrameDocuments(web, tab);
      var found: seq<Element> := [];
      NobodyEnrolled(web, registry.State().RefsOf(session), tab, frames, generation, tokens, times, registry.ttlSeconds);
      var i := 0;
      while i < |frames| && !truncated
        invariant 0 <= i <= |frames| && registry.generations == gens
        invariant orderly ==> Follows(w0, ops, registry.State(), session, tab.tabId, tokens, times, |found|)
        invariant !truncated ==> places == Places(web, frames, i) && (places == [] || |places| < maxElements)
        invariant truncated ==> places <= Places(web, frames, |frames|) && |places| >= maxElements
                                && |places| == if maxElements < 1 then 1 else maxElements
        invariant Enrolled(web, registry.State().RefsOf(session), tab, frames, places, found, generation, tokens, times,
                           registry.ttlSeconds)
        invariant forall s :: s != session ==> registry.State().RefsOf(s) == old(registry.State()).RefsOf(s)
      {
        truncated, found, places, ops :=
          InspectFrame(session, tab, frames, i, found, generation, maxElements, tokens, times, places, w0, ops);
        PlacesGrow(web, frames, i + 1, |frames|);
        i := i + 1;
      }
      if orderly {
        InspectionFollowed(w0, ops, registry.State(), session, tab.tabId, tokens, times, |found|);
      }
      elements := Some(found);
    }
  }

  lemma InspectionFollowed(w0: World, ops: seq<Op>, st: Store, session: string, tabId: string,
                           tokens: nat -> string, times: nat -> real, n: nat)
    requires Follows(w0, ops, st, session, tabId, tokens, times, n)
    ensures Run(w0, ops).store == st && InspectsOnly(ops, session, tabId)
    ensures Sound(w0) ==> Sound(Run(w0, ops))
  {
    hide Sound;
    if Sound(w0) {
      StoredGenerationsNeverLead(w0, ops);
    }
  }

  // A snapshot leaves other sessions as they are.
  lemma SnapshotElsewhere(st: Store, session: string, tabId: string, now: real)
    ensures forall s :: s != session ==>
              && BeginSnapshot(st, session, tabId, now).RefsOf(s) == st.RefsOf(s)
              && BeginSnapshot(st, session, tabId, now).GenerationsOf(s) == st.GenerationsOf(s)
  {
  }

  lemma NoPlaces(i: nat)
    ensures PlacesIn(i, 0) == []
  {
  }

  lemma OneMorePlace(seen: seq<Place>, i: nat, k: nat)
    ensures seen + PlacesIn(i, k + 1) == seen + PlacesIn(i, k) + [Place(i, k)]
  {
    assert PlacesIn(i, k + 1) == PlacesIn(i, k) + [Place(i, k)];
  }

  lemma PlacesOfFrame(w: Web, frames: seq<Frame>, i: nat, k: nat)
    requires i < |frames| && k <= |DescsOf(w, frames, i)|
    ensures Places(w, frames, i) + PlacesIn(i, k) <= Places(w, frames, i + 1)
    ensures Places(w, frames, i) + PlacesIn(i, |DescsOf(w, frames, i)|) == Places(w, frames, i + 1)
  {
    hide Walk;
    assert PlacesIn(i, k) <= PlacesIn(i, |DescsOf(w, frames, i)|);
  }

  lemma EnrolledLengths(w: Web, refs: Refs, tab: Tab, frames: seq<Frame>, places: seq<Place>, elements: seq<Element>,
                        generation: int, tokens: nat -> string, times: nat -> real, ttl: real)
    ensures Enrolled(w, refs, tab, frames, places, elements, generation, tokens, times, ttl) ==>
              |places| == |elements|
  {
  }

  lemma NobodyEnrolled(w: Web, refs: Refs, tab: Tab, frames: seq<Frame>, generation: int,
                       tokens: nat -> string, times: nat -> real, ttl: real)
    ensures Enrolled(w, refs, tab, frames, [], [], generation, tokens, times, ttl)
  {
  }
}
