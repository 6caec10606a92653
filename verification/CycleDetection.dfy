/** `detect_cycles` in `cycles.rs` from the deduplicated graph on: components, and the cycles of each large
    enough component. */
module CycleDetection {
  import opened CycleSearch
  import opened CycleBlocking
  import opened CycleCap
  import opened CycleEngine
  import opened Reachability
  import opened Components

  /** `scc_pos`: the position of a vertex in the component, or a number that is none. */
  function PositionOf(order: seq<nat>, w: nat): (k: nat)
    ensures w in order ==> k < |order| && order[k] == w
    ensures w !in order ==> k == |order|
  {
    if order == [] then 0 else if order[0] == w then 0 else 1 + PositionOf(order[1..], w)
  }

  function Positions(order: seq<nat>, list: seq<nat>): (p: seq<nat>)
    ensures |p| == |list| && forall k :: 0 <= k < |p| ==> p[k] == PositionOf(order, list[k])
  {
    seq(|list|, k requires 0 <= k < |list| => PositionOf(order, list[k]))
  }

  /** The part of the graph that the search of one component sees. */
  function Induced(g: Graph, order: seq<nat>): (h: Graph)
    requires Within(order, |g.adj|)
    ensures |h.adj| == h.n == |order|
  {
    Graph(|order|, seq(|order|, i requires 0 <= i < |order| => Positions(order, g.adj[order[i]])))
  }

  /** The cycle that positions stand for. */
  function Named(order: seq<nat>, c: seq<nat>): (d: seq<nat>)
    ensures |d| == |c| && forall i :: 0 <= i < |c| && c[i] < |order| ==> d[i] == order[c[i]]
  {
    seq(|c|, i requires 0 <= i < |c| => if c[i] < |order| then order[c[i]] else 0)
  }

  lemma PositionIs(order: seq<nat>, k: nat)
    requires Ordered(order) && k < |order|
    ensures PositionOf(order, order[k]) == k
  {
    var p := PositionOf(order, order[k]);
    assert order[k] in order;
    assert order[p] == order[k];
  }

  /** Edges between positions are the edges between their vertices. */
  lemma InducedEdge(g: Graph, order: seq<nat>, a: nat, b: nat)
    requires |g.adj| == g.n && Ordered(order) && Within(order, g.n) && a < |order| && b < |order|
    ensures Induced(g, order).Edge(a, b) <==> g.Edge(order[a], order[b])
  {
    var h, list := Induced(g, order), g.adj[order[a]];
    assert order[a] in order && order[b] in order;
    assert h.adj[a] == Positions(order, list);
    PositionIs(order, b);
    if b in h.adj[a] {
      var k :| 0 <= k < |list| && PositionOf(order, list[k]) == b;
      assert list[k] == order[b];
    }
    if order[b] in list {
      var k :| 0 <= k < |list| && list[k] == order[b];
      assert h.adj[a][k] == b;
    }
  }

  lemma InducedIsValid(g: Graph, order: seq<nat>)
    requires g.Valid() && Ordered(order) && Within(order, g.n)
    ensures Induced(g, order).Valid()
  {
    var h := Induced(g, order);
    forall a | 0 <= a < h.n
      ensures OnceEach(h.adj[a], h.n) && a !in h.adj[a]
    {
      var list := g.adj[order[a]];
      assert order[a] in order && OnceEach(list, g.n);
      assert h.adj[a] == Positions(order, list);
      if a in h.adj[a] {
        InducedEdge(g, order, a, a);
      }
      forall i, j | 0 <= i < j < |h.adj[a]| && h.adj[a][i] < h.n
        ensures h.adj[a][i] != h.adj[a][j]
      {
        assert list[i] in order && list[i] < g.n;
      }
    }
  }

  lemma NamedPair(g: Graph, order: seq<nat>, c: seq<nat>, i: nat, j: nat)
    requires |g.adj| == g.n && Ordered(order) && Within(order, g.n) && Within(c, |order|) && i < |c| && j < |c|
    ensures var h, d := Induced(g, order), Named(order, c);
      && (h.Edge(c[i], c[j]) <==> g.Edge(d[i], d[j]))
      && (c[i] <= c[j] <==> d[i] <= d[j]) && (c[i] == c[j] <==> d[i] == d[j])
  {
    InducedEdge(g, order, c[i], c[j]);
  }

  /** A cycle of the induced graph is one of the graph, within the component, and the other way round. */
  lemma NamedIsClosed(g: Graph, order: seq<nat>, c: seq<nat>)
    requires |g.adj| == g.n && Ordered(order) && Within(order, g.n) && c != [] && Within(c, |order|)
    ensures var d := Named(order, c);
      && (Closed(Induced(g, order), c[0], c) <==> Closed(g, d[0], d))
      && (Distinct(c) <==> Distinct(d))
  {
    var h, d := Induced(g, order), Named(order, c);
    forall i, j | 0 <= i < |c| && 0 <= j < |c|
      ensures h.Edge(c[i], c[j]) <==> g.Edge(d[i], d[j])
      ensures c[i] <= c[j] <==> d[i] <= d[j]
      ensures c[i] == c[j] <==> d[i] == d[j]
    {
      NamedPair(g, order, c, i, j);
    }
    assert Within(d, g.n);
    hide Graph.Edge, Induced, Named, Ordered;
  }

  /** A cycle stays in the component of its first vertex. */
  lemma CycleInComponent(g: Graph, d: seq<nat>, comp: set<nat>)
    requires d != [] && Closed(g, d[0], d) && IsComponent(g, comp) && d[0] in comp
    ensures forall i :: 0 <= i < |d| ==> d[i] in comp
  {
    hide Graph.Edge;
    forall i | 0 <= i < |d|
      ensures d[i] in comp
    {
      var there, back := d[..i + 1], d[i..] + [d[0]];
      assert Path(g, d[0], d[i], there);
      forall j | 0 < j < |back|
        ensures g.Edge(back[j - 1], back[j])
      {
        if j < |d| - i {
          assert back[j - 1] == d[i + j - 1] && back[j] == d[i + j];
        }
      }
      assert Path(g, d[i], d[0], back);
    }
  }

  /** Positions of a cycle of the component, and back. */
  lemma NamedPositions(order: seq<nat>, d: seq<nat>)
    requires forall i :: 0 <= i < |d| ==> d[i] in order
    ensures Within(Positions(order, d), |order|) && Named(order, Positions(order, d)) == d
  {
  }

  /** The cycles of one component, by the names of their vertices. */
  function Found(g: Graph, cfg: Config, order: seq<nat>): (found: seq<seq<nat>>)
    requires |g.adj| == g.n && Within(order, g.n)
  {
    var list := Enumerate(Induced(g, order), cfg);
    seq(|list|, k requires 0 <= k < |list| => Named(order, list[k]))
  }

  lemma FoundAt(g: Graph, cfg: Config, order: seq<nat>, k: nat)
    requires g.Valid() && Ordered(order) && Within(order, g.n)
    requires k < |Found(g, cfg, order)|
    ensures var c, d := Enumerate(Induced(g, order), cfg)[k], Found(g, cfg, order)[k];
      && d == Named(order, c) && c != [] && Within(c, |order|) && Reported(Induced(g, order), cfg, c)
      && d != [] && Closed(g, d[0], d) && |d| <= cfg.maxLength && d[0] in order
      && (Distinct(c) <==> Distinct(d))
  {
    hide Enumerate;
    var h := Induced(g, order);
    InducedIsValid(g, order);
    EnumerateReports(h, cfg);
    var c := Enumerate(h, cfg)[k];
    assert c in Enumerate(h, cfg) && Reported(h, cfg, c);
    assert Within(c, |order|);
    NamedIsClosed(g, order, c);
    hide Induced, Graph.Valid, Closed;
  }

  /** Different positions name different cycles. */
  lemma NamedIsInjective(order: seq<nat>, a: seq<nat>, b: seq<nat>)
    requires Ordered(order) && Within(a, |order|) && Within(b, |order|) && Named(order, a) == Named(order, b)
    ensures a == b
  {
    forall i | 0 <= i < |a|
      ensures a[i] == b[i]
    {
      assert order[a[i]] == Named(order, a)[i] == Named(order, b)[i] == order[b[i]];
    }
  }

  lemma FoundIsDistinct(g: Graph, cfg: Config, order: seq<nat>)
    requires g.Valid() && Ordered(order) && Within(order, g.n)
    ensures Distinct(Found(g, cfg, order))
  {
    var h := Induced(g, order);
    InducedIsValid(g, order);
    EnumerateReports(h, cfg);
    hide Enumerate, Induced;
    forall i, j | 0 <= i < j < |Found(g, cfg, order)|
      ensures Found(g, cfg, order)[i] != Found(g, cfg, order)[j]
    {
      FoundAt(g, cfg, order, i);
      FoundAt(g, cfg, order, j);
      if Found(g, cfg, order)[i] == Found(g, cfg, order)[j] {
        NamedIsInjective(order, Enumerate(h, cfg)[i], Enumerate(h, cfg)[j]);
      }
    }
  }

  /** The bounds do not bind on a component: neither its size nor the number of its elementary cycles is
      larger. */
  ghost predicate Roomy(g: Graph, cfg: Config, order: seq<nat>)
    requires |g.adj| == g.n && Within(order, g.n)
  {
    |order| <= cfg.maxLength && |ElementaryCycles(Induced(g, order))| <= cfg.maxCycles
  }

  lemma FoundAreElementary(g: Graph, cfg: Config, order: seq<nat>, d: seq<nat>)
    requires g.Valid() && Ordered(order) && Within(order, g.n) && Roomy(g, cfg, order) && d in Found(g, cfg, order)
    ensures d != [] && Elementary(g, d[0], d) && d[0] in order
  {
    hide Enumerate;
    var h := Induced(g, order);
    InducedIsValid(g, order);
    EnumerateCounts(h, cfg);
    var list := Enumerate(h, cfg);
    hide Induced, Graph.Valid, Closed;
    var k :| 0 <= k < |Found(g, cfg, order)| && Found(g, cfg, order)[k] == d;
    FoundAt(g, cfg, order, k);
    assert list[k] in list;
  }

  lemma ElementaryAreFound(g: Graph, cfg: Config, order: seq<nat>, d: seq<nat>)
    requires g.Valid() && Ordered(order) && Within(order, g.n) && Roomy(g, cfg, order)
    requires d != [] && Elementary(g, d[0], d) && forall i :: 0 <= i < |d| ==> d[i] in order
    ensures d in Found(g, cfg, order)
  {
    hide Enumerate;
    var h := Induced(g, order);
    InducedIsValid(g, order);
    EnumerateCounts(h, cfg);
    var list := Enumerate(h, cfg);
    NamedPositions(order, d);
    var c := Positions(order, d);
    NamedIsClosed(g, order, c);
    hide Induced, Graph.Valid, Closed, Positions;
    assert Elementary(h, c[0], c) && c in list;
    var k :| 0 <= k < |list| && list[k] == c;
    assert Found(g, cfg, order)[k] == d;
  }

  /** Where they do not, exactly the elementary cycles of the component are found. */
  lemma FoundIsExact(g: Graph, cfg: Config, order: seq<nat>, comp: set<nat>, d: seq<nat>)
    requires g.Valid() && Ordered(order) && Within(order, g.n) && Roomy(g, cfg, order)
    requires IsComponent(g, comp) && forall x: nat :: x in order <==> x in comp
    ensures d in Found(g, cfg, order) <==> d != [] && Elementary(g, d[0], d) && d[0] in comp
  {
    hide Roomy, IsComponent, Found;
    if d in Found(g, cfg, order) {
      FoundAreElementary(g, cfg, order, d);
    }
    if d != [] && Elementary(g, d[0], d) && d[0] in comp {
      CycleInComponent(g, d, comp);
      ElementaryAreFound(g, cfg, order, d);
    }
  }

  // ---------------------------------------------------------------------------------------------
  // All components
  // ---------------------------------------------------------------------------------------------

  /** The cycles of all large enough components, in the order of the list. */
  function Detected(g: Graph, cfg: Config, minSize: nat, sccs: seq<seq<nat>>): seq<seq<nat>>
    requires |g.adj| == g.n && forall i :: 0 <= i < |sccs| ==> Within(sccs[i], g.n)
  {
    if sccs == [] then []
    else
      var order := sccs[|sccs| - 1];
      Detected(g, cfg, minSize, sccs[..|sccs| - 1]) + if |order| < minSize then [] else Found(g, cfg, order)
  }

  /** The cycle lies in a component of the list that is large enough. */
  ghost predicate InLarge(minSize: nat, sccs: seq<seq<nat>>, v: nat) {
    exists i :: 0 <= i < |sccs| && v in sccs[i] && |sccs[i]| >= minSize
  }

  /** For any bounds, no cycle is reported twice, and each is a closed walk within the length bound from its
      smallest vertex, in a large enough component. */
  lemma {:induction false} DetectedIsSound(g: Graph, cfg: Config, minSize: nat, sccs: seq<seq<nat>>)
    requires g.Valid() && AreComponents(g, sccs)
    ensures var found := Detected(g, cfg, minSize, sccs);
      && Distinct(found)
      && forall d :: d in found ==>
         d != [] && Closed(g, d[0], d) && |d| <= cfg.maxLength && InLarge(minSize, sccs, d[0])
  {
    hide Found, IsComponent, Closed;
    if sccs == [] {
    } else {
      var front, last := sccs[..|sccs| - 1], sccs[|sccs| - 1];
      DetectedIsSound(g, cfg, minSize, front);
      var a, b := Detected(g, cfg, minSize, front), Found(g, cfg, last);
      LargeGrows(minSize, sccs);
      if |last| >= minSize {
        FoundIsDistinct(g, cfg, last);
        forall d | d in b
          ensures d != [] && Closed(g, d[0], d) && |d| <= cfg.maxLength && d[0] in last
        {
          var k :| 0 <= k < |b| && b[k] == d;
          FoundAt(g, cfg, last, k);
        }
        forall d | d in a
          ensures d !in b
        {
          LargeIsElsewhere(g, minSize, sccs, d[0]);
        }
        DistinctConcat(a, b);
        assert sccs[|sccs| - 1] == last;
      }
    }
  }

  lemma LargeGrows(minSize: nat, sccs: seq<seq<nat>>)
    requires sccs != []
    ensures forall v :: InLarge(minSize, sccs[..|sccs| - 1], v) ==> InLarge(minSize, sccs, v)
  {
    forall v | InLarge(minSize, sccs[..|sccs| - 1], v)
      ensures InLarge(minSize, sccs, v)
    {
      var front := sccs[..|sccs| - 1];
      var i :| 0 <= i < |front| && v in front[i] && |front[i]| >= minSize;
      assert sccs[i] == front[i];
    }
  }

  lemma LargeIsElsewhere(g: Graph, minSize: nat, sccs: seq<seq<nat>>, v: nat)
    requires AreComponents(g, sccs) && sccs != [] && InLarge(minSize, sccs[..|sccs| - 1], v)
    ensures v !in sccs[|sccs| - 1]
  {
    hide IsComponent;
    var front := sccs[..|sccs| - 1];
    var i :| 0 <= i < |front| && v in front[i] && |front[i]| >= minSize;
    assert sccs[i] == front[i] && v in sccs[i];
  }

  /** No large enough component is bounded by the limits. */
  ghost predicate AllRoomy(g: Graph, cfg: Config, minSize: nat, sccs: seq<seq<nat>>)
    requires |g.adj| == g.n && forall i :: 0 <= i < |sccs| ==> Within(sccs[i], g.n)
  {
    forall i :: 0 <= i < |sccs| && |sccs[i]| >= minSize ==> Roomy(g, cfg, sccs[i])
  }

  /** Then exactly the elementary cycles of the large enough components are reported. */
  lemma {:induction false} DetectedIsExact(g: Graph, cfg: Config, minSize: nat, sccs: seq<seq<nat>>, d: seq<nat>)
    requires g.Valid() && AreComponents(g, sccs) && AllRoomy(g, cfg, minSize, sccs)
    ensures d in Detected(g, cfg, minSize, sccs) <==>
      d != [] && Elementary(g, d[0], d) && InLarge(minSize, sccs, d[0])
  {
    hide Found, Graph.Valid, Elementary, Roomy;
    if sccs == [] {
    } else {
      var front, last := sccs[..|sccs| - 1], sccs[|sccs| - 1];
      DetectedIsExact(g, cfg, minSize, front, d);
      LargeGrows(minSize, sccs);
      assert IsComponent(g, Members(last));
      if |last| >= minSize {
        FoundIsExact(g, cfg, last, Members(last), d);
      }
      if d != [] {
        LargeSplits(minSize, sccs, d);
      }
    }
  }

  lemma LargeSplits(minSize: nat, sccs: seq<seq<nat>>, d: seq<nat>)
    requires sccs != [] && d != []
    ensures InLarge(minSize, sccs, d[0]) <==>
      InLarge(minSize, sccs[..|sccs| - 1], d[0]) ||
      (d[0] in sccs[|sccs| - 1] && |sccs[|sccs| - 1]| >= minSize)
  {
    LargeGrows(minSize, sccs);
    var front := sccs[..|sccs| - 1];
    if InLarge(minSize, sccs, d[0]) {
      var i :| 0 <= i < |sccs| && d[0] in sccs[i] && |sccs[i]| >= minSize;
      assert i < |front| ==> front[i] == sccs[i];
    }
  }

  lemma DetectedStep(g: Graph, cfg: Config, minSize: nat, sccs: seq<seq<nat>>, k: nat)
    requires |g.adj| == g.n && k < |sccs| && forall i :: 0 <= i < |sccs| ==> Within(sccs[i], g.n)
    ensures Detected(g, cfg, minSize, sccs[..k + 1]) ==
      Detected(g, cfg, minSize, sccs[..k]) + if |sccs[k]| < minSize then [] else Found(g, cfg, sccs[k])
  {
    assert sccs[..k + 1][..k] == sccs[..k];
  }

  lemma DetectedInNone(g: Graph, cfg: Config, minSize: nat)
    requires |g.adj| == g.n
    ensures Detected(g, cfg, minSize, []) == []
  {
  }

  /** `detect_cycles` after the edges are deduplicated: the components, then the cycles of each. The
      components are returned for the specification only; they are determined by the graph. */
  method DetectCycles(g: Graph, cfg: Config, minSize: nat) returns (cycles: seq<seq<nat>>, ghost sccs: seq<seq<nat>>)
    requires g.Valid() && Whole(g)
    ensures AreComponents(g, sccs) && AllCovered(g, sccs) && AllRanked(sccs)
    ensures cycles == Detected(g, cfg, minSize, sccs)
    ensures Distinct(cycles)
    ensures forall d :: d in cycles ==>
      d != [] && Closed(g, d[0], d) && |d| <= cfg.maxLength && InLarge(minSize, sccs, d[0])
    ensures AllRoomy(g, cfg, minSize, sccs) ==>
      forall d :: d in cycles <==> d != [] && Elementary(g, d[0], d) && InLarge(minSize, sccs, d[0])
  {
    hide Enumerate, IsComponent, Induced, Elementary, Closed, InLarge, Detected, AllRoomy, AllRanked, AllCovered;
    var list := TarjanScc(g);
    sccs := list;
    cycles := [];
    assert list[..0] == [];
    DetectedInNone(g, cfg, minSize);
    for k := 0 to |list|
      invariant cycles == Detected(g, cfg, minSize, list[..k])
    {
      DetectedStep(g, cfg, minSize, list, k);
      if |list[k]| >= minSize {
        var found := FindIn(g, cfg, list[k]);
        cycles := cycles + found;
      }
    }
    assert list[..|list|] == list;
    DetectedIsSound(g, cfg, minSize, list);
    if AllRoomy(g, cfg, minSize, list) {
      forall d
        ensures d in cycles <==> d != [] && Elementary(g, d[0], d) && InLarge(minSize, list, d[0])
      {
        DetectedIsExact(g, cfg, minSize, list, d);
      }
    }
  }

  /** The search of one component, with its cycles named. */
  method FindIn(g: Graph, cfg: Config, order: seq<nat>) returns (found: seq<seq<nat>>)
    requires |g.adj| == g.n && Within(order, g.n)
    ensures found == Found(g, cfg, order)
  {
    hide Enumerate, Induced;
    var list := EnumerateCycles(Induced(g, order), cfg);
    found := [];
    for k := 0 to |list|
      invariant |found| == k && forall i :: 0 <= i < k ==> found[i] == Named(order, list[i])
    {
      found := found + [Named(order, list[k])];
    }
  }
}
