/** From a path of the cycle search to the reported record (`build_cycle` in `cycles.rs`): addresses, the
    amount of every edge, and the time the cycle spans. */
module CycleRecords {
  import opened Wrappers
  import opened CycleSearch
  import opened Components
  import opened CycleDetection

  /** A reported cycle: its addresses, the amount of every edge, the last of which leads from the last address
      to the first, and the minutes it spans. */
  datatype Cycle = Cycle(vertices: seq<string>, edgeAmounts: seq<nat>, spanMinutes: nat)

  /** The aggregated transfers of one directed pair; times are in nanoseconds. */
  datatype EdgeData = EdgeData(amountRawSum: nat, minBlockTime: int, maxBlockTime: int)

  type EdgeMap = map<(nat, nat), EdgeData>

  const NANOS_PER_SECOND: int := 1_000_000_000

  /** Where edge `i` of a cycle leads: to the next vertex, or from the last one back to `s`. */
  function Next(path: seq<nat>, s: nat, i: nat): nat
    requires i < |path|
  {
    if i + 1 < |path| then path[i + 1] else s
  }

  predicate HasEdge(path: seq<nat>, s: nat, i: nat, edges: EdgeMap, names: seq<string>)
    requires i < |path|
  {
    path[i] < |names| && (path[i], Next(path, s, i)) in edges
  }

  function EdgeAt(path: seq<nat>, s: nat, i: nat, edges: EdgeMap, names: seq<string>): EdgeData
    requires i < |path| && HasEdge(path, s, i, edges, names)
  {
    edges[(path[i], Next(path, s, i))]
  }

  ghost predicate HasEdges(path: seq<nat>, s: nat, n: nat, edges: EdgeMap, names: seq<string>)
    requires n <= |path|
  {
    forall i :: 0 <= i < n ==> HasEdge(path, s, i, edges, names)
  }

  /** The window is the smallest that holds the first `n` edges. */
  ghost predicate Spans(first: int, last: int, path: seq<nat>, s: nat, n: nat, edges: EdgeMap, names: seq<string>)
    requires n <= |path| && HasEdges(path, s, n, edges, names)
  {
    && (forall i :: 0 <= i < n ==> first <= EdgeAt(path, s, i, edges, names).minBlockTime)
    && (forall i :: 0 <= i < n ==> EdgeAt(path, s, i, edges, names).maxBlockTime <= last)
    && (exists i :: 0 <= i < n && first == EdgeAt(path, s, i, edges, names).minBlockTime)
    && (exists i :: 0 <= i < n && last == EdgeAt(path, s, i, edges, names).maxBlockTime)
  }

  /** Whole minutes of a window; none for a window that ends before it begins. */
  function Minutes(first: int, last: int): nat {
    if last <= first then 0 else (last - first) / NANOS_PER_SECOND / 60
  }

  /** The whole minutes between two times. */
  lemma MinutesMeaning(first: int, last: int)
    ensures first <= last ==>
      Minutes(first, last) * 60_000_000_000 <= last - first < (Minutes(first, last) + 1) * 60_000_000_000
    ensures last <= first ==> Minutes(first, last) == 0
  {
  }

  /** Edge `i` of a cycle is the one from its vertex to the next, and from the last vertex to `s`. */
  lemma EdgeMeaning(path: seq<nat>, s: nat, i: nat, edges: EdgeMap, names: seq<string>)
    requires i < |path|
    ensures
      var to := if i == |path| - 1 then s else path[i + 1];
      && (HasEdge(path, s, i, edges, names) <==> (path[i], to) in edges && path[i] < |names|)
      && (HasEdge(path, s, i, edges, names) ==> EdgeAt(path, s, i, edges, names) == edges[(path[i], to)])
  {
  }

  /** The record lists the addresses of the path and the amounts of its edges, in order. */
  ghost predicate Records(cycle: Cycle, path: seq<nat>, s: nat, n: nat, edges: EdgeMap, names: seq<string>)
    requires n <= |path| && HasEdges(path, s, n, edges, names)
  {
    && |cycle.vertices| == n && |cycle.edgeAmounts| == n
    && forall i :: 0 <= i < n ==>
         HasEdge(path, s, i, edges, names) && cycle.vertices[i] == names[path[i]] &&
           cycle.edgeAmounts[i] == EdgeAt(path, s, i, edges, names).amountRawSum
  }

  lemma SpanGrows(first: int, last: int, path: seq<nat>, s: nat, n: nat, edges: EdgeMap, names: seq<string>)
    requires n < |path| && HasEdges(path, s, n + 1, edges, names)
    requires n > 0 ==> Spans(first, last, path, s, n, edges, names)
    ensures var edge := EdgeAt(path, s, n, edges, names);
      Spans(
        if n == 0 || edge.minBlockTime < first then edge.minBlockTime else first,
        if n == 0 || edge.maxBlockTime > last then edge.maxBlockTime else last,
        path, s, n + 1, edges, names)
  {
    hide HasEdge, EdgeAt;
    if n > 0 {
      var i :| 0 <= i < n && first == EdgeAt(path, s, i, edges, names).minBlockTime;
      var j :| 0 <= j < n && last == EdgeAt(path, s, j, edges, names).maxBlockTime;
      assert 0 <= i < n + 1 && 0 <= j < n + 1;
    }
    var edge := EdgeAt(path, s, n, edges, names);
    assert 0 <= n < n + 1;
  }

  /** `build_cycle`: nothing exactly if an address or an edge is missing. */
  method BuildCycle(path: seq<nat>, s: nat, edges: EdgeMap, names: seq<string>)
    returns (result: Option<Cycle>)
    ensures result.Some? <==> HasEdges(path, s, |path|, edges, names)
    ensures result.Some? ==> Records(result.value, path, s, |path|, edges, names)
    ensures result.Some? && path == [] ==> result.value.spanMinutes == 0
    ensures result.Some? && path != [] ==> exists first, last ::
      Spans(first, last, path, s, |path|, edges, names) && result.value.spanMinutes == Minutes(first, last)
  {
    hide Spans;
    var vertices: seq<string> := [];
    var amounts: seq<nat> := [];
    var first, last: Option<int> := None, None;
    for i := 0 to |path|
      invariant HasEdges(path, s, i, edges, names)
      invariant Records(Cycle(vertices, amounts, 0), path, s, i, edges, names)
      invariant (first.None? <==> i == 0) && (last.None? <==> i == 0)
      invariant i > 0 ==> Spans(first.value, last.value, path, s, i, edges, names)
    {
      var v := path[i];
      if v >= |names| {
        assert !HasEdge(path, s, i, edges, names);
        return None;
      }
      vertices := vertices + [names[v]];
      var next := if i + 1 < |path| then path[i + 1] else s;
      if (v, next) !in edges {
        assert !HasEdge(path, s, i, edges, names);
        return None;
      }
      var edge := edges[(v, next)];
      assert HasEdge(path, s, i, edges, names);
      SpanGrows(if i == 0 then 0 else first.value, if i == 0 then 0 else last.value, path, s, i, edges, names);
      amounts := amounts + [edge.amountRawSum];
      if first.None? || edge.minBlockTime < first.value {
        first := Some(edge.minBlockTime);
      }
      if last.None? || edge.maxBlockTime > last.value {
        last := Some(edge.maxBlockTime);
      }
    }
    var minutes := if first.Some? && last.Some? then Minutes(first.value, last.value) else 0;
    return Some(Cycle(vertices, amounts, minutes));
  }

  /** No detected cycle is lost here, if every edge of the graph has its data and every vertex its address. */
  lemma DetectedIsRecorded(
    g: Graph, cfg: Config, minSize: nat, sccs: seq<seq<nat>>, d: seq<nat>, edges: EdgeMap, names: seq<string>)
    requires g.Valid() && AreComponents(g, sccs) && d in Detected(g, cfg, minSize, sccs) && |names| >= g.n
    requires forall v: nat, w: nat :: v < g.n && g.Edge(v, w) ==> (v, w) in edges
    ensures d != [] && HasEdges(d, d[0], |d|, edges, names)
  {
    hide Detected, AreComponents;
    DetectedIsSound(g, cfg, minSize, sccs);
    forall i | 0 <= i < |d|
      ensures HasEdge(d, d[0], i, edges, names)
    {
      assert g.Edge(d[i], Next(d, d[0], i));
    }
  }
}
