/** Enumeration of elementary cycles in one strongly connected component (`cycles.rs`), with its bounds on
    the length of a path and on the number of reported cycles.

    Vertices are named by their position in the sorted component; an entry of an adjacency list that is not
    below the number of vertices is a neighbour outside the component. */
module CycleSearch {

  datatype Graph = Graph(n: nat, adj: seq<seq<nat>>) {
    ghost predicate Valid() {
      |adj| == n && forall v :: 0 <= v < n ==> OnceEach(adj[v], n) && v !in adj[v]
    }

    predicate Edge(v: nat, w: nat) { v < |adj| && w < n && w in adj[v] }
  }

  /** Neighbours in the component are listed once. */
  ghost predicate OnceEach(list: seq<nat>, n: nat) {
    forall i, j :: 0 <= i < j < |list| && list[i] < n ==> list[i] != list[j]
  }

  datatype Config = Config(maxLength: nat, maxCycles: nat)

  /** The variables of the search: the blocked vertices, for every vertex the vertices to be unblocked with
      it, the current path and the cycles found so far. */
  datatype State = State(blocked: set<nat>, blockers: seq<seq<nat>>, path: seq<nat>, detected: seq<seq<nat>>) {
    ghost predicate Fits(g: Graph) {
      && |g.adj| == g.n && |blockers| == g.n
      && (forall v :: v in blocked ==> v < g.n)
    }
  }

  // ---------------------------------------------------------------------------------------------
  // Unblocking
  // ---------------------------------------------------------------------------------------------

  function Release(st: State, u: nat): State
    requires u < |st.blockers|
  {
    st.(blocked := st.blocked - {u}, blockers := st.blockers[u := []])
  }

  /** Unblocks everything in a list, and with every vertex what waits for it. */
  function Flush(st: State, work: seq<nat>): (r: State)
    requires forall v :: v in st.blocked ==> v < |st.blockers|
    ensures |r.blockers| == |st.blockers| && r.path == st.path && r.detected == st.detected
    ensures r.blocked <= st.blocked
    decreases |st.blocked|, |work|
  {
    if work == [] then st
    else if work[0] in st.blocked then
      Smaller(st.blocked, work[0]);
      Flush(Release(st, work[0]), st.blockers[work[0]] + work[1..])
    else Flush(st, work[1..])
  }

  lemma Smaller(s: set<nat>, x: nat)
    requires x in s
    ensures |s - {x}| < |s|
  {
  }

  function Unblock(st: State, u: nat): (r: State)
    requires u < |st.blockers| && forall v :: v in st.blocked ==> v < |st.blockers|
    ensures |r.blockers| == |st.blockers| && r.path == st.path && r.detected == st.detected
    ensures r.blocked <= st.blocked - {u}
  {
    Flush(Release(st, u), st.blockers[u])
  }

  // ---------------------------------------------------------------------------------------------
  // The search
  // ---------------------------------------------------------------------------------------------

  /** The neighbours a search from `s` follows: those in the component that are not below `s`. */
  predicate Active(g: Graph, s: nat, w: nat) { s <= w < g.n }

  /** Vertex `v` waits for its successors from the `k`-th on. */
  function Await(g: Graph, s: nat, v: nat, k: nat, st: State): (r: State)
    requires st.Fits(g) && v < g.n && k <= |g.adj[v]|
    ensures r.Fits(g) && r.path == st.path && r.detected == st.detected && r.blocked == st.blocked
    decreases |g.adj[v]| - k
  {
    if k == |g.adj[v]| then st
    else
      var w := g.adj[v][k];
      if !Active(g, s, w) || v in st.blockers[w] then Await(g, s, v, k + 1, st)
      else Await(g, s, v, k + 1, st.(blockers := st.blockers[w := st.blockers[w] + [v]]))
  }

  function Push(st: State, v: nat): State { st.(path := st.path + [v], blocked := st.blocked + {v}) }

  /** The call returns at once: the path is as long as allowed, or enough cycles are found. */
  predicate Refused(cfg: Config, st: State) {
    |st.path| >= cfg.maxLength || |st.detected| >= cfg.maxCycles
  }

  /** How much longer the path may become. */
  function Room(cfg: Config, st: State): nat {
    if |st.path| < cfg.maxLength then cfg.maxLength - |st.path| else 0
  }

  /** What follows the loop over the neighbours of `v`. */
  function Leave(g: Graph, s: nat, v: nat, st: State, found: bool): (r: State)
    requires st.Fits(g) && v < g.n && st.path != []
    ensures r.Fits(g) && r.path == st.path[..|st.path| - 1] && r.detected == st.detected
  {
    var after := if found then Unblock(st, v) else Await(g, s, v, 0, st);
    after.(path := st.path[..|st.path| - 1])
  }

  /** `circuit`: the new state and whether a cycle was found. */
  function Circuit(g: Graph, cfg: Config, s: nat, v: nat, st: State): (r: (State, bool))
    requires st.Fits(g) && v < g.n
    ensures r.0.Fits(g) && r.0.path == st.path
    decreases Room(cfg, st), 0, 0
  {
    if Refused(cfg, st) then (st, false)
    else
      var (looped, found) := Visit(g, cfg, s, v, 0, Push(st, v), false);
      assert (st.path + [v])[..|st.path|] == st.path;
      (Leave(g, s, v, looped, found), found)
  }

  /** One neighbour `w` of the last vertex on the path, inside the component and not below `s`. */
  function Turn(g: Graph, cfg: Config, s: nat, w: nat, st: State): (r: (State, bool))
    requires st.Fits(g) && w < g.n && |st.path| <= cfg.maxLength
    ensures r.0.Fits(g) && r.0.path == st.path
    decreases Room(cfg, st), 1, 0
  {
    if w == s then (if |st.path| >= 2 then st.(detected := st.detected + [st.path]) else st, true)
    else if w in st.blocked then (st, false)
    else Circuit(g, cfg, s, w, st)
  }

  /** The loop over the neighbours of `v`, from the `k`-th on. */
  function Visit(g: Graph, cfg: Config, s: nat, v: nat, k: nat, st: State, found: bool): (r: (State, bool))
    requires st.Fits(g) && v < g.n && k <= |g.adj[v]| && |st.path| <= cfg.maxLength
    ensures r.0.Fits(g) && r.0.path == st.path
    decreases Room(cfg, st), 2, |g.adj[v]| - k
  {
    if k == |g.adj[v]| then (st, found)
    else
      var w := g.adj[v][k];
      if !Active(g, s, w) then Visit(g, cfg, s, v, k + 1, st, found)
      else
        var (next, hit) := Turn(g, cfg, s, w, st);
        if |next.detected| >= cfg.maxCycles then (next, found || hit)
        else Visit(g, cfg, s, v, k + 1, next, found || hit)
  }

  /** The blocked vertices and waiting lists of `s` and all later vertices are cleared. */
  function Reset(s: nat, st: State): State {
    st.(blocked := (set v | v in st.blocked && v < s),
        blockers := seq(|st.blockers|, i requires 0 <= i < |st.blockers| => if i < s then st.blockers[i] else []))
  }

  function Rounds(g: Graph, cfg: Config, s: nat, st: State): State
    requires st.Fits(g) && s <= g.n
    decreases g.n - s
  {
    if s == g.n then st
    else
      var next := Circuit(g, cfg, s, s, Reset(s, st)).0;
      if |next.detected| >= cfg.maxCycles then next else Rounds(g, cfg, s + 1, next)
  }

  function Initial(n: nat): State { State({}, seq(n, _ => []), [], []) }

  /** `enumerate_cycles_in_scc`. */
  function Enumerate(g: Graph, cfg: Config): seq<seq<nat>>
    requires |g.adj| == g.n
  {
    Rounds(g, cfg, 0, Initial(g.n)).detected
  }

  // ---------------------------------------------------------------------------------------------
  // The definitions, one step at a time
  // ---------------------------------------------------------------------------------------------

  lemma CircuitRefused(g: Graph, cfg: Config, s: nat, v: nat, st: State)
    requires st.Fits(g) && v < g.n && Refused(cfg, st)
    ensures Circuit(g, cfg, s, v, st) == (st, false)
  {
  }

  lemma CircuitUnfolds(g: Graph, cfg: Config, s: nat, v: nat, st: State)
    requires st.Fits(g) && v < g.n && !Refused(cfg, st)
    ensures var (looped, found) := Visit(g, cfg, s, v, 0, Push(st, v), false);
      && looped.Fits(g) && looped.path == st.path + [v]
      && Circuit(g, cfg, s, v, st) == (Leave(g, s, v, looped, found), found)
  {
  }

  lemma VisitUnfolds(g: Graph, cfg: Config, s: nat, v: nat, k: nat, st: State, found: bool)
    requires st.Fits(g) && v < g.n && k < |g.adj[v]| && |st.path| <= cfg.maxLength
    ensures !Active(g, s, g.adj[v][k]) ==> Visit(g, cfg, s, v, k, st, found) == Visit(g, cfg, s, v, k + 1, st, found)
    ensures Active(g, s, g.adj[v][k]) ==>
      var (next, hit) := Turn(g, cfg, s, g.adj[v][k], st);
      Visit(g, cfg, s, v, k, st, found) ==
        if |next.detected| >= cfg.maxCycles then (next, found || hit)
        else Visit(g, cfg, s, v, k + 1, next, found || hit)
  {
  }

  lemma VisitOver(g: Graph, cfg: Config, s: nat, v: nat, st: State, found: bool)
    requires st.Fits(g) && v < g.n && |st.path| <= cfg.maxLength
    ensures Visit(g, cfg, s, v, |g.adj[v]|, st, found) == (st, found)
  {
  }

  lemma TurnUnfolds(g: Graph, cfg: Config, s: nat, w: nat, st: State)
    requires st.Fits(g) && w < g.n && |st.path| <= cfg.maxLength
    ensures w == s ==>
      Turn(g, cfg, s, w, st) == (if |st.path| >= 2 then st.(detected := st.detected + [st.path]) else st, true)
    ensures w != s && w in st.blocked ==> Turn(g, cfg, s, w, st) == (st, false)
    ensures w != s && w !in st.blocked ==> Turn(g, cfg, s, w, st) == Circuit(g, cfg, s, w, st)
  {
  }

  lemma RoundsUnfolds(g: Graph, cfg: Config, s: nat, st: State)
    requires st.Fits(g) && s < g.n
    ensures Reset(s, st).Fits(g)
    ensures var next := Circuit(g, cfg, s, s, Reset(s, st)).0;
      Rounds(g, cfg, s, st) == if |next.detected| >= cfg.maxCycles then next else Rounds(g, cfg, s + 1, next)
  {
  }

  lemma RoundsOver(g: Graph, cfg: Config, st: State)
    requires st.Fits(g)
    ensures Rounds(g, cfg, g.n, st) == st
  {
  }

  // ---------------------------------------------------------------------------------------------
  // Whatever the bounds: closed walks, each once
  // ---------------------------------------------------------------------------------------------

  /** A walk from `s` over later vertices of the component. */
  ghost predicate Walk(g: Graph, s: nat, p: seq<nat>) {
    && p != [] && p[0] == s
    && (forall i :: 0 <= i < |p| ==> s <= p[i] < g.n)
    && (forall i :: 0 < i < |p| ==> p[i] != s && g.Edge(p[i - 1], p[i]))
  }

  /** A cycle as it is reported: a walk of at least two vertices from its smallest vertex, whose last vertex
      has an edge back. */
  ghost predicate Closed(g: Graph, s: nat, c: seq<nat>) {
    Walk(g, s, c) && |c| >= 2 && g.Edge(c[|c| - 1], s)
  }

  ghost predicate Distinct<T>(items: seq<T>) { forall i, j :: 0 <= i < j < |items| ==> items[i] != items[j] }

  /** The cycles reported between two states. */
  function News(before: State, after: State): seq<seq<nat>>
    requires before.detected <= after.detected
  {
    after.detected[|before.detected|..]
  }

  /** Between two states distinct closed walks that begin with `prefix` were reported, within the bounds. */
  ghost predicate Grows(g: Graph, cfg: Config, s: nat, prefix: seq<nat>, before: State, after: State) {
    && before.detected <= after.detected
    && (forall c :: c in News(before, after) ==> prefix <= c && Closed(g, s, c) && |c| <= cfg.maxLength)
    && Distinct(News(before, after))
    && (|before.detected| <= cfg.maxCycles ==> |after.detected| <= cfg.maxCycles)
  }

  /** The neighbour through which a cycle continues after `path`. */
  function Branch(s: nat, path: seq<nat>, c: seq<nat>): nat { if |c| <= |path| then s else c[|path|] }

  lemma {:induction false} CircuitGrows(g: Graph, cfg: Config, s: nat, v: nat, st: State)
    requires g.Valid() && st.Fits(g) && v < g.n && Walk(g, s, st.path + [v])
    ensures Grows(g, cfg, s, st.path + [v], st, Circuit(g, cfg, s, v, st).0)
    ensures !Circuit(g, cfg, s, v, st).1 ==> Circuit(g, cfg, s, v, st).0.detected == st.detected
    decreases Room(cfg, st), 0, 0
  {
    if !Refused(cfg, st) {
      VisitGrows(g, cfg, s, v, 0, Push(st, v), false);
    }
  }

  lemma {:induction false} TurnGrows(g: Graph, cfg: Config, s: nat, w: nat, st: State)
    requires g.Valid() && st.Fits(g) && w < g.n && |st.path| <= cfg.maxLength
    requires Walk(g, s, st.path) && g.Edge(st.path[|st.path| - 1], w) && s <= w && |st.detected| < cfg.maxCycles
    ensures var next := Turn(g, cfg, s, w, st).0;
      && Grows(g, cfg, s, st.path, st, next)
      && (forall c :: c in News(st, next) ==> Branch(s, st.path, c) == w)
    ensures !Turn(g, cfg, s, w, st).1 ==> Turn(g, cfg, s, w, st).0.detected == st.detected
    decreases Room(cfg, st), 1, 0
  {
    if w != s && w !in st.blocked {
      assert Walk(g, s, st.path + [w]);
      CircuitGrows(g, cfg, s, w, st);
    }
  }

  lemma OnceAt(g: Graph, v: nat, k: nat)
    requires g.Valid() && v < g.n && k < |g.adj[v]| && g.adj[v][k] < g.n
    ensures g.adj[v][k] !in g.adj[v][k + 1..]
  {
  }

  lemma GrowsByNothing(g: Graph, cfg: Config, s: nat, path: seq<nat>, st: State)
    requires |st.detected| <= cfg.maxCycles
    ensures Grows(g, cfg, s, path, st, st)
  {
  }

  lemma GrowsOn(g: Graph, cfg: Config, s: nat, path: seq<nat>, a: State, b: State, c: State, w: nat)
    requires Grows(g, cfg, s, path, a, b) && Grows(g, cfg, s, path, b, c)
    requires forall x :: x in News(a, b) ==> Branch(s, path, x) == w
    requires forall x :: x in News(b, c) ==> Branch(s, path, x) != w
    ensures Grows(g, cfg, s, path, a, c)
    ensures forall x :: x in News(a, c) ==> x in News(a, b) || x in News(b, c)
  {
    hide Branch, Closed;
    DistinctConcat(News(a, b), News(b, c));
    assert News(a, c) == News(a, b) + News(b, c);
  }

  lemma DistinctConcat<T>(x: seq<T>, y: seq<T>)
    requires Distinct(x) && Distinct(y) && forall a :: a in x ==> a !in y
    ensures Distinct(x + y)
  {
    forall i, j | 0 <= i < j < |x + y|
      ensures (x + y)[i] != (x + y)[j]
    {
      if i < |x| <= j {
        assert x[i] !in y && y[j - |x|] in y;
      }
    }
  }

  lemma {:induction false} VisitGrows(g: Graph, cfg: Config, s: nat, v: nat, k: nat, st: State, found: bool)
    requires g.Valid() && st.Fits(g) && v < g.n && k <= |g.adj[v]| && |st.path| <= cfg.maxLength
    requires Walk(g, s, st.path) && st.path[|st.path| - 1] == v && |st.detected| < cfg.maxCycles
    ensures var last := Visit(g, cfg, s, v, k, st, found).0;
      && Grows(g, cfg, s, st.path, st, last)
      && (forall c :: c in News(st, last) ==> Branch(s, st.path, c) in g.adj[v][k..])
    ensures found ==> Visit(g, cfg, s, v, k, st, found).1
    ensures Visit(g, cfg, s, v, k, st, found).1 || Visit(g, cfg, s, v, k, st, found).0.detected == st.detected
    decreases Room(cfg, st), 2, |g.adj[v]| - k
  {
    hide Turn, Walk, Closed, Branch, Distinct;
    if k < |g.adj[v]| {
      var w := g.adj[v][k];
      assert g.adj[v][k..] == [w] + g.adj[v][k + 1..];
      if !Active(g, s, w) {
        VisitGrows(g, cfg, s, v, k + 1, st, found);
      } else {
        TurnGrows(g, cfg, s, w, st);
        var (next, hit) := Turn(g, cfg, s, w, st);
        if |next.detected| < cfg.maxCycles {
          VisitGrows(g, cfg, s, v, k + 1, next, found || hit);
          OnceAt(g, v, k);
          GrowsOn(g, cfg, s, st.path, st, next, Visit(g, cfg, s, v, k + 1, next, found || hit).0, w);
        }
      }
    } else {
      GrowsByNothing(g, cfg, s, st.path, st);
    }
  }

  /** A cycle within the bounds, reported from its smallest vertex. */
  ghost predicate Reported(g: Graph, cfg: Config, c: seq<nat>) {
    c != [] && Closed(g, c[0], c) && |c| <= cfg.maxLength
  }

  lemma ResetKeeps(g: Graph, s: nat, st: State)
    requires st.Fits(g)
    ensures var r := Reset(s, st); r.Fits(g) && r.path == st.path && r.detected == st.detected
  {
  }

  /** All cycles found before round `s`. */
  ghost predicate ReportedBelow(g: Graph, cfg: Config, s: nat, found: seq<seq<nat>>) {
    (forall c :: c in found ==> Reported(g, cfg, c) && c[0] < s) && Distinct(found) && |found| <= cfg.maxCycles
  }

  lemma RoundGrows(g: Graph, cfg: Config, s: nat, st: State)
    requires g.Valid() && st.Fits(g) && s < g.n && st.path == []
    ensures Grows(g, cfg, s, [s], st, Circuit(g, cfg, s, s, st).0)
  {
    hide Circuit;
    assert st.path + [s] == [s] && Walk(g, s, [s]);
    CircuitGrows(g, cfg, s, s, st);
  }

  lemma FirstVertex(s: nat, c: seq<nat>)
    requires [s] <= c
    ensures c != [] && c[0] == s
  {
  }

  lemma RoundReports(g: Graph, cfg: Config, s: nat, st: State)
    requires g.Valid() && st.Fits(g) && s < g.n && st.path == [] && ReportedBelow(g, cfg, s, st.detected)
    ensures var next := Circuit(g, cfg, s, s, Reset(s, st)).0;
      st.detected <= next.detected && ReportedBelow(g, cfg, s + 1, next.detected)
  {
    hide Circuit, Closed, Reset, State.Fits, Graph.Valid;
    ResetKeeps(g, s, st);
    var cleared := Reset(s, st);
    var next := Circuit(g, cfg, s, s, cleared).0;
    RoundGrows(g, cfg, s, cleared);
    var news := News(cleared, next);
    assert next.detected == st.detected + news;
    forall c | c in news
      ensures c != [] && c[0] == s && Reported(g, cfg, c)
    {
      FirstVertex(s, c);
    }
    DistinctConcat(st.detected, news);
  }

  lemma {:induction false} RoundsReport(g: Graph, cfg: Config, s: nat, st: State)
    requires g.Valid() && st.Fits(g) && s <= g.n && st.path == [] && ReportedBelow(g, cfg, s, st.detected)
    ensures st.detected <= Rounds(g, cfg, s, st).detected && ReportedBelow(g, cfg, g.n, Rounds(g, cfg, s, st).detected)
    decreases g.n - s
  {
    hide Circuit, Reported, Reset;
    ResetKeeps(g, s, st);
    if s == g.n {
    } else {
      RoundReports(g, cfg, s, st);
      var next := Circuit(g, cfg, s, s, Reset(s, st)).0;
      if |next.detected| < cfg.maxCycles {
        RoundsReport(g, cfg, s + 1, next);
      }
    }
  }

  /** Whatever the bounds, only closed walks within them are reported, no walk twice, and not too many. */
  lemma EnumerateReports(g: Graph, cfg: Config)
    requires g.Valid()
    ensures forall c :: c in Enumerate(g, cfg) ==> Reported(g, cfg, c)
    ensures Distinct(Enumerate(g, cfg)) && |Enumerate(g, cfg)| <= cfg.maxCycles
  {
    RoundsReport(g, cfg, 0, Initial(g.n));
  }

  // ---------------------------------------------------------------------------------------------
  // Unblocking follows the waiting lists
  // ---------------------------------------------------------------------------------------------

  /** The set `k` holds whatever waits for one of its vertices. */
  ghost predicate HoldsWaiting(blockers: seq<seq<nat>>, k: set<nat>) {
    forall w, x :: w in k && w < |blockers| && x in blockers[w] ==> x in k
  }

  /** Exactly the unblocked vertices lose their waiting lists, after everything on them is unblocked, and
      nothing outside a set that holds what waits for it is unblocked. */
  lemma {:induction false} FlushMeaning(st: State, work: seq<nat>, k: set<nat>)
    requires forall v :: v in st.blocked ==> v < |st.blockers|
    requires HoldsWaiting(st.blockers, k) && forall x :: x in work ==> x in k
    ensures var r := Flush(st, work);
      && (forall x :: x in work ==> x !in r.blocked)
      && (forall x :: x in st.blocked && x !in r.blocked ==> x in k)
      && (forall w :: 0 <= w < |st.blockers| ==>
           r.blockers[w] == if w in st.blocked && w !in r.blocked then [] else st.blockers[w])
      && (forall w, x :: w in st.blocked && w !in r.blocked && x in st.blockers[w] ==> x !in r.blocked)
    decreases |st.blocked|, |work|
  {
    if work == [] {
    } else {
      var u := work[0];
      if u in st.blocked {
        Smaller(st.blocked, u);
        var more := st.blockers[u] + work[1..];
        FlushMeaning(Release(st, u), more, k);
        assert forall x :: x in st.blockers[u] ==> x in more;
        assert forall x :: x in work ==> x == u || x in more;
      } else {
        FlushMeaning(st, work[1..], k);
        assert forall x :: x in work ==> x == u || x in work[1..];
      }
    }
  }

  /** The same for a vertex that is blocked and all that waits for it. */
  lemma UnblockMeaning(st: State, u: nat, k: set<nat>)
    requires u in st.blocked && forall v :: v in st.blocked ==> v < |st.blockers|
    requires HoldsWaiting(st.blockers, k) && u in k
    ensures var r := Unblock(st, u);
      && u !in r.blocked
      && (forall x :: x in st.blocked && x !in r.blocked ==> x in k)
      && (forall w :: 0 <= w < |st.blockers| ==>
           r.blockers[w] == if w in st.blocked && w !in r.blocked then [] else st.blockers[w])
      && (forall w, x :: w in st.blocked && w !in r.blocked && x in st.blockers[w] ==> x !in r.blocked)
  {
    FlushMeaning(st, [u], k);
    assert st.blockers[u] + [u][1..] == st.blockers[u];
  }

  /** Which waiting lists a vertex joins. */
  lemma {:induction false} AwaitMeaning(g: Graph, s: nat, v: nat, k: nat, st: State)
    requires st.Fits(g) && v < g.n && k <= |g.adj[v]|
    ensures var r := Await(g, s, v, k, st);
      forall w, x :: 0 <= w < g.n ==>
        (x in r.blockers[w] <==> x in st.blockers[w] || (x == v && w >= s && w in g.adj[v][k..]))
    decreases |g.adj[v]| - k
  {
    if k == |g.adj[v]| {
    } else {
      var w := g.adj[v][k];
      assert g.adj[v][k..] == [w] + g.adj[v][k + 1..];
      assert forall x :: x in g.adj[v][k..] <==> x == w || x in g.adj[v][k + 1..];
      if !Active(g, s, w) || v in st.blockers[w] {
        AwaitMeaning(g, s, v, k + 1, st);
      } else {
        var next := st.(blockers := st.blockers[w := st.blockers[w] + [v]]);
        AwaitMeaning(g, s, v, k + 1, next);
        assert forall x :: x in next.blockers[w] <==> x in st.blockers[w] || x == v;
      }
    }
  }
}
