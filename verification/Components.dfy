/** Tarjan's iterative search for strongly connected components (`tarjan_scc` in `cycles.rs`). While the
    search runs a component is a set; each is then sorted, and so is the list of them. */
module Components {
  import opened CycleSearch
  import opened Naturals
  import opened Reachability

  /** The transfer graph: every neighbour is a vertex. */
  ghost predicate Whole(g: Graph) {
    |g.adj| == g.n && forall v: nat, w :: v < g.n && w in g.adj[v] ==> w < g.n
  }

  /** What is known of a visited vertex: its discovery index, its low link and its next edge. */
  datatype Node = Node(index: nat, low: nat, edge: nat)

  /** The visited vertices, the stack of open vertices, the vertices of the depth-first frames (their edge
      counters are in the nodes, since a vertex is entered once) and the components found. */
  datatype Progress = Progress(
    node: map<nat, Node>, counter: nat, stack: seq<nat>, path: seq<nat>, sccs: seq<set<nat>>)
  {
    function Index(x: nat): nat { if x in node then node[x].index else 0 }
    function Low(x: nat): nat { if x in node then node[x].low else 0 }
    function Edge(x: nat): nat { if x in node then node[x].edge else 0 }
    function Closed(): set<nat> { set x | x in node && x !in stack }
  }

  // ---------------------------------------------------------------------------------------------
  // The invariant
  // ---------------------------------------------------------------------------------------------

  ghost predicate Indexed(g: Graph, st: Progress) {
    && (forall v :: v in st.node ==> v < g.n && st.Index(v) < st.counter)
    && (forall u, v :: u in st.node && v in st.node && st.Index(u) == st.Index(v) ==> u == v)
    && (forall v :: v in st.stack ==> v in st.node)
  }

  ghost predicate Increasing(st: Progress, s: seq<nat>) {
    forall i, j :: 0 <= i < j < |s| ==> st.Index(s[i]) < st.Index(s[j])
  }

  ghost predicate Framed(g: Graph, st: Progress) {
    && Increasing(st, st.stack) && Increasing(st, st.path)
    && (forall x :: x in st.path ==> x in st.stack)
    && (st.path == [] <==> st.stack == [])
    && (st.path != [] ==> st.stack[0] == st.path[0])
  }

  /** Every vertex with a frame reaches all later open vertices. */
  ghost predicate ReachesLater(g: Graph, st: Progress) {
    forall x, y :: x in st.path && y in st.stack && st.Index(x) <= st.Index(y) ==> Reaches(g, x, y)
  }

  /** The low link of an open vertex is the index of an open vertex that it reaches; it is smaller than the
      own index once the vertex has no frame any more. */
  ghost predicate LowIsReached(g: Graph, st: Progress, x: nat) {
    && st.Low(x) <= st.Index(x)
    && (exists y :: y in st.stack && st.Index(y) == st.Low(x) && Reaches(g, x, y))
    && (x !in st.path ==> st.Low(x) < st.Index(x))
  }

  ghost predicate LowsAreReached(g: Graph, st: Progress) { forall x :: x in st.stack ==> LowIsReached(g, st, x) }

  /** The neighbours behind the next edge are visited, or about to be, and a vertex without a frame has no edge left. */
  ghost predicate ExploredAreSeen(g: Graph, st: Progress, next: set<nat>) {
    forall x :: x in st.node && x < |g.adj| ==>
      && st.Edge(x) <= |g.adj[x]|
      && (x !in st.path ==> st.Edge(x) == |g.adj[x]|)
      && forall k :: 0 <= k < st.Edge(x) ==> g.adj[x][k] in st.node || g.adj[x][k] in next
  }

  /** Frame `i` is the last one at or before an open vertex. */
  predicate Owns(st: Progress, i: nat, x: nat) {
    i < |st.path| && st.Index(st.path[i]) <= st.Index(x) &&
      (i + 1 < |st.path| ==> st.Index(x) < st.Index(st.path[i + 1]))
  }

  /** A bound below the low link of a vertex and below everything open behind its explored edges. */
  ghost predicate Below(g: Graph, st: Progress, bound: nat, x: nat) {
    && bound <= st.Low(x)
    && forall k :: 0 <= k < st.Edge(x) && x < |g.adj| && k < |g.adj[x]| && g.adj[x][k] in st.stack ==>
         bound <= st.Index(g.adj[x][k])
  }

  ghost predicate LowsAreLow(g: Graph, st: Progress) {
    forall i: nat, x :: x in st.stack && Owns(st, i, x) ==> Below(g, st, st.Low(st.path[i]), x)
  }

  /** The components found so far are disjoint and hold exactly the closed vertices, which have no edge out. */
  ghost predicate FoundComponents(g: Graph, st: Progress) {
    && ClosedUnder(g, st.Closed())
    && (forall i :: 0 <= i < |st.sccs| ==> IsComponent(g, st.sccs[i]) && st.sccs[i] <= st.Closed())
    && (forall i, j :: 0 <= i < j < |st.sccs| ==> st.sccs[i] !! st.sccs[j])
    && (forall x :: x in st.Closed() ==> exists i :: 0 <= i < |st.sccs| && x in st.sccs[i])
  }

  /** The invariant, when some vertices are about to be visited. */
  ghost predicate InvBefore(g: Graph, st: Progress, next: set<nat>) {
    && Whole(g) && Indexed(g, st) && Framed(g, st)
    && ReachesLater(g, st) && LowsAreReached(g, st) && ExploredAreSeen(g, st, next) && LowsAreLow(g, st)
    && FoundComponents(g, st)
  }

  ghost predicate Inv(g: Graph, st: Progress) { InvBefore(g, st, {}) }

  // ---------------------------------------------------------------------------------------------
  // Entering a vertex
  // ---------------------------------------------------------------------------------------------

  function Enter(st: Progress, w: nat): Progress {
    st.(node := st.node[w := Node(st.counter, st.counter, 0)], counter := st.counter + 1,
        stack := st.stack + [w], path := st.path + [w])
  }

  /** A vertex that is not visited, and what entering it leaves alone. */
  ghost predicate IsNew(g: Graph, st: Progress, w: nat) {
    Whole(g) && Indexed(g, st) && Framed(g, st) && w < g.n && w !in st.node
  }

  lemma EnterEffect(g: Graph, st: Progress, w: nat)
    requires IsNew(g, st, w)
    ensures var next := Enter(st, w);
      && next.Index(w) == next.Low(w) == st.counter && next.Edge(w) == 0 && w in next.node
      && (forall x :: x != w ==> next.Index(x) == st.Index(x) && next.Low(x) == st.Low(x) && next.Edge(x) == st.Edge(x))
      && (forall x :: x in next.node <==> x in st.node || x == w)
      && (forall x :: x in next.stack <==> x in st.stack || x == w)
      && (forall x :: x in next.path <==> x in st.path || x == w)
      && (forall x :: x in st.stack ==> x != w && st.Index(x) < st.counter)
      && next.Closed() == st.Closed()
  {
  }

  lemma EnterIsIndexed(g: Graph, st: Progress, w: nat)
    requires IsNew(g, st, w)
    ensures Indexed(g, Enter(st, w))
  {
    EnterEffect(g, st, w);
  }

  lemma IncreasingOn(g: Graph, st: Progress, w: nat, s: seq<nat>)
    requires IsNew(g, st, w) && Increasing(st, s) && forall x :: x in s ==> x in st.stack
    ensures Increasing(Enter(st, w), s + [w])
  {
    EnterEffect(g, st, w);
    hide Enter, Indexed, Framed, Progress.Index, Whole;
    var next := Enter(st, w);
    forall i, j | 0 <= i < j < |s + [w]|
      ensures next.Index((s + [w])[i]) < next.Index((s + [w])[j])
    {
      assert s[i] in s;
      if j < |s| {
        assert s[j] in s;
      }
    }
  }

  lemma EnterIsFramed(g: Graph, st: Progress, w: nat)
    requires IsNew(g, st, w)
    ensures Framed(g, Enter(st, w))
  {
    EnterEffect(g, st, w);
    IncreasingOn(g, st, w, st.stack);
    IncreasingOn(g, st, w, st.path);
  }

  /** The low link of `x` is still reached where nothing about it and about open vertices changes. */
  lemma LowKept(g: Graph, st: Progress, next: Progress, x: nat)
    requires LowIsReached(g, st, x) && next.Low(x) == st.Low(x) && next.Index(x) == st.Index(x)
    requires forall y :: y in st.stack ==> y in next.stack && next.Index(y) == st.Index(y)
    requires x in st.path ==> x in next.path || st.Low(x) < st.Index(x)
    ensures LowIsReached(g, next, x)
  {
    hide Reaches, Progress.Index, Progress.Low;
    var y :| y in st.stack && st.Index(y) == st.Low(x) && Reaches(g, x, y);
    assert y in next.stack && next.Index(y) == next.Low(x);
  }

  lemma EnterLows(g: Graph, st: Progress, w: nat)
    requires IsNew(g, st, w) && LowsAreReached(g, st)
    ensures LowsAreReached(g, Enter(st, w))
  {
    EnterEffect(g, st, w);
    var next := Enter(st, w);
    ReachesItself(g, w);
    assert LowIsReached(g, next, w);
    hide Enter, Indexed, Framed, Progress.Index, Progress.Low, Whole, LowIsReached;
    forall x | x in next.stack && x != w
      ensures LowIsReached(g, next, x)
    {
      assert LowIsReached(g, st, x);
      LowKept(g, st, next, x);
    }
  }

  lemma EnterKeepsFound(g: Graph, st: Progress, w: nat)
    requires IsNew(g, st, w) && FoundComponents(g, st)
    ensures FoundComponents(g, Enter(st, w))
  {
    EnterEffect(g, st, w);
    hide Indexed, Framed, Whole, IsComponent, ClosedUnder, Progress.Closed;
  }

  lemma EnterReaches(g: Graph, st: Progress, w: nat)
    requires IsNew(g, st, w) && ReachesLater(g, st) && forall x :: x in st.path ==> Reaches(g, x, w)
    ensures ReachesLater(g, Enter(st, w))
  {
    EnterEffect(g, st, w);
    ReachesItself(g, w);
    var next := Enter(st, w);
    hide Enter, Indexed, Whole, Reaches, Progress.Index;
    forall x, y | x in next.path && y in next.stack && next.Index(x) <= next.Index(y)
      ensures Reaches(g, x, y)
    {
    }
  }

  lemma EnterSees(g: Graph, st: Progress, w: nat)
    requires IsNew(g, st, w) && ExploredAreSeen(g, st, {w})
    ensures ExploredAreSeen(g, Enter(st, w), {})
  {
    EnterEffect(g, st, w);
    hide Enter, Indexed, Whole, Progress.Index, Progress.Edge;
  }

  lemma EnterOwns(g: Graph, st: Progress, w: nat, i: nat, x: nat)
    requires IsNew(g, st, w) && x in st.stack && Owns(Enter(st, w), i, x)
    ensures i < |st.path| && Owns(st, i, x)
  {
    EnterEffect(g, st, w);
    var next := Enter(st, w);
    assert i < |st.path| ==> next.path[i] == st.path[i] && st.path[i] in st.path;
    assert i + 1 < |st.path| ==> next.path[i + 1] == st.path[i + 1] && st.path[i + 1] in st.path;
    hide Enter, Progress.Index, Whole;
  }

  /** A bound stays below a vertex while its low link and its explored edges stay, and open vertices keep their
      indices or are new and late. */
  lemma BelowKept(g: Graph, st: Progress, next: Progress, bound: nat, x: nat)
    requires Below(g, st, bound, x) && next.Low(x) == st.Low(x) && next.Edge(x) == st.Edge(x)
    requires forall y :: y in next.stack ==> (y in st.stack && next.Index(y) == st.Index(y)) || bound <= next.Index(y)
    ensures Below(g, next, bound, x)
  {
    hide Progress.Index, Progress.Low, Progress.Edge;
  }

  lemma OldIsLow(g: Graph, st: Progress, w: nat, i: nat, x: nat)
    requires IsNew(g, st, w) && LowsAreReached(g, st) && x in st.stack && i < |st.path| &&
      Below(g, st, st.Low(st.path[i]), x)
    ensures Below(g, Enter(st, w), Enter(st, w).Low(Enter(st, w).path[i]), x)
  {
    EnterEffect(g, st, w);
    var next, v := Enter(st, w), st.path[i];
    assert v in st.path;
    LowIsBelowCounter(g, st, v);
    assert next.path[i] == v;
    assert v != w && x != w;
    hide *;
    BelowKept(g, st, next, st.Low(v), x);
  }

  lemma LowIsBelowCounter(g: Graph, st: Progress, v: nat)
    requires Indexed(g, st) && Framed(g, st) && LowsAreReached(g, st) && v in st.path
    ensures v in st.stack && v in st.node && v < g.n && st.Low(v) <= st.Index(v) < st.counter
  {
    assert LowIsReached(g, st, v);
  }

  lemma NewIsLow(g: Graph, st: Progress, w: nat, i: nat)
    requires IsNew(g, st, w) && Owns(Enter(st, w), i, w)
    ensures Below(g, Enter(st, w), Enter(st, w).Low(Enter(st, w).path[i]), w)
  {
    EnterEffect(g, st, w);
    var next := Enter(st, w);
    assert next.path[|st.path|] == w;
    hide Enter, Progress.Index, Progress.Low, Progress.Edge, Whole;
  }

  lemma EnterIsLow(g: Graph, st: Progress, w: nat)
    requires IsNew(g, st, w) && LowsAreReached(g, st) && LowsAreLow(g, st)
    ensures LowsAreLow(g, Enter(st, w))
  {
    EnterEffect(g, st, w);
    var next := Enter(st, w);
    hide Enter, Indexed, Framed, Whole, Progress.Index, Progress.Low, Progress.Edge, Owns, Below, LowsAreReached, IsNew;
    forall i: nat, x | x in next.stack && Owns(next, i, x)
      ensures Below(g, next, next.Low(next.path[i]), x)
    {
      if x == w {
        NewIsLow(g, st, w, i);
      } else {
        EnterOwns(g, st, w, i, x);
        OldIsLow(g, st, w, i, x);
      }
    }
  }

  lemma EnterKeeps(g: Graph, st: Progress, w: nat)
    requires InvBefore(g, st, {w}) && w < g.n && w !in st.node && forall x :: x in st.path ==> Reaches(g, x, w)
    ensures Inv(g, Enter(st, w))
  {
    hide Enter, Indexed, Framed, ReachesLater, LowsAreReached, ExploredAreSeen, LowsAreLow, FoundComponents, Whole,
      Reaches;
    EnterIsIndexed(g, st, w);
    EnterIsFramed(g, st, w);
    EnterReaches(g, st, w);
    EnterLows(g, st, w);
    EnterSees(g, st, w);
    EnterIsLow(g, st, w);
    EnterKeepsFound(g, st, w);
  }

  /** A search from a new root. */
  lemma StartKeeps(g: Graph, st: Progress, w: nat)
    requires Inv(g, st) && st.path == [] && w < g.n && w !in st.node
    ensures Inv(g, Enter(st, w))
  {
    hide Enter, Indexed, Framed, ReachesLater, LowsAreReached, ExploredAreSeen, LowsAreLow, FoundComponents, Whole,
      Reaches;
    SeesMore(g, st, w);
    EnterKeeps(g, st, w);
  }

  lemma SeesMore(g: Graph, st: Progress, w: nat)
    requires ExploredAreSeen(g, st, {})
    ensures ExploredAreSeen(g, st, {w})
  {
  }

  // ---------------------------------------------------------------------------------------------
  // Looking along an edge
  // ---------------------------------------------------------------------------------------------

  function Touch(st: Progress, v: nat, low: nat, edge: nat): Progress
    requires v in st.node
  {
    st.(node := st.node[v := Node(st.node[v].index, low, edge)])
  }

  lemma TouchEffect(st: Progress, v: nat, low: nat, edge: nat)
    requires v in st.node
    ensures var next := Touch(st, v, low, edge);
      && next.Low(v) == low && next.Edge(v) == edge && next.node.Keys == st.node.Keys && next.Closed() == st.Closed()
      && (forall x :: next.Index(x) == st.Index(x))
      && (forall x :: x != v ==> next.Low(x) == st.Low(x) && next.Edge(x) == st.Edge(x))
  {
  }

  lemma TouchKeepsOrder(g: Graph, st: Progress, v: nat, low: nat, edge: nat)
    requires v in st.node && Indexed(g, st) && Framed(g, st) && ReachesLater(g, st) && FoundComponents(g, st)
    ensures var next := Touch(st, v, low, edge);
      Indexed(g, next) && Framed(g, next) && ReachesLater(g, next) && FoundComponents(g, next)
  {
    TouchEffect(st, v, low, edge);
    hide Touch, Progress.Index, Progress.Closed, Reaches, IsComponent;
  }

  /** Frames own disjoint parts of the stack. */
  lemma OwnerIsUnique(g: Graph, st: Progress, i: nat, j: nat, x: nat)
    requires Framed(g, st) && Owns(st, i, x) && Owns(st, j, x)
    ensures i == j
  {
  }

  lemma OwnsItself(g: Graph, st: Progress, i: nat)
    requires Framed(g, st) && i < |st.path|
    ensures Owns(st, i, st.path[i])
  {
  }

  lemma BelowWeaker(g: Graph, st: Progress, bound: nat, less: nat, x: nat)
    requires Below(g, st, bound, x) && less <= bound
    ensures Below(g, st, less, x)
  {
  }

  /** The top frame at an edge, and the low link it gets from looking along it. */
  ghost predicate Looks(g: Graph, st: Progress, v: nat, w: nat, low: nat) {
    && st.path != [] && v == st.path[|st.path| - 1] && v < |g.adj| && v in st.node
    && st.Edge(v) < |g.adj[v]| && w == g.adj[v][st.Edge(v)]
    && (low == st.Low(v) || (w in st.stack && low == st.Index(w) < st.Low(v)))
    && (w in st.stack ==> low <= st.Index(w))
  }

  function Look(st: Progress, v: nat, low: nat): Progress
    requires v in st.node
  {
    Touch(st, v, low, st.Edge(v) + 1)
  }

  /** The low link of the top vertex after a look. */
  lemma LookedLow(g: Graph, st: Progress, v: nat, w: nat, low: nat)
    requires Looks(g, st, v, w, low) && Whole(g) && v < g.n && LowIsReached(g, st, v)
    ensures LowIsReached(g, Look(st, v, low), v)
  {
    TouchEffect(st, v, low, st.Edge(v) + 1);
    var next := Look(st, v, low);
    assert v in st.path;
    assert w in g.adj[v];
    assert g.Edge(v, w);
    ReachesAlong(g, v, w);
    hide Look, Touch, Progress.Index, Progress.Low, Progress.Edge, Reaches, Whole, Graph.Edge;
    if low == st.Low(v) {
      var y :| y in st.stack && st.Index(y) == st.Low(v) && Reaches(g, v, y);
      assert y in next.stack && next.Index(y) == low;
    } else {
      assert w in next.stack && next.Index(w) == low;
    }
  }

  lemma LookReaches(g: Graph, st: Progress, v: nat, w: nat, low: nat)
    requires Looks(g, st, v, w, low) && Whole(g) && v < g.n && v in st.stack && LowsAreReached(g, st)
    ensures LowsAreReached(g, Look(st, v, low))
  {
    TouchEffect(st, v, low, st.Edge(v) + 1);
    LookedLow(g, st, v, w, low);
    var next := Look(st, v, low);
    assert next.path == st.path && next.stack == st.stack;
    hide Look, Touch, Progress.Index, Progress.Low, LowIsReached, Looks, Whole;
    forall x | x in next.stack
      ensures LowIsReached(g, next, x)
    {
      assert LowIsReached(g, st, x);
      if x != v {
        LowKept(g, st, next, x);
      }
    }
  }

  lemma LookSees(g: Graph, st: Progress, v: nat, w: nat, low: nat)
    requires Looks(g, st, v, w, low) && ExploredAreSeen(g, st, {})
    ensures ExploredAreSeen(g, Look(st, v, low), {w})
    ensures w in st.node ==> ExploredAreSeen(g, Look(st, v, low), {})
  {
    TouchEffect(st, v, low, st.Edge(v) + 1);
    var next := Look(st, v, low);
    assert v in st.path && next.path == st.path;
    assert next.Edge(v) == st.Edge(v) + 1;
    hide Look, Touch, Progress.Index, Progress.Low, Progress.Edge;
  }

  lemma LookIsLow(g: Graph, st: Progress, v: nat, w: nat, low: nat)
    requires Looks(g, st, v, w, low) && Framed(g, st) && LowsAreLow(g, st)
    ensures LowsAreLow(g, Look(st, v, low))
  {
    TouchEffect(st, v, low, st.Edge(v) + 1);
    var next, top := Look(st, v, low), |st.path| - 1;
    OwnsItself(g, st, top);
    assert next.path == st.path && next.stack == st.stack;
    assert next.Edge(v) == st.Edge(v) + 1;
    forall i: nat, x | x in next.stack && Owns(next, i, x)
      ensures Below(g, next, next.Low(next.path[i]), x)
    {
      assert Owns(st, i, x);
      assert Below(g, st, st.Low(st.path[i]), x);
      if x == v {
        OwnerIsUnique(g, st, i, top, v);
        hide Look, Touch, Progress.Index, Progress.Low, Progress.Edge, Owns, LowsAreLow, Framed;
      } else {
        assert i < top ==> st.path[i] != v;
        BelowWeaker(g, st, st.Low(st.path[i]), next.Low(next.path[i]), x);
        hide Look, Touch, Progress.Index, Progress.Low, Progress.Edge, Owns, LowsAreLow, Framed, Below;
        BelowKept(g, st, next, next.Low(next.path[i]), x);
      }
    }
  }

  lemma LooksTop(g: Graph, st: Progress, v: nat, w: nat, low: nat)
    requires Looks(g, st, v, w, low)
    ensures st.path != [] && v == st.path[|st.path| - 1] && v in st.node
  {
  }

  lemma LooksAlongEdge(g: Graph, st: Progress, v: nat, w: nat, low: nat)
    requires Looks(g, st, v, w, low) && Whole(g) && v < g.n
    ensures st.path != [] && v == st.path[|st.path| - 1] && v in st.node && w < g.n && g.Edge(v, w)
    ensures Look(st, v, low).path == st.path && Look(st, v, low).node.Keys == st.node.Keys
  {
    assert w in g.adj[v];
  }

  lemma LookAlmostKeeps(g: Graph, st: Progress, v: nat, w: nat, low: nat)
    requires Inv(g, st) && Looks(g, st, v, w, low)
    ensures InvBefore(g, Look(st, v, low), {w})
    ensures w in st.node ==> Inv(g, Look(st, v, low))
  {
    hide Looks, Touch, Indexed, Framed, ReachesLater, LowsAreReached, ExploredAreSeen, LowsAreLow, FoundComponents,
      Whole;
    assert st.path != [] && v == st.path[|st.path| - 1] by { LooksTop(g, st, v, w, low); }
    TopIsOpen(g, st);
    LooksAlongEdge(g, st, v, w, low);
    TouchKeepsOrder(g, st, v, low, st.Edge(v) + 1);
    LookReaches(g, st, v, w, low);
    LookSees(g, st, v, w, low);
    LookIsLow(g, st, v, w, low);
  }

  lemma TopIsOpen(g: Graph, st: Progress)
    requires Indexed(g, st) && Framed(g, st) && st.path != []
    ensures var v := st.path[|st.path| - 1];
      && v in st.stack && v in st.node && v < g.n
      && forall x :: x in st.path ==> st.Index(x) <= st.Index(v)
  {
    var v := st.path[|st.path| - 1];
    assert v in st.path;
    forall x | x in st.path
      ensures st.Index(x) <= st.Index(v)
    {
      var i :| 0 <= i < |st.path| && st.path[i] == x;
      assert i < |st.path| - 1 ==> st.Index(st.path[i]) < st.Index(v);
    }
  }

  lemma PathReaches(g: Graph, st: Progress, w: nat)
    requires Indexed(g, st) && Framed(g, st) && ReachesLater(g, st) && st.path != []
    requires g.Edge(st.path[|st.path| - 1], w)
    ensures forall x :: x in st.path ==> Reaches(g, x, w)
  {
    var v := st.path[|st.path| - 1];
    TopIsOpen(g, st);
    ReachesAlong(g, v, w);
    hide Progress.Index, Reaches, Framed, Indexed;
    forall x | x in st.path
      ensures Reaches(g, x, w)
    {
      ReachesThrough(g, x, v, w);
    }
  }

  /** Descending along an edge to a new vertex. */
  lemma DescendKeeps(g: Graph, st: Progress, v: nat, w: nat)
    requires Inv(g, st) && Looks(g, st, v, w, st.Low(v)) && w !in st.node
    ensures Inv(g, Enter(Look(st, v, st.Low(v)), w))
  {
    hide Look, Looks, Touch, Indexed, Framed, ReachesLater, LowsAreReached, ExploredAreSeen, LowsAreLow,
      FoundComponents, Whole;
    var low := st.Low(v);
    LooksTop(g, st, v, w, low);
    TopIsOpen(g, st);
    LooksAlongEdge(g, st, v, w, low);
    var looked := Look(st, v, low);
    assert w !in looked.node.Keys;
    LookAlmostKeeps(g, st, v, w, low);
    PathReaches(g, looked, w);
    EnterKeeps(g, looked, w);
  }

  // ---------------------------------------------------------------------------------------------
  // Going back
  // ---------------------------------------------------------------------------------------------

  /** The top frame has no edge left. */
  ghost predicate Finished(g: Graph, st: Progress, v: nat) {
    st.path != [] && v == st.path[|st.path| - 1] && v < |g.adj| && v in st.node && st.Edge(v) == |g.adj[v]|
  }

  /** The top frame is removed, and its low link is passed on to its parent. */
  function Retreat(st: Progress, v: nat): Progress {
    var path := st.path[..if st.path == [] then 0 else |st.path| - 1];
    if path == [] || path[|path| - 1] !in st.node then st.(path := path)
    else
      var p := path[|path| - 1];
      Touch(st.(path := path), p, Min(st.Low(p), st.Low(v)), st.Edge(p))
  }

  /** A vertex that reaches an earlier open vertex has a parent. */
  lemma HasParent(g: Graph, st: Progress, v: nat)
    requires Indexed(g, st) && Framed(g, st) && Finished(g, st, v) && LowIsReached(g, st, v) && st.Low(v) < st.Index(v)
    ensures |st.path| >= 2
  {
    var y :| y in st.stack && st.Index(y) == st.Low(v) && Reaches(g, v, y);
    var j :| 0 <= j < |st.stack| && st.stack[j] == y;
    assert st.Index(st.stack[0]) <= st.Index(y);
  }

  lemma RetreatEffect(g: Graph, st: Progress, v: nat)
    requires Indexed(g, st) && Framed(g, st) && Finished(g, st, v) && |st.path| >= 2
    ensures var next, p := Retreat(st, v), st.path[|st.path| - 2];
      && p in st.path && p in st.stack && p in st.node && p < g.n && st.Index(p) < st.Index(v) && p != v
      && next.path == st.path[..|st.path| - 1] && next.stack == st.stack && next.sccs == st.sccs
      && next.Low(p) == Min(st.Low(p), st.Low(v)) && next.node.Keys == st.node.Keys && next.Closed() == st.Closed()
      && next.counter == st.counter
      && (forall x :: next.Index(x) == st.Index(x) && next.Edge(x) == st.Edge(x))
      && (forall x :: x != p ==> next.Low(x) == st.Low(x))
      && (forall x :: x in next.path ==> x in st.path)
      && (forall x :: x in st.path && x != v ==> x in next.path)
  {
    var p := st.path[|st.path| - 2];
    assert p in st.path;
    TouchEffect(st.(path := st.path[..|st.path| - 1]), p, Min(st.Low(p), st.Low(v)), st.Edge(p));
    assert st.path == st.path[..|st.path| - 1] + [v];
  }

  lemma RetreatIsFramed(g: Graph, st: Progress, v: nat)
    requires Indexed(g, st) && Framed(g, st) && Finished(g, st, v) && |st.path| >= 2
    ensures Framed(g, Retreat(st, v)) && Indexed(g, Retreat(st, v))
  {
    RetreatEffect(g, st, v);
    hide Retreat, Progress.Index, Progress.Low, Progress.Edge, Progress.Closed;
  }

  lemma RetreatReaches(g: Graph, st: Progress, v: nat)
    requires Indexed(g, st) && Framed(g, st) && Finished(g, st, v) && |st.path| >= 2 && ReachesLater(g, st)
    ensures ReachesLater(g, Retreat(st, v))
  {
    RetreatEffect(g, st, v);
    hide Retreat, Progress.Index, Progress.Low, Progress.Edge, Progress.Closed, Reaches, Framed, Indexed;
  }

  lemma RetreatKeepsFound(g: Graph, st: Progress, v: nat)
    requires Indexed(g, st) && Framed(g, st) && Finished(g, st, v) && |st.path| >= 2 && FoundComponents(g, st)
    ensures FoundComponents(g, Retreat(st, v))
  {
    RetreatEffect(g, st, v);
    hide Retreat, Progress.Index, Progress.Low, Progress.Edge, Progress.Closed, IsComponent, Framed, Indexed;
  }

  /** The smaller of two low links is reached by whoever reaches both vertices. */
  lemma MinIsReached(g: Graph, st: Progress, next: Progress, p: nat, v: nat)
    requires LowIsReached(g, st, p) && LowIsReached(g, st, v) && Reaches(g, p, v) && p in next.path
    requires next.Low(p) == Min(st.Low(p), st.Low(v)) && next.stack == st.stack &&
      forall x :: next.Index(x) == st.Index(x)
    ensures LowIsReached(g, next, p)
  {
    hide Reaches, Progress.Index, Progress.Low;
    var y :| y in st.stack && st.Index(y) == st.Low(p) && Reaches(g, p, y);
    var z :| z in st.stack && st.Index(z) == st.Low(v) && Reaches(g, v, z);
    ReachesThrough(g, p, v, z);
    assert y in next.stack && z in next.stack && next.Index(y) == st.Low(p) && next.Index(z) == st.Low(v);
  }

  /** The low link of the parent after the retreat. */
  lemma ParentLow(g: Graph, st: Progress, v: nat)
    requires Indexed(g, st) && Framed(g, st) && Finished(g, st, v) && |st.path| >= 2
    requires ReachesLater(g, st) && LowsAreReached(g, st)
    ensures LowIsReached(g, Retreat(st, v), st.path[|st.path| - 2])
  {
    hide Reaches, Progress.Index, Progress.Low, Progress.Edge, Progress.Closed, Retreat, LowIsReached;
    RetreatEffect(g, st, v);
    TopIsOpen(g, st);
    var next, p := Retreat(st, v), st.path[|st.path| - 2];
    assert next.path[|st.path| - 2] == p;
    MinIsReached(g, st, next, p, v);
  }

  lemma RetreatLows(g: Graph, st: Progress, v: nat)
    requires Indexed(g, st) && Framed(g, st) && Finished(g, st, v) && |st.path| >= 2 && st.Low(v) < st.Index(v)
    requires ReachesLater(g, st) && LowsAreReached(g, st)
    ensures LowsAreReached(g, Retreat(st, v))
  {
    hide Reaches, Progress.Index, Progress.Low, Progress.Edge, Progress.Closed, Retreat, LowIsReached, ReachesLater;
    RetreatEffect(g, st, v);
    ParentLow(g, st, v);
    hide Framed, Indexed, Finished;
    var next, p := Retreat(st, v), st.path[|st.path| - 2];
    forall x | x in next.stack
      ensures LowIsReached(g, next, x)
    {
      assert LowIsReached(g, st, x);
      if x != p {
        LowKept(g, st, next, x);
      }
    }
  }

  lemma RetreatSees(g: Graph, st: Progress, v: nat)
    requires Indexed(g, st) && Framed(g, st) && Finished(g, st, v) && |st.path| >= 2 && ExploredAreSeen(g, st, {})
    ensures ExploredAreSeen(g, Retreat(st, v), {})
  {
    RetreatEffect(g, st, v);
    hide Retreat, Progress.Index, Progress.Low, Progress.Edge, Progress.Closed, Framed, Indexed;
  }

  /** What the new top frame owns was owned by it or by the removed frame. */
  lemma RetreatOwns(g: Graph, st: Progress, v: nat, i: nat, x: nat)
    requires Indexed(g, st) && Framed(g, st) && Finished(g, st, v) && |st.path| >= 2 && Owns(Retreat(st, v), i, x)
    ensures Owns(st, i, x) || (i == |st.path| - 2 && Owns(st, i + 1, x))
  {
    RetreatEffect(g, st, v);
    var next := Retreat(st, v);
    assert next.path[i] == st.path[i];
    assert i + 1 < |next.path| ==> next.path[i + 1] == st.path[i + 1];
    hide Retreat, Progress.Index;
  }

  lemma RetreatIsLow(g: Graph, st: Progress, v: nat)
    requires Indexed(g, st) && Framed(g, st) && Finished(g, st, v) && |st.path| >= 2 && LowsAreLow(g, st)
    ensures LowsAreLow(g, Retreat(st, v))
  {
    RetreatEffect(g, st, v);
    var next, top, p := Retreat(st, v), |st.path| - 1, st.path[|st.path| - 2];
    forall i: nat, x | x in next.stack && Owns(next, i, x)
      ensures Below(g, next, next.Low(next.path[i]), x)
    {
      RetreatOwns(g, st, v, i, x);
      assert next.path[i] == st.path[i];
      var bound := next.Low(next.path[i]);
      var j := if Owns(st, i, x) then i else i + 1;
      assert Below(g, st, st.Low(st.path[j]), x);
      assert bound <= st.Low(st.path[j]);
      BelowWeaker(g, st, st.Low(st.path[j]), bound, x);
      if x == p {
        OwnsItself(g, st, top - 1);
        OwnerIsUnique(g, st, j, top - 1, p);
      }
      hide *;
      BelowRetreated(g, st, next, bound, x, p);
    }
  }

  lemma BelowRetreated(g: Graph, st: Progress, next: Progress, bound: nat, x: nat, p: nat)
    requires Below(g, st, bound, x) && (x == p ==> bound <= next.Low(p)) && (x != p ==> next.Low(x) == st.Low(x))
    requires next.stack == st.stack && forall y :: next.Index(y) == st.Index(y) && next.Edge(y) == st.Edge(y)
    ensures Below(g, next, bound, x)
  {
    hide Progress.Index, Progress.Low, Progress.Edge;
  }

  /** Going back from a vertex that reaches an earlier open one. */
  lemma RetreatKeeps(g: Graph, st: Progress, v: nat)
    requires Inv(g, st) && Finished(g, st, v) && st.Low(v) < st.Index(v)
    ensures Inv(g, Retreat(st, v)) && |st.path| >= 2
  {
    TopIsOpen(g, st);
    HasParent(g, st, v) by { assert LowIsReached(g, st, v); }
    hide Retreat, Finished, Indexed, Framed, ReachesLater, LowsAreReached, ExploredAreSeen, LowsAreLow,
      FoundComponents, Whole;
    RetreatIsFramed(g, st, v);
    RetreatReaches(g, st, v);
    RetreatKeepsFound(g, st, v);
    RetreatLows(g, st, v);
    RetreatSees(g, st, v);
    RetreatIsLow(g, st, v);
  }

  // ---------------------------------------------------------------------------------------------
  // A component
  // ---------------------------------------------------------------------------------------------

  function Position(s: seq<nat>, v: nat): (k: nat)
    requires v in s
    ensures k < |s| && s[k] == v
  {
    if s[0] == v then 0 else 1 + Position(s[1..], v)
  }

  /** The open vertices from `v` on. */
  function Above(st: Progress, v: nat): set<nat>
    requires v in st.stack
  {
    set x | x in st.stack[Position(st.stack, v)..]
  }

  lemma IncreasingBack(st: Progress, s: seq<nat>, k: nat)
    requires Increasing(st, s) && k < |s|
    ensures forall x :: x in s[k..] ==> st.Index(s[k]) <= st.Index(x)
  {
    hide Progress.Index;
    var back := s[k..];
    forall x | x in back
      ensures st.Index(s[k]) <= st.Index(x)
    {
      var j :| 0 <= j < |back| && back[j] == x;
      assert s[k + j] == x;
    }
  }

  lemma IncreasingFront(st: Progress, s: seq<nat>, k: nat)
    requires Increasing(st, s) && k < |s|
    ensures forall x :: x in s[..k] ==> st.Index(x) < st.Index(s[k])
  {
    hide Progress.Index;
    var front := s[..k];
    forall x | x in front
      ensures st.Index(x) < st.Index(s[k])
    {
      var j :| 0 <= j < |front| && front[j] == x;
      assert s[j] == x;
    }
  }

  lemma SplitMembers(s: seq<nat>, k: nat)
    requires k < |s|
    ensures forall x :: x in s <==> x in s[..k] || x in s[k..]
  {
    assert s == s[..k] + s[k..];
  }

  lemma AboveMeaning(g: Graph, st: Progress, v: nat)
    requires Framed(g, st) && v in st.stack
    ensures forall x :: x in Above(st, v) <==> x in st.stack && st.Index(v) <= st.Index(x)
    ensures forall x :: x in st.stack[..Position(st.stack, v)] <==> x in st.stack && st.Index(x) < st.Index(v)
  {
    IncreasingBack(st, st.stack, Position(st.stack, v));
    IncreasingFront(st, st.stack, Position(st.stack, v));
    SplitMembers(st.stack, Position(st.stack, v));
    hide Framed, Progress.Index, Position;
  }

  /** The top frame is finished and reaches nothing open before itself. */
  ghost predicate AtRoot(g: Graph, st: Progress, v: nat) {
    Inv(g, st) && Finished(g, st, v) && st.Low(v) == st.Index(v)
  }

  lemma TopOwnsAbove(g: Graph, st: Progress, v: nat, x: nat)
    requires Indexed(g, st) && Framed(g, st) && Finished(g, st, v) && x in st.stack && st.Index(v) <= st.Index(x)
    ensures Owns(st, |st.path| - 1, x) && (x in st.path ==> x == v)
  {
    TopIsOpen(g, st);
    hide Increasing;
  }

  lemma AboveIsExplored(g: Graph, st: Progress, v: nat, x: nat)
    requires Whole(g) && Indexed(g, st) && ExploredAreSeen(g, st, {}) && Finished(g, st, v)
    requires x in st.stack && (x in st.path ==> x == v)
    ensures x in st.node && x < |g.adj| && st.Edge(x) == |g.adj[x]|
    ensures forall k :: 0 <= k < |g.adj[x]| ==> g.adj[x][k] in st.node
  {
  }

  /** What every vertex above the root satisfies. */
  lemma AboveRoot(g: Graph, st: Progress, v: nat, x: nat)
    requires AtRoot(g, st, v) && x in st.stack && st.Index(v) <= st.Index(x)
    ensures Below(g, st, st.Index(v), x) && LowIsReached(g, st, x) && Reaches(g, v, x) && (x in st.path ==> x == v)
    ensures x in st.node && x < |g.adj| && st.Edge(x) == |g.adj[x]|
    ensures forall k :: 0 <= k < |g.adj[x]| ==> g.adj[x][k] in st.node
  {
    hide Below, LowIsReached, Reaches, FoundComponents, Progress.Index, Progress.Low, Progress.Edge, Framed, Indexed,
      ExploredAreSeen, Whole;
    TopOwnsAbove(g, st, v, x);
    AboveIsExplored(g, st, v, x);
    assert v in st.path;
  }

  /** Every vertex above the root leads back to it: from low link to smaller low link. */
  lemma {:induction false} LeadsToRoot(g: Graph, st: Progress, v: nat, x: nat)
    requires AtRoot(g, st, v) && x in st.stack && st.Index(v) <= st.Index(x)
    ensures Reaches(g, x, v)
    decreases st.Index(x)
  {
    hide Reaches, FoundComponents, Progress.Index, Progress.Low, Progress.Edge, Framed, Indexed, ExploredAreSeen,
      Whole, AtRoot;
    AboveRoot(g, st, v, x);
    if x == v {
      ReachesItself(g, v);
    } else {
      var y :| y in st.stack && st.Index(y) == st.Low(x) && Reaches(g, x, y);
      LeadsToRoot(g, st, v, y);
      ReachesThrough(g, x, y, v);
    }
  }

  /** No edge leaves the vertices above the root but to closed vertices. */
  lemma AboveIsClosed(g: Graph, st: Progress, v: nat)
    requires AtRoot(g, st, v) && v in st.stack
    ensures ClosedUnder(g, Above(st, v) + st.Closed())
  {
    hide Reaches, FoundComponents, Progress.Index, Progress.Low, Progress.Edge, Framed, Indexed, ExploredAreSeen,
      Whole, AtRoot, Above;
    AtRootMeans(g, st, v);
    AboveMeaning(g, st, v);
    forall x: nat, w: nat | x in Above(st, v) && g.Edge(x, w)
      ensures w in Above(st, v) + st.Closed()
    {
      AboveRoot(g, st, v, x);
      var k :| 0 <= k < |g.adj[x]| && g.adj[x][k] == w;
      assert w in st.node;
    }
  }

  lemma AtRootMeans(g: Graph, st: Progress, v: nat)
    requires AtRoot(g, st, v)
    ensures Framed(g, st) && Indexed(g, st) && FoundComponents(g, st) && ClosedUnder(g, st.Closed())
    ensures v in st.stack && v in st.path && v == st.path[|st.path| - 1]
    ensures forall x :: x in st.stack ==> x in st.node && x < g.n
  {
    hide Reaches, Progress.Index, Progress.Low, Progress.Edge, Increasing, IsComponent;
  }

  lemma AboveHolds(g: Graph, st: Progress, v: nat)
    requires AtRoot(g, st, v)
    ensures v in st.stack && v in Above(st, v) && forall x: nat :: x in Above(st, v) ==> x < g.n && x !in st.Closed()
  {
    hide AtRoot;
    AtRootMeans(g, st, v);
    AboveMeaning(g, st, v);
  }

  lemma AboveIsConnected(g: Graph, st: Progress, v: nat, a: nat, b: nat)
    requires AtRoot(g, st, v) && v in st.stack && a in Above(st, v) && b in Above(st, v)
    ensures Reaches(g, a, b)
  {
    hide AtRoot, Reaches;
    AtRootMeans(g, st, v);
    AboveMeaning(g, st, v);
    LeadsToRoot(g, st, v, a);
    AboveRoot(g, st, v, b);
    ReachesThrough(g, a, v, b);
  }

  lemma AboveIsMaximal(g: Graph, st: Progress, v: nat, a: nat, b: nat)
    requires AtRoot(g, st, v) && v in st.stack && a in Above(st, v) && Reaches(g, a, b) && Reaches(g, b, a)
    ensures b in Above(st, v)
  {
    hide AtRoot, Reaches, Above, Progress.Closed, ClosedUnder;
    AtRootMeans(g, st, v);
    AboveHolds(g, st, v);
    AboveIsClosed(g, st, v);
    ReachesInside(g, a, b, Above(st, v) + st.Closed());
    if b in st.Closed() {
      ReachesInside(g, b, a, st.Closed());
    }
  }

  /** The open vertices from the root on are one component. */
  lemma AboveIsComponent(g: Graph, st: Progress, v: nat)
    requires AtRoot(g, st, v)
    ensures v in st.stack && IsComponent(g, Above(st, v))
  {
    hide Reaches, AtRoot, Above, Progress.Closed;
    AboveHolds(g, st, v);
    forall a: nat, b: nat | a in Above(st, v) && b in Above(st, v)
      ensures Reaches(g, a, b)
    {
      AboveIsConnected(g, st, v, a, b);
    }
    forall a: nat, b: nat | a in Above(st, v) && b < g.n && Reaches(g, a, b) && Reaches(g, b, a)
      ensures b in Above(st, v)
    {
      AboveIsMaximal(g, st, v, a, b);
    }
  }

  /** The component is closed and taken off the stack. */
  function Cut(st: Progress, v: nat): Progress
    requires v in st.stack
  {
    st.(stack := st.stack[..Position(st.stack, v)], sccs := st.sccs + [Above(st, v)])
  }

  lemma TouchNothing(st: Progress, p: nat)
    requires p in st.node
    ensures Touch(st, p, st.Low(p), st.Edge(p)) == st
  {
    assert st.node[p := Node(st.node[p].index, st.Low(p), st.Edge(p))] == st.node;
  }

  lemma ParentIsLow(g: Graph, st: Progress, v: nat)
    requires Indexed(g, st) && Framed(g, st) && Finished(g, st, v) && LowsAreReached(g, st) && |st.path| >= 2
    requires st.Low(v) == st.Index(v)
    ensures var p := st.path[|st.path| - 2]; p in st.node && Min(st.Low(p), st.Low(v)) == st.Low(p)
  {
    hide Reaches;
    var p := st.path[|st.path| - 2];
    assert p in st.path;
    assert LowIsReached(g, st, p);
  }

  lemma AtRootParts(g: Graph, st: Progress, v: nat)
    requires AtRoot(g, st, v)
    ensures Whole(g) && Indexed(g, st) && Framed(g, st) && Finished(g, st, v) && st.Low(v) == st.Index(v)
    ensures ReachesLater(g, st) && LowsAreReached(g, st) && ExploredAreSeen(g, st, {}) && LowsAreLow(g, st)
    ensures FoundComponents(g, st)
  {
    hide Whole, Indexed, Framed, ReachesLater, LowsAreReached, ExploredAreSeen, LowsAreLow, FoundComponents;
  }

  /** Going back from a root passes nothing on. */
  lemma RootRetreat(g: Graph, st: Progress, v: nat)
    requires AtRoot(g, st, v)
    ensures v in st.stack && Retreat(st, v) == st.(path := st.path[..|st.path| - 1])
  {
    hide AtRoot, Whole, Indexed, Framed, ReachesLater, LowsAreReached, ExploredAreSeen, LowsAreLow, FoundComponents,
      Min, Touch;
    AtRootParts(g, st, v);
    TopIsOpen(g, st);
    if |st.path| >= 2 {
      ParentIsLow(g, st, v);
      TouchNothing(st.(path := st.path[..|st.path| - 1]), st.path[|st.path| - 2]);
      SamePart(st, st.(path := st.path[..|st.path| - 1]), st.path[|st.path| - 2]);
    }
  }

  lemma SamePart(st: Progress, other: Progress, p: nat)
    requires st.node == other.node
    ensures st.Low(p) == other.Low(p) && st.Edge(p) == other.Edge(p) && st.Index(p) == other.Index(p)
  {
  }

  lemma CutPath(g: Graph, st: Progress, v: nat)
    requires Framed(g, st) && st.path != [] && v == st.path[|st.path| - 1]
    ensures forall x :: x in st.path[..|st.path| - 1] <==> x in st.path && x != v
  {
    assert st.path == st.path[..|st.path| - 1] + [v];
    var front := st.path[..|st.path| - 1];
    forall x | x in front
      ensures x != v
    {
      var i :| 0 <= i < |front| && front[i] == x;
      assert st.Index(st.path[i]) < st.Index(v);
    }
  }

  function CutRoot(st: Progress, v: nat): Progress
    requires v in st.stack && st.path != []
  {
    Cut(st.(path := st.path[..|st.path| - 1]), v)
  }

  lemma CutCloses(g: Graph, st: Progress, next: Progress, v: nat)
    requires Framed(g, st) && Indexed(g, st) && v in st.stack && next.node == st.node
    requires forall x :: x in next.stack <==> x in st.stack && st.Index(x) < st.Index(v)
    ensures next.Closed() == st.Closed() + Above(st, v)
  {
    AboveMeaning(g, st, v);
    assert forall x :: x in st.stack ==> x in st.node;
    hide Above, Framed, Indexed, Progress.Index;
  }

  /** What remains after the cut. */
  lemma CutEffect(g: Graph, st: Progress, v: nat)
    requires AtRoot(g, st, v)
    ensures v in st.stack && st.path != []
    ensures var next := CutRoot(st, v);
      && (forall x :: x in next.stack <==> x in st.stack && st.Index(x) < st.Index(v))
      && (forall x :: x in next.path <==> x in st.path && x != v)
      && next.Closed() == st.Closed() + Above(st, v)
      && (forall x :: next.Index(x) == st.Index(x) && next.Low(x) == st.Low(x) && next.Edge(x) == st.Edge(x))
  {
    hide AtRoot, Whole, Indexed, Framed, ReachesLater, LowsAreReached, ExploredAreSeen, LowsAreLow, FoundComponents,
      Above, Position;
    AtRootParts(g, st, v);
    AtRootMeans(g, st, v);
    AboveMeaning(g, st, v);
    CutPath(g, st, v);
    CutCloses(g, st, CutRoot(st, v), v);
  }

  lemma IncreasingPrefix(st: Progress, next: Progress, s: seq<nat>, k: nat)
    requires Increasing(st, s) && k <= |s| && forall x :: next.Index(x) == st.Index(x)
    ensures Increasing(next, s[..k])
  {
    hide Progress.Index;
  }

  lemma CutIsIncreasing(g: Graph, st: Progress, v: nat)
    requires AtRoot(g, st, v)
    ensures v in st.stack && st.path != []
    ensures Increasing(CutRoot(st, v), CutRoot(st, v).stack) && Increasing(CutRoot(st, v), CutRoot(st, v).path)
  {
    hide AtRoot, Whole, Indexed, ReachesLater, LowsAreReached, ExploredAreSeen, LowsAreLow, FoundComponents,
      Progress.Index;
    AtRootParts(g, st, v);
    CutEffect(g, st, v);
    IncreasingPrefix(st, CutRoot(st, v), st.stack, Position(st.stack, v));
    IncreasingPrefix(st, CutRoot(st, v), st.path, |st.path| - 1);
  }

  lemma CutIsFramed(g: Graph, st: Progress, v: nat)
    requires AtRoot(g, st, v)
    ensures v in st.stack && st.path != [] && Framed(g, CutRoot(st, v))
  {
    hide AtRoot, Whole, ReachesLater, LowsAreReached, ExploredAreSeen, LowsAreLow, FoundComponents, Progress.Index,
      Increasing;
    AtRootParts(g, st, v);
    CutIsIncreasing(g, st, v);
    CutEffect(g, st, v);
    PathBeforeTop(g, st);
    var next := CutRoot(st, v);
    assert st.path[0] in st.path && st.stack[0] in st.stack;
    if next.path != [] {
      assert next.path[0] == st.path[0] && next.path[0] in next.path;
      assert st.stack[0] in next.stack;
    } else {
      assert st.path == [v];
    }
  }

  lemma PathBeforeTop(g: Graph, st: Progress)
    requires Framed(g, st) && st.path != []
    ensures forall x :: x in st.path && x != st.path[|st.path| - 1] ==> st.Index(x) < st.Index(st.path[|st.path| - 1])
  {
    var top := |st.path| - 1;
    forall x | x in st.path && x != st.path[top]
      ensures st.Index(x) < st.Index(st.path[top])
    {
      var i :| 0 <= i < |st.path| && st.path[i] == x;
      assert i < top;
    }
  }

  lemma CutReaches(g: Graph, st: Progress, v: nat)
    requires AtRoot(g, st, v)
    ensures v in st.stack && st.path != [] && Indexed(g, CutRoot(st, v)) && ReachesLater(g, CutRoot(st, v))
  {
    hide AtRoot, Whole, Framed, LowsAreReached, ExploredAreSeen, LowsAreLow, FoundComponents, Progress.Index, Reaches,
      Above, Progress.Closed;
    AtRootParts(g, st, v);
    CutEffect(g, st, v);
  }

  lemma CutLows(g: Graph, st: Progress, v: nat)
    requires AtRoot(g, st, v)
    ensures v in st.stack && st.path != [] && LowsAreReached(g, CutRoot(st, v))
  {
    hide AtRoot, Whole, Indexed, Framed, ReachesLater, ExploredAreSeen, LowsAreLow, FoundComponents,
      Progress.Index, Progress.Low, Reaches, Above, Progress.Closed, LowIsReached;
    AtRootParts(g, st, v);
    CutEffect(g, st, v);
    var next := CutRoot(st, v);
    hide CutRoot;
    forall x | x in next.stack
      ensures LowIsReached(g, next, x)
    {
      assert LowIsReached(g, st, x);
      LowKeptEarlier(g, st, next, v, x);
    }
  }

  /** The low link of an earlier vertex is the index of an even earlier one. */
  lemma LowKeptEarlier(g: Graph, st: Progress, next: Progress, v: nat, x: nat)
    requires LowIsReached(g, st, x) && next.Low(x) == st.Low(x) && next.Index(x) == st.Index(x) < st.Index(v)
    requires forall y :: y in st.stack && st.Index(y) < st.Index(v) ==> y in next.stack && next.Index(y) == st.Index(y)
    requires x in st.path ==> x in next.path
    ensures LowIsReached(g, next, x)
  {
    hide Reaches, Progress.Index, Progress.Low;
    var y :| y in st.stack && st.Index(y) == st.Low(x) && Reaches(g, x, y);
    assert y in next.stack && next.Index(y) == next.Low(x);
  }

  lemma CutSees(g: Graph, st: Progress, v: nat)
    requires AtRoot(g, st, v)
    ensures v in st.stack && st.path != [] && ExploredAreSeen(g, CutRoot(st, v), {})
  {
    hide AtRoot, Whole, Indexed, Framed, ReachesLater, LowsAreReached, LowsAreLow, FoundComponents,
      Progress.Index, Progress.Low, Progress.Edge, Above, Progress.Closed;
    AtRootParts(g, st, v);
    CutEffect(g, st, v);
  }

  lemma CutOwns(g: Graph, st: Progress, v: nat, i: nat, x: nat)
    requires AtRoot(g, st, v) && v in st.stack && st.path != [] && x in CutRoot(st, v).stack &&
      Owns(CutRoot(st, v), i, x)
    ensures i < |st.path| && CutRoot(st, v).path[i] == st.path[i] && Owns(st, i, x)
  {
    hide AtRoot, Whole, Indexed, Framed, ReachesLater, LowsAreReached, ExploredAreSeen, LowsAreLow, FoundComponents,
      Progress.Index, Above, Progress.Closed;
    AtRootParts(g, st, v);
    AtRootMeans(g, st, v);
    CutEffect(g, st, v);
    var next := CutRoot(st, v);
    assert i + 1 < |next.path| ==> next.path[i + 1] == st.path[i + 1];
  }

  lemma CutIsLow(g: Graph, st: Progress, v: nat)
    requires AtRoot(g, st, v)
    ensures v in st.stack && st.path != [] && LowsAreLow(g, CutRoot(st, v))
  {
    hide AtRoot, Whole, Indexed, Framed, ReachesLater, LowsAreReached, ExploredAreSeen, FoundComponents,
      Progress.Index, Progress.Low, Progress.Edge, Above, Progress.Closed, Owns, Below;
    AtRootParts(g, st, v);
    CutEffect(g, st, v);
    var next := CutRoot(st, v);
    forall i: nat, x | x in next.stack && Owns(next, i, x)
      ensures i < |next.path| && Below(g, next, next.Low(next.path[i]), x)
    {
      OwnsInPath(next, i, x);
      CutOwns(g, st, v, i, x);
      BelowKept(g, st, next, next.Low(next.path[i]), x);
    }
  }

  lemma OwnsInPath(st: Progress, i: nat, x: nat)
    requires Owns(st, i, x)
    ensures i < |st.path|
  {
  }

  lemma CutLists(st: Progress, v: nat)
    requires v in st.stack && st.path != []
    ensures CutRoot(st, v).sccs == st.sccs + [Above(st, v)]
  {
  }

  lemma CutFinds(g: Graph, st: Progress, v: nat)
    requires AtRoot(g, st, v)
    ensures v in st.stack && st.path != [] && FoundComponents(g, CutRoot(st, v))
  {
    hide AtRoot, Whole, Indexed, Framed, ReachesLater, LowsAreReached, ExploredAreSeen, LowsAreLow,
      Progress.Index, Above, Progress.Closed, IsComponent, ClosedUnder;
    AtRootParts(g, st, v);
    CutEffect(g, st, v);
    AboveHolds(g, st, v);
    AboveIsClosed(g, st, v);
    AboveIsComponent(g, st, v);
    var next, c := CutRoot(st, v), Above(st, v);
    assert next.sccs == st.sccs + [c] by { CutLists(st, v); }
    assert st.Closed() + c == c + st.Closed();
    hide CutRoot;
    forall x | x in next.Closed()
      ensures exists i :: 0 <= i < |next.sccs| && x in next.sccs[i]
    {
      if x in c {
        assert next.sccs[|st.sccs|] == c;
      } else {
        var i :| 0 <= i < |st.sccs| && x in st.sccs[i];
        assert next.sccs[i] == st.sccs[i];
      }
    }
  }

  /** Closing a component. */
  lemma CutKeeps(g: Graph, st: Progress, v: nat)
    requires AtRoot(g, st, v)
    ensures v in st.stack && st.path != [] && Inv(g, CutRoot(st, v))
  {
    hide AtRoot, Whole, Indexed, Framed, ReachesLater, LowsAreReached, ExploredAreSeen, LowsAreLow, FoundComponents,
      CutRoot;
    AtRootParts(g, st, v);
    CutReaches(g, st, v);
    CutIsFramed(g, st, v);
    CutLows(g, st, v);
    CutSees(g, st, v);
    CutIsLow(g, st, v);
    CutFinds(g, st, v);
  }

  // ---------------------------------------------------------------------------------------------
  // The search
  // ---------------------------------------------------------------------------------------------

  /** Frames and edges that are left to handle; undefined edges count as none. */
  function Left(g: Graph, st: Progress, path: seq<nat>): nat {
    if path == [] then 0
    else
      var v := path[|path| - 1];
      Left(g, st, path[..|path| - 1]) + 1 +
      if v < |g.adj| && st.Edge(v) <= |g.adj[v]| then |g.adj[v]| - st.Edge(v) else 0
  }

  lemma {:induction false} LeftIsSame(g: Graph, st: Progress, next: Progress, path: seq<nat>)
    requires forall x :: x in path ==> next.Edge(x) == st.Edge(x)
    ensures Left(g, next, path) == Left(g, st, path)
  {
    if path == [] {
    } else {
      hide Progress.Edge;
      assert path == path[..|path| - 1] + [path[|path| - 1]];
      LeftIsSame(g, st, next, path[..|path| - 1]);
    }
  }

  lemma LookLeavesLess(g: Graph, st: Progress, v: nat, w: nat, low: nat)
    requires Framed(g, st) && Looks(g, st, v, w, low)
    ensures Left(g, Look(st, v, low), Look(st, v, low).path) < Left(g, st, st.path)
  {
    var next := Look(st, v, low);
    TouchEffect(st, v, low, st.Edge(v) + 1);
    CutPath(g, st, v);
    LeftIsSame(g, st, next, st.path[..|st.path| - 1]);
    hide Framed, Touch;
  }

  lemma BackLeavesLess(g: Graph, st: Progress, next: Progress)
    requires st.path != [] && next.path == st.path[..|st.path| - 1] && forall x :: next.Edge(x) == st.Edge(x)
    ensures Left(g, next, next.path) < Left(g, st, st.path)
  {
    LeftIsSame(g, st, next, next.path);
    hide Progress.Edge;
  }

  function Unvisited(g: Graph, st: Progress): set<nat> { set x: nat | x < g.n && x !in st.node }

  lemma EnterLeavesLess(g: Graph, st: Progress, next: Progress, w: nat)
    requires w < g.n && w !in st.node && next.node.Keys == st.node.Keys + {w}
    ensures |Unvisited(g, next)| < |Unvisited(g, st)|
  {
    assert Unvisited(g, next) == Unvisited(g, st) - {w};
  }

  lemma SameVisited(g: Graph, st: Progress, next: Progress)
    requires next.node.Keys == st.node.Keys
    ensures Unvisited(g, next) == Unvisited(g, st)
  {
  }

  /** The top frame of a state that satisfies the invariant. */
  lemma TopFrame(g: Graph, st: Progress)
    requires Inv(g, st) && st.path != []
    ensures var v := st.path[|st.path| - 1];
      && v in st.node && v in st.stack && v < |g.adj| == g.n && st.Edge(v) <= |g.adj[v]| && st.Low(v) <= st.Index(v)
  {
    hide ReachesLater, LowsAreLow, FoundComponents, Reaches;
    TopIsOpen(g, st);
    assert LowIsReached(g, st, st.path[|st.path| - 1]);
    hide Framed, Indexed;
  }

  /** One turn of the loop: an edge of the top frame, or its end. */
  method Turn(g: Graph, st: Progress) returns (next: Progress)
    requires Inv(g, st) && st.path != []
    ensures Inv(g, next) && st.node.Keys <= next.node.Keys
    ensures |Unvisited(g, next)| < |Unvisited(g, st)|
      || (Unvisited(g, next) == Unvisited(g, st) && Left(g, next, next.path) < Left(g, st, st.path))
  {
    hide Inv, Indexed, Framed, Progress.Index, Progress.Low, Progress.Edge, Look, Retreat, Left, Unvisited;
    TopFrame(g, st);
    var v := st.path[|st.path| - 1];
    if st.Edge(v) < |g.adj[v]| {
      var w := g.adj[v][st.Edge(v)];
      next := Follow(g, st, v, w);
    } else {
      next := Return(g, st, v);
    }
  }

  /** The next edge of the top frame. */
  method Follow(g: Graph, st: Progress, v: nat, w: nat) returns (next: Progress)
    requires Inv(g, st) && st.path != [] && v == st.path[|st.path| - 1] && v in st.node && v < |g.adj|
    requires st.Edge(v) < |g.adj[v]| && w == g.adj[v][st.Edge(v)]
    ensures Inv(g, next) && st.node.Keys <= next.node.Keys
    ensures |Unvisited(g, next)| < |Unvisited(g, st)|
      || (Unvisited(g, next) == Unvisited(g, st) && Left(g, next, next.path) < Left(g, st, st.path))
  {
    hide Indexed, Framed, ReachesLater, LowsAreReached, ExploredAreSeen, LowsAreLow, FoundComponents,
      Progress.Index, Progress.Low, Progress.Edge, Left, Unvisited, Touch;
    OpenIsVisited(g, st, w);
    var low := st.Low(v);
    if w in st.node && w in st.stack && st.Index(w) < low {
      low := st.Index(w);
    }
    assert st.Low(v) <= st.Index(v) by { TopFrame(g, st); }
    assert Looks(g, st, v, w, low);
    LooksAlongEdge(g, st, v, w, low);
    var looked := Look(st, v, low);
    if w !in st.node {
      DescendKeeps(g, st, v, w);
      next := Enter(looked, w);
      EnterLeavesLess(g, st, next, w);
    } else {
      LookAlmostKeeps(g, st, v, w, low);
      LookLeavesLess(g, st, v, w, low);
      SameVisited(g, st, looked);
      next := looked;
    }
  }

  lemma OpenIsVisited(g: Graph, st: Progress, w: nat)
    requires Inv(g, st)
    ensures w in st.stack ==> w in st.node
  {
    hide Framed, ReachesLater, LowsAreReached, ExploredAreSeen, LowsAreLow, FoundComponents;
  }

  /** The end of the top frame. */
  method Return(g: Graph, st: Progress, v: nat) returns (next: Progress)
    requires Inv(g, st) && Finished(g, st, v) && v in st.stack && st.Low(v) <= st.Index(v)
    ensures Inv(g, next) && next.node.Keys == st.node.Keys
    ensures Unvisited(g, next) == Unvisited(g, st) && Left(g, next, next.path) < Left(g, st, st.path)
  {
    hide Indexed, Framed, ReachesLater, LowsAreReached, ExploredAreSeen, LowsAreLow, FoundComponents,
      Progress.Index, Progress.Low, Progress.Edge, Left, Unvisited, Retreat, Above, Position;
    var back := Retreat(st, v);
    if st.Low(v) == st.Index(v) {
      RootRetreat(g, st, v);
      CutKeeps(g, st, v);
      CutEffect(g, st, v);
      next := Cut(back, v);
    } else {
      RetreatKeeps(g, st, v);
      RetreatEffect(g, st, v);
      next := back;
    }
    SameVisited(g, st, next);
    BackLeavesLess(g, st, next);
  }

  lemma StartsWell(g: Graph)
    requires Whole(g)
    ensures Inv(g, Progress(map[], 0, [], [], []))
  {
    assert Progress(map[], 0, [], [], []).Closed() == {};
  }

  predicate InSome(sccs: seq<set<nat>>, v: nat) { exists i :: 0 <= i < |sccs| && v in sccs[i] }

  /** The loops of `tarjan_scc`: disjoint components that hold all vertices. */
  method FindComponents(g: Graph) returns (sccs: seq<set<nat>>)
    requires Whole(g)
    ensures forall i :: 0 <= i < |sccs| ==> IsComponent(g, sccs[i])
    ensures forall i, j :: 0 <= i < j < |sccs| ==> sccs[i] !! sccs[j]
    ensures forall v: nat :: v < g.n ==> InSome(sccs, v)
  {
    hide Inv, Left, Unvisited, Whole;
    var st := Progress(map[], 0, [], [], []);
    StartsWell(g);
    for start := 0 to g.n
      invariant Inv(g, st) && st.path == []
      invariant forall v: nat :: v < start ==> v in st.node.Keys
    {
      if start !in st.node {
        StartKeeps(g, st, start);
        st := Enter(st, start);
        while st.path != []
          invariant Inv(g, st)
          invariant forall v: nat :: v <= start ==> v in st.node.Keys
          decreases |Unvisited(g, st)|, Left(g, st, st.path)
        {
          st := Turn(g, st);
        }
      }
    }
    AllFound(g, st);
    return st.sccs;
  }

  lemma AllFound(g: Graph, st: Progress)
    requires Inv(g, st) && st.path == [] && forall v: nat :: v < g.n ==> v in st.node.Keys
    ensures forall i :: 0 <= i < |st.sccs| ==> IsComponent(g, st.sccs[i])
    ensures forall i, j :: 0 <= i < j < |st.sccs| ==> st.sccs[i] !! st.sccs[j]
    ensures forall v: nat :: v < g.n ==> InSome(st.sccs, v)
  {
    hide ReachesLater, LowsAreReached, ExploredAreSeen, LowsAreLow, IsComponent, Increasing, ClosedUnder;
    forall v: nat | v < g.n
      ensures InSome(st.sccs, v)
    {
      assert v in st.Closed();
    }
  }

  // ---------------------------------------------------------------------------------------------
  // The order of the result
  // ---------------------------------------------------------------------------------------------

  predicate Ordered(order: seq<nat>) { forall i, j :: 0 <= i < j < |order| ==> order[i] < order[j] }

  predicate Within(s: seq<nat>, n: nat) { forall i :: 0 <= i < |s| ==> s[i] < n }

  /** The vertices of a set in ascending order. */
  function InOrder(c: set<nat>, n: nat): (order: seq<nat>)
    ensures forall x :: x in order <==> x in c && x < n
    ensures Ordered(order) && Within(order, n)
  {
    if n == 0 then [] else InOrder(c, n - 1) + if n - 1 in c then [n - 1] else []
  }

  function Members(order: seq<nat>): set<nat> { set x | x in order }

  /** Larger components come first, and equally large ones by their smallest vertex. */
  predicate Ranked(a: seq<nat>, b: seq<nat>) {
    |a| > |b| || (|a| == |b| && (a == [] || a[0] <= b[0]))
  }

  predicate AllRanked(list: seq<seq<nat>>) { forall i, j :: 0 <= i < j < |list| ==> Ranked(list[i], list[j]) }

  /** No later component is larger, or equally large with a smaller first vertex. */
  lemma RanksMeaning(list: seq<seq<nat>>)
    ensures AllRanked(list) <==> forall i, j :: 0 <= i < j < |list| ==>
      && |list[j]| <= |list[i]|
      && (|list[i]| == |list[j]| && list[i] != [] ==> list[i][0] <= list[j][0])
  {
  }

  function Insert(x: seq<nat>, list: seq<seq<nat>>): (r: seq<seq<nat>>)
    ensures forall y :: y in r <==> y in list || y == x
  {
    if list == [] || Ranked(x, list[0]) then [x] + list else [list[0]] + Insert(x, list[1..])
  }

  lemma {:induction false} InsertKeepsRanks(x: seq<nat>, list: seq<seq<nat>>)
    requires AllRanked(list)
    ensures AllRanked(Insert(x, list)) && multiset(Insert(x, list)) == multiset(list) + multiset{x}
  {
    if list == [] {
    } else if Ranked(x, list[0]) {
      assert forall j :: 0 <= j < |list| ==> Ranked(x, list[j]);
    } else {
      var rest := Insert(x, list[1..]);
      InsertKeepsRanks(x, list[1..]);
      assert list == [list[0]] + list[1..];
      forall y | y in rest
        ensures Ranked(list[0], y)
      {
        if y != x {
          var j :| 0 <= j < |list[1..]| && list[1..][j] == y;
          assert list[j + 1] == y;
        }
      }
    }
  }

  /** The sorted list of components. */
  function SortedByRank(list: seq<seq<nat>>): (r: seq<seq<nat>>)
    ensures forall y :: y in r <==> y in list
  {
    if list == [] then [] else Insert(list[|list| - 1], SortedByRank(list[..|list| - 1]))
  }

  lemma {:induction false} SortRanks(list: seq<seq<nat>>)
    ensures AllRanked(SortedByRank(list)) && multiset(SortedByRank(list)) == multiset(list)
  {
    if list == [] {
    } else {
      var front, last := list[..|list| - 1], list[|list| - 1];
      SortRanks(front);
      InsertKeepsRanks(last, SortedByRank(front));
      assert list == front + [last];
    }
  }

  /** A list of disjoint components, each in ascending order. */
  ghost predicate AreComponents(g: Graph, sccs: seq<seq<nat>>) {
    && (forall i :: 0 <= i < |sccs| ==> Ordered(sccs[i]) && Within(sccs[i], g.n) && IsComponent(g, Members(sccs[i])))
    && (forall i, j, x :: 0 <= i < j < |sccs| && x in sccs[i] ==> x !in sccs[j])
  }

  ghost predicate AllCovered(g: Graph, sccs: seq<seq<nat>>) {
    forall v: nat :: v < g.n ==> Covered(sccs, v)
  }

  predicate Covered(sccs: seq<seq<nat>>, v: nat) { exists i :: 0 <= i < |sccs| && v in sccs[i] }

  lemma OnceEachPlace(list: seq<seq<nat>>, i: nat, j: nat)
    requires i < j < |list| && multiset(list)[list[i]] <= 1
    ensures list[i] != list[j]
  {
    assert list == list[..j] + [list[j]] + list[j + 1..];
    assert list[i] in list[..j] by { assert list[..j][i] == list[i]; }
    assert multiset(list) == multiset(list[..j]) + multiset{list[j]} + multiset(list[j + 1..]);
  }

  lemma {:induction false} DistinctOnce(list: seq<seq<nat>>, x: seq<nat>)
    requires Distinct(list)
    ensures multiset(list)[x] <= 1
  {
    if list == [] {
    } else {
      var front, last := list[..|list| - 1], list[|list| - 1];
      DistinctOnce(front, x);
      assert list == front + [last];
      assert last !in front;
      assert last !in multiset(front);
    }
  }

  /** `tarjan_scc`: the components, each in ascending order, sorted by size and smallest vertex. */
  method TarjanScc(g: Graph) returns (sccs: seq<seq<nat>>)
    requires Whole(g)
    ensures AreComponents(g, sccs) && AllCovered(g, sccs) && AllRanked(sccs)
    ensures forall i, j, k :: 0 <= i < |sccs| && 0 <= j < k < |sccs[i]| ==> sccs[i][j] < sccs[i][k]
    ensures forall i, j :: 0 <= i < j < |sccs| ==>
      && |sccs[j]| <= |sccs[i]|
      && (|sccs[i]| == |sccs[j]| && sccs[i] != [] ==> sccs[i][0] <= sccs[j][0])
  {
    hide IsComponent, SortedByRank, AllRanked;
    var found := FindComponents(g);
    var list: seq<seq<nat>> := [];
    for k := 0 to |found|
      invariant |list| == k && forall i :: 0 <= i < k ==> list[i] == InOrder(found[i], g.n)
    {
      list := list + [InOrder(found[k], g.n)];
    }
    OrdersAreComponents(g, found, list);
    SortRanks(list);
    SortKeepsComponents(g, list, SortedByRank(list));
    RanksMeaning(SortedByRank(list));
    return SortedByRank(list);
  }

  lemma OrdersAreComponents(g: Graph, found: seq<set<nat>>, list: seq<seq<nat>>)
    requires |list| == |found| && forall i :: 0 <= i < |found| ==>
      IsComponent(g, found[i]) && list[i] == InOrder(found[i], g.n)
    requires forall i, j :: 0 <= i < j < |found| ==> found[i] !! found[j]
    requires forall v: nat :: v < g.n ==> InSome(found, v)
    ensures AreComponents(g, list) && AllCovered(g, list)
  {
    forall i | 0 <= i < |list|
      ensures Members(list[i]) == found[i]
    {
      assert forall x :: x in found[i] ==> x < g.n;
    }
    hide IsComponent, InOrder;
    forall v: nat | v < g.n
      ensures Covered(list, v)
    {
      assert InSome(found, v);
      var i :| 0 <= i < |found| && v in found[i];
      assert v in list[i];
    }
  }

  lemma ComponentIsInhabited(g: Graph, order: seq<nat>)
    requires IsComponent(g, Members(order))
    ensures order != []
  {
  }

  lemma SortKeepsComponents(g: Graph, list: seq<seq<nat>>, sorted: seq<seq<nat>>)
    requires AreComponents(g, list) && AllCovered(g, list) && multiset(sorted) == multiset(list)
    ensures AreComponents(g, sorted) && AllCovered(g, sorted)
  {
    hide IsComponent;
    assert forall x :: x in sorted <==> x in list by {
      assert forall x :: x in sorted <==> x in multiset(sorted);
      assert forall x :: x in list <==> x in multiset(list);
    }
    forall i, j | 0 <= i < j < |list|
      ensures list[i] != list[j]
    {
      ComponentIsInhabited(g, list[i]);
      assert list[i][0] in list[i];
    }
    forall i | 0 <= i < |sorted|
      ensures Ordered(sorted[i]) && Within(sorted[i], g.n) && IsComponent(g, Members(sorted[i]))
    {
      assert sorted[i] in list;
    }
    forall i, j, v | 0 <= i < j < |sorted| && v in sorted[i]
      ensures v !in sorted[j]
    {
      assert sorted[i] in list && sorted[j] in list;
      DistinctOnce(list, sorted[i]);
      OnceEachPlace(sorted, i, j);
      var k :| 0 <= k < |list| && list[k] == sorted[i];
      var l :| 0 <= l < |list| && list[l] == sorted[j];
      assert k != l;
    }
    forall v: nat | v < g.n
      ensures Covered(sorted, v)
    {
      assert Covered(list, v);
      var i :| 0 <= i < |list| && v in list[i];
      assert list[i] in sorted;
    }
  }

  // ---------------------------------------------------------------------------------------------
  // The result is determined by the graph
  // ---------------------------------------------------------------------------------------------

  lemma SomeMember<T>(a: seq<T>)
    ensures a == [] || exists x :: x in a
  {
    if a != [] {
      assert a[0] in a;
    }
  }

  lemma RestMembers<T>(a: seq<T>, x: T)
    requires a != [] && a[0] !in a[1..]
    ensures x in a[1..] <==> x in a && x != a[0]
  {
    assert a == [a[0]] + a[1..];
  }

  lemma {:induction false} SameMembersSameOrder(a: seq<nat>, b: seq<nat>)
    requires Ordered(a) && Ordered(b) && forall x :: x in a <==> x in b
    ensures a == b
  {
    if a == [] {
      SomeMember(b);
    } else {
      assert a[0] in b && b[0] in a;
      assert a[0] == b[0];
      assert a == [a[0]] + a[1..] && b == [b[0]] + b[1..];
      forall x
        ensures x in a[1..] <==> x in b[1..]
      {
        assert a[0] !in a[1..] && b[0] !in b[1..];
        RestMembers(a, x);
        RestMembers(b, x);
      }
      SameMembersSameOrder(a[1..], b[1..]);
    }
  }

  lemma ComponentIsUnique(g: Graph, c: set<nat>, d: set<nat>, v: nat)
    requires IsComponent(g, c) && IsComponent(g, d) && v in c && v in d
    ensures c == d
  {
    hide Reaches;
    forall x: nat
      ensures x in c <==> x in d
    {
      if x in c {
        assert Reaches(g, v, x) && Reaches(g, x, v);
      }
      if x in d {
        assert Reaches(g, v, x) && Reaches(g, x, v);
      }
    }
  }

  /** Each component of one complete list is in every other. */
  lemma ListedInBoth(g: Graph, a: seq<seq<nat>>, b: seq<seq<nat>>, i: nat)
    requires AreComponents(g, a) && AreComponents(g, b) && AllCovered(g, b) && i < |a|
    ensures a[i] in b
  {
    hide IsComponent;
    ComponentIsInhabited(g, a[i]);
    var v := a[i][0];
    assert v in a[i] && Covered(b, v);
    var j :| 0 <= j < |b| && v in b[j];
    ComponentIsUnique(g, Members(a[i]), Members(b[j]), v);
    forall x
      ensures x in a[i] <==> x in b[j]
    {
      assert x in a[i] <==> x in Members(a[i]);
      assert x in b[j] <==> x in Members(b[j]);
    }
    SameMembersSameOrder(a[i], b[j]);
  }

  ghost predicate StrictlyRanked(list: seq<seq<nat>>) {
    forall i, j :: 0 <= i < j < |list| ==> Ranked(list[i], list[j]) && !Ranked(list[j], list[i])
  }

  lemma ComponentsRankStrictly(g: Graph, list: seq<seq<nat>>)
    requires AreComponents(g, list) && AllRanked(list)
    ensures StrictlyRanked(list)
  {
    hide IsComponent;
    forall i, j | 0 <= i < j < |list|
      ensures !Ranked(list[j], list[i])
    {
      ComponentIsInhabited(g, list[i]);
      ComponentIsInhabited(g, list[j]);
      assert list[i][0] in list[i] && list[j][0] in list[j];
      assert Ranked(list[i], list[j]);
    }
  }

  lemma {:induction false} SameElementsSameList(a: seq<seq<nat>>, b: seq<seq<nat>>)
    requires StrictlyRanked(a) && StrictlyRanked(b) && forall x :: x in a <==> x in b
    ensures a == b
  {
    hide Ranked;
    if a == [] {
      SomeMember(b);
    } else {
      assert a[0] in b && b[0] in a;
      var i :| 0 <= i < |b| && b[i] == a[0];
      var j :| 0 <= j < |a| && a[j] == b[0];
      FirstRanks(a, j);
      FirstRanks(b, i);
      assert a[0] == b[0];
      assert a == [a[0]] + a[1..] && b == [b[0]] + b[1..];
      forall x
        ensures x in a[1..] <==> x in b[1..]
      {
        NotRepeated(a);
        NotRepeated(b);
        RestMembers(a, x);
        RestMembers(b, x);
      }
      SameElementsSameList(a[1..], b[1..]);
    }
  }

  lemma FirstRanks(a: seq<seq<nat>>, j: nat)
    requires StrictlyRanked(a) && j < |a|
    ensures j == 0 || (Ranked(a[0], a[j]) && !Ranked(a[j], a[0]))
  {
    hide Ranked;
  }

  lemma NotRepeated(a: seq<seq<nat>>)
    requires StrictlyRanked(a) && a != []
    ensures a[0] !in a[1..]
  {
  }

  /** There is only one such list, whatever order the vertices were visited in. */
  lemma ResultIsDetermined(g: Graph, a: seq<seq<nat>>, b: seq<seq<nat>>)
    requires AreComponents(g, a) && AllCovered(g, a) && AllRanked(a)
    requires AreComponents(g, b) && AllCovered(g, b) && AllRanked(b)
    ensures a == b
  {
    ComponentsRankStrictly(g, a);
    ComponentsRankStrictly(g, b);
    hide AreComponents, AllCovered, AllRanked;
    forall x
      ensures x in a <==> x in b
    {
      if x in a {
        var i :| 0 <= i < |a| && a[i] == x;
        ListedInBoth(g, a, b, i);
      }
      if x in b {
        var i :| 0 <= i < |b| && b[i] == x;
        ListedInBoth(g, b, a, i);
      }
    }
    SameElementsSameList(a, b);
  }
}
