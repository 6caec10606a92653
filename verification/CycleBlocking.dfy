/** What the blocking of vertices is for, when the length bound is no smaller than the component: every
    reported cycle is elementary, and every elementary cycle is reported. */
module CycleBlocking {
  import opened CycleSearch

  // ---------------------------------------------------------------------------------------------
  // The invariant of the search
  // ---------------------------------------------------------------------------------------------

  /** The vertices on the path are distinct and blocked. */
  ghost predicate PathBlocked(st: State) { Distinct(st.path) && forall x :: x in st.path ==> x in st.blocked }

  /** Only blocked vertices are waited for. */
  ghost predicate WaitsForBlocked(g: Graph, s: nat, st: State) {
    forall w: nat :: Active(g, s, w) && w < |st.blockers| && st.blockers[w] != [] ==> w in st.blocked
  }

  /** A blocked vertex that is not on the path has no edge to `s`, and waits for all its successors, which
      are blocked too. */
  ghost predicate Stuck(g: Graph, s: nat, st: State, x: nat) {
    && !g.Edge(x, s)
    && forall w: nat :: Active(g, s, w) && g.Edge(x, w) ==> w in st.blocked && w < |st.blockers| && x in st.blockers[w]
  }

  ghost predicate BlockedAreStuck(g: Graph, s: nat, st: State) {
    forall x: nat :: Active(g, s, x) && x in st.blocked && x !in st.path ==> Stuck(g, s, st, x)
  }

  /** A set of vertices around position `j` of the path that unblocking this position cannot leave, and that
      holds no earlier vertex of the path. */
  ghost predicate Shields(st: State, j: nat, k: set<nat>) {
    j < |st.path| && st.path[j] in k && HoldsWaiting(st.blockers, k) && forall i :: 0 <= i < j ==> st.path[i] !in k
  }

  ghost predicate Shielded(st: State, j: nat) { exists k :: Shields(st, j, k) }

  ghost predicate PathShielded(st: State) { forall j: nat :: j < |st.path| ==> Shielded(st, j) }

  ghost predicate Inv(g: Graph, s: nat, st: State) {
    && st.Fits(g)
    && (st.path != [] ==> Walk(g, s, st.path))
    && PathBlocked(st) && WaitsForBlocked(g, s, st) && BlockedAreStuck(g, s, st) && PathShielded(st)
  }

  // ---------------------------------------------------------------------------------------------
  // Every step keeps it
  // ---------------------------------------------------------------------------------------------

  lemma PushKeeps(g: Graph, s: nat, v: nat, st: State)
    requires Inv(g, s, st) && v !in st.blocked && Active(g, s, v) && Walk(g, s, st.path + [v])
    ensures Inv(g, s, Push(st, v))
  {
    hide Walk;
    var next := Push(st, v);
    forall j: nat | j < |next.path|
      ensures Shielded(next, j)
    {
      if j < |st.path| {
        assert Shielded(st, j);
        var k :| Shields(st, j, k);
        assert Shields(next, j, k);
      } else {
        assert st.blockers[v] == [];
        assert Shields(next, j, {v});
      }
    }
  }

  lemma OffPath(path: seq<nat>, x: nat)
    requires path != [] && x !in path[..|path| - 1] && x != path[|path| - 1]
    ensures x !in path
  {
    assert path == path[..|path| - 1] + [path[|path| - 1]];
  }

  /** After a cycle was found, the last vertex is unblocked, and whatever stays blocked keeps waiting for
      vertices that stay blocked. */
  lemma LeaveFoundMeaning(g: Graph, s: nat, v: nat, st: State, k: set<nat>)
    requires st.Fits(g) && st.path != [] && v in st.blocked && HoldsWaiting(st.blockers, k) && v in k
    ensures var next := Leave(g, s, v, st, true);
      && next.blocked <= st.blocked && v !in next.blocked
      && (forall x: nat :: x in st.blocked && x !in k ==> x in next.blocked)
      && (forall w: nat, x: nat :: w < g.n && x in next.blockers[w] ==> x in st.blockers[w])
      && (forall w: nat :: w < g.n && next.blockers[w] != [] ==>
          st.blockers[w] != [] && (w in st.blocked ==> w in next.blocked))
      && (forall w: nat, x: nat :: w in st.blocked && x in st.blockers[w] && x in next.blocked ==>
           w in next.blocked && x in next.blockers[w])
  {
    UnblockMeaning(st, v, k);
    hide Unblock;
  }

  lemma ShieldsKept(st: State, next: State, j: nat)
    requires Shielded(st, j) && j < |next.path| && next.path <= st.path && |next.blockers| == |st.blockers|
    requires forall w: nat, x: nat :: w < |st.blockers| && x in next.blockers[w] ==> x in st.blockers[w]
    ensures Shielded(next, j)
  {
    var k :| Shields(st, j, k);
    assert Shields(next, j, k);
  }

  /** Leaving the last vertex of the path after a cycle was found. */
  lemma LeaveFoundKeeps(g: Graph, s: nat, v: nat, st: State)
    requires Inv(g, s, st) && st.path != [] && st.path[|st.path| - 1] == v
    ensures Inv(g, s, Leave(g, s, v, st, true))
  {
    var top := |st.path| - 1;
    assert Shielded(st, top);
    var k :| Shields(st, top, k);
    LeaveFoundMeaning(g, s, v, st, k);
    var next := Leave(g, s, v, st, true);
    hide Leave, HoldsWaiting;
    forall x: nat | Active(g, s, x) && x in next.blocked && x !in next.path
      ensures Stuck(g, s, next, x)
    {
      OffPath(st.path, x);
      assert Stuck(g, s, st, x);
    }
    forall j: nat | j < |next.path|
      ensures Shielded(next, j)
    {
      assert Shielded(st, j);
      ShieldsKept(st, next, j);
    }
    assert next.path != [] ==> Walk(g, s, next.path);
  }

  /** Without a cycle found, the last vertex joins the waiting lists of its successors. */
  lemma LeaveFailedMeaning(g: Graph, s: nat, v: nat, st: State)
    requires st.Fits(g) && v < g.n && st.path != []
    ensures var next := Leave(g, s, v, st, false);
      && next.blocked == st.blocked
      && forall w: nat, x: nat :: w < g.n ==>
           (x in next.blockers[w] <==> x in st.blockers[w] || (x == v && Active(g, s, w) && g.Edge(v, w)))
  {
    AwaitMeaning(g, s, v, 0, st);
    assert g.adj[v][0..] == g.adj[v];
    hide Await;
  }

  /** Leaving it without one, when it has no edge to `s` and its successors are all blocked. */
  lemma LeaveFailedKeeps(g: Graph, s: nat, v: nat, st: State)
    requires Inv(g, s, st) && st.path != [] && st.path[|st.path| - 1] == v
    requires !g.Edge(v, s) && forall w: nat :: Active(g, s, w) && g.Edge(v, w) ==> w in st.blocked
    ensures Inv(g, s, Leave(g, s, v, st, false)) && Leave(g, s, v, st, false).blocked == st.blocked
  {
    var top := |st.path| - 1;
    LeaveFailedMeaning(g, s, v, st);
    var next := Leave(g, s, v, st, false);
    hide Leave;
    forall x: nat | Active(g, s, x) && x in next.blocked && x !in next.path
      ensures Stuck(g, s, next, x)
    {
      if x != v {
        OffPath(st.path, x);
        assert Stuck(g, s, st, x);
      }
      forall w: nat | Active(g, s, w) && g.Edge(x, w)
        ensures w in next.blocked && x in next.blockers[w]
      {
        assert x == v || x in st.blockers[w];
      }
    }
    forall w: nat | Active(g, s, w) && next.blockers[w] != []
      ensures w in next.blocked
    {
      var x := next.blockers[w][0];
      assert x in next.blockers[w];
      assert x in st.blockers[w] || g.Edge(v, w);
    }
    assert Shielded(st, top);
    var k :| Shields(st, top, k);
    forall j: nat | j < |next.path|
      ensures Shielded(next, j)
    {
      assert Shielded(st, j);
      var m :| Shields(st, j, m);
      assert Shields(next, j, m + k);
    }
    assert next.path != [] ==> Walk(g, s, next.path);
  }

  function Below(n: nat): (all: set<nat>)
    ensures |all| == n && forall x: nat :: x in all <==> x < n
  {
    if n == 0 then {} else Below(n - 1) + {n - 1}
  }

  /** Distinct members of a set are at most all of them. */
  lemma {:induction false} DistinctBound<T>(path: seq<T>, all: set<T>)
    requires Distinct(path) && forall x :: x in path ==> x in all
    ensures |path| <= |all|
  {
    if path == [] {
    } else {
      var front, last := path[..|path| - 1], path[|path| - 1];
      assert path == front + [last];
      DistinctBound(front, all - {last});
    }
  }

  lemma ReportKeeps(g: Graph, s: nat, st: State, detected: seq<seq<nat>>)
    requires Inv(g, s, st)
    ensures Inv(g, s, st.(detected := detected))
  {
    var next := st.(detected := detected);
    forall j: nat | j < |next.path|
      ensures Shielded(next, j)
    {
      assert Shielded(st, j);
      var k :| Shields(st, j, k);
      assert Shields(next, j, k);
    }
    forall x: nat | Active(g, s, x) && x in next.blocked && x !in next.path
      ensures Stuck(g, s, next, x)
    {
      assert Stuck(g, s, st, x);
    }
  }

  /** A state from which the search goes on. */
  ghost predicate Going(g: Graph, cfg: Config, s: nat, st: State) {
    g.Valid() && st.Fits(g) && cfg.maxLength >= g.n && Inv(g, s, st) && |st.detected| < cfg.maxCycles
  }

  ghost predicate AllElementary(found: seq<seq<nat>>) { forall c :: c in found ==> Distinct(c) }

  /** What a part of the search keeps: the invariant, unless the cap is reached, and elementary cycles. If it
      finds no cycle, it unblocks nothing. */
  ghost predicate Keeps(g: Graph, cfg: Config, s: nat, st: State, next: State, found: bool) {
    && st.detected <= next.detected
    && (AllElementary(st.detected) ==> AllElementary(next.detected))
    && (|next.detected| < cfg.maxCycles ==> Going(g, cfg, s, next))
    && (!found ==> st.blocked <= next.blocked && next.detected == st.detected)
  }

  lemma {:induction false} CircuitKeeps(g: Graph, cfg: Config, s: nat, v: nat, st: State)
    requires Going(g, cfg, s, st) && Active(g, s, v) && v !in st.blocked && Walk(g, s, st.path + [v])
    ensures var (next, found) := Circuit(g, cfg, s, v, st);
      Keeps(g, cfg, s, st, next, found) && (!found ==> v in next.blocked)
    decreases Room(cfg, st), 0, 0
  {
    hide Inv;
    NotRefused(g, cfg, s, v, st);
    PushKeeps(g, s, v, st);
    VisitKeeps(g, cfg, s, v, 0, Push(st, v), false);
    var (looped, found) := Visit(g, cfg, s, v, 0, Push(st, v), false);
    if |looped.detected| < cfg.maxCycles {
      if found {
        LeaveFoundKeeps(g, s, v, looped);
      } else {
        LeaveFailedKeeps(g, s, v, looped);
      }
    }
  }

  lemma NotRefused(g: Graph, cfg: Config, s: nat, v: nat, st: State)
    requires Going(g, cfg, s, st) && Active(g, s, v) && v !in st.blocked && Walk(g, s, st.path + [v])
    ensures !Refused(cfg, st)
  {
    var longer := st.path + [v];
    assert v !in st.path;
    assert Distinct(longer);
    DistinctBound(longer, Below(g.n));
  }

  lemma {:induction false} TurnKeeps(g: Graph, cfg: Config, s: nat, w: nat, st: State)
    requires Going(g, cfg, s, st) && Active(g, s, w) && st.path != [] && |st.path| <= cfg.maxLength
    requires g.Edge(st.path[|st.path| - 1], w)
    ensures var (next, found) := Turn(g, cfg, s, w, st);
      Keeps(g, cfg, s, st, next, found) && (!found ==> w != s && w in next.blocked)
    decreases Room(cfg, st), 1, 0
  {
    if w == s {
      ReportKeeps(g, s, st, st.detected + [st.path]);
    } else if w !in st.blocked {
      assert Walk(g, s, st.path + [w]);
      CircuitKeeps(g, cfg, s, w, st);
    }
  }

  lemma {:induction false} VisitKeeps(g: Graph, cfg: Config, s: nat, v: nat, k: nat, st: State, found: bool)
    requires Going(g, cfg, s, st) && v < g.n && k <= |g.adj[v]| && |st.path| <= cfg.maxLength
    requires st.path != [] && st.path[|st.path| - 1] == v
    requires !found ==> forall i :: 0 <= i < k && Active(g, s, g.adj[v][i]) ==>
      g.adj[v][i] != s && g.adj[v][i] in st.blocked
    ensures var (last, hit) := Visit(g, cfg, s, v, k, st, found);
      && Keeps(g, cfg, s, st, last, hit) && (found ==> hit)
      && (!hit ==> !g.Edge(v, s) && forall w: nat :: Active(g, s, w) && g.Edge(v, w) ==> w in last.blocked)
    decreases Room(cfg, st), 2, |g.adj[v]| - k
  {
    hide Inv, Turn;
    if k == |g.adj[v]| {
    } else {
      var w := g.adj[v][k];
      if !Active(g, s, w) {
        VisitKeeps(g, cfg, s, v, k + 1, st, found);
      } else {
        TurnKeeps(g, cfg, s, w, st);
        var (next, hit) := Turn(g, cfg, s, w, st);
        if |next.detected| < cfg.maxCycles {
          VisitKeeps(g, cfg, s, v, k + 1, next, found || hit);
        }
      }
    }
  }

  // ---------------------------------------------------------------------------------------------
  // Nothing is missed
  // ---------------------------------------------------------------------------------------------

  /** An elementary cycle from its smallest vertex. */
  ghost predicate Elementary(g: Graph, s: nat, c: seq<nat>) { Closed(g, s, c) && Distinct(c) }

  /** No vertex on the rest of an elementary cycle that continues the path is blocked: all its successors
      would be blocked too, up to the edge back to `s`. */
  lemma {:induction false} RestIsNotBlocked(g: Graph, s: nat, st: State, c: seq<nat>, i: nat)
    requires Inv(g, s, st) && Elementary(g, s, c) && st.path <= c && |st.path| <= i < |c|
    ensures c[i] !in st.blocked
    decreases |c| - i
  {
    assert c[i] !in st.path;
    if c[i] in st.blocked {
      assert Stuck(g, s, st, c[i]);
      if i + 1 < |c| {
        RestIsNotBlocked(g, s, st, c, i + 1);
      }
    }
  }

  lemma {:induction false} CircuitFinds(g: Graph, cfg: Config, s: nat, v: nat, st: State, c: seq<nat>)
    requires Going(g, cfg, s, st) && Active(g, s, v) && v !in st.blocked && Walk(g, s, st.path + [v])
    requires Elementary(g, s, c) && st.path + [v] <= c
    ensures var next := Circuit(g, cfg, s, v, st).0; |next.detected| < cfg.maxCycles ==> c in next.detected
    decreases Room(cfg, st), 0, 0
  {
    hide Inv;
    NotRefused(g, cfg, s, v, st);
    PushKeeps(g, s, v, st);
    var path := st.path + [v];
    var w := Branch(s, path, c);
    assert g.Edge(v, w) by {
      assert v == c[|path| - 1];
    }
    var t :| 0 <= t < |g.adj[v]| && g.adj[v][t] == w;
    VisitFinds(g, cfg, s, v, 0, Push(st, v), false, c, t);
  }

  lemma {:induction false} TurnFinds(g: Graph, cfg: Config, s: nat, w: nat, st: State, c: seq<nat>)
    requires Going(g, cfg, s, st) && Active(g, s, w) && st.path != [] && |st.path| <= cfg.maxLength
    requires g.Edge(st.path[|st.path| - 1], w)
    requires Elementary(g, s, c) && st.path <= c && w == Branch(s, st.path, c)
    ensures var next := Turn(g, cfg, s, w, st).0; |next.detected| < cfg.maxCycles ==> c in next.detected
    decreases Room(cfg, st), 1, 0
  {
    if |c| == |st.path| {
      assert c == st.path;
    } else {
      RestIsNotBlocked(g, s, st, c, |st.path|);
      assert Walk(g, s, st.path + [w]);
      CircuitFinds(g, cfg, s, w, st, c);
    }
  }

  lemma {:induction false} VisitFinds(
    g: Graph, cfg: Config, s: nat, v: nat, k: nat, st: State, found: bool, c: seq<nat>, t: nat)
    requires Going(g, cfg, s, st) && v < g.n && k <= t < |g.adj[v]| && |st.path| <= cfg.maxLength
    requires st.path != [] && st.path[|st.path| - 1] == v
    requires Elementary(g, s, c) && st.path <= c && g.adj[v][t] == Branch(s, st.path, c)
    ensures var last := Visit(g, cfg, s, v, k, st, found).0; |last.detected| < cfg.maxCycles ==> c in last.detected
    decreases Room(cfg, st), 2, |g.adj[v]| - k
  {
    hide Inv, Turn, Closed, Branch;
    var w := g.adj[v][k];
    if !Active(g, s, w) {
      BranchIsActive(g, s, st.path, c);
      VisitFinds(g, cfg, s, v, k + 1, st, found, c, t);
    } else {
      TurnKeeps(g, cfg, s, w, st);
      var (next, hit) := Turn(g, cfg, s, w, st);
      if |next.detected| < cfg.maxCycles {
        if k < t {
          VisitFinds(g, cfg, s, v, k + 1, next, found || hit, c, t);
        } else {
          TurnFinds(g, cfg, s, w, st, c);
          VisitGoesOn(g, cfg, s, v, k + 1, next, found || hit);
        }
      }
    }
  }

  lemma BranchIsActive(g: Graph, s: nat, path: seq<nat>, c: seq<nat>)
    requires Closed(g, s, c)
    ensures Active(g, s, Branch(s, path, c))
  {
  }

  lemma {:induction false} VisitGoesOn(g: Graph, cfg: Config, s: nat, v: nat, k: nat, st: State, found: bool)
    requires Going(g, cfg, s, st) && v < g.n && k <= |g.adj[v]| && |st.path| <= cfg.maxLength
    requires st.path != [] && st.path[|st.path| - 1] == v
    ensures st.detected <= Visit(g, cfg, s, v, k, st, found).0.detected
  {
    VisitGrows(g, cfg, s, v, k, st, found);
  }

  // ---------------------------------------------------------------------------------------------
  // All rounds
  // ---------------------------------------------------------------------------------------------

  lemma ResetStarts(g: Graph, s: nat, st: State)
    requires st.Fits(g) && st.path == []
    ensures Inv(g, s, Reset(s, st))
  {
    ResetKeeps(g, s, st);
  }

  /** One round keeps the cycles elementary and finds all that start at `s`. */
  lemma RoundIsExact(g: Graph, cfg: Config, s: nat, st: State)
    requires g.Valid() && cfg.maxLength >= g.n && st.Fits(g) && s < g.n && st.path == []
    requires |st.detected| < cfg.maxCycles && AllElementary(st.detected)
    ensures var next := Circuit(g, cfg, s, s, Reset(s, st)).0;
      && AllElementary(next.detected)
      && (|next.detected| < cfg.maxCycles ==> forall c :: Elementary(g, s, c) ==> c in next.detected)
  {
    hide Circuit, Inv, Reset;
    ResetStarts(g, s, st);
    ResetKeeps(g, s, st);
    var cleared := Reset(s, st);
    assert s !in cleared.blocked by { ResetUnblocks(s, st); }
    assert cleared.path + [s] == [s] && Walk(g, s, [s]);
    CircuitKeeps(g, cfg, s, s, cleared);
    forall c | Elementary(g, s, c)
      ensures var next := Circuit(g, cfg, s, s, cleared).0; |next.detected| < cfg.maxCycles ==> c in next.detected
    {
      CircuitFinds(g, cfg, s, s, cleared, c);
    }
  }

  lemma ResetUnblocks(s: nat, st: State)
    ensures s !in Reset(s, st).blocked
  {
  }

  lemma {:induction false} RoundsAreExact(g: Graph, cfg: Config, s: nat, st: State)
    requires g.Valid() && cfg.maxLength >= g.n && st.Fits(g) && s <= g.n && st.path == []
    requires ReportedBelow(g, cfg, s, st.detected) && AllElementary(st.detected) && |st.detected| < cfg.maxCycles
    ensures var found := Rounds(g, cfg, s, st).detected;
      && AllElementary(found)
      && (|found| < cfg.maxCycles ==> forall c :: c != [] && s <= c[0] && Elementary(g, c[0], c) ==> c in found)
    decreases g.n - s
  {
    hide Circuit, Reset, Reported, Elementary, AllElementary;
    if s < g.n {
      ResetKeeps(g, s, st);
      RoundIsExact(g, cfg, s, st);
      RoundReports(g, cfg, s, st);
      var next := Circuit(g, cfg, s, s, Reset(s, st)).0;
      if |next.detected| < cfg.maxCycles {
        RoundsAreExact(g, cfg, s + 1, next);
        RoundsReport(g, cfg, s + 1, next);
      }
    } else {
      NoLaterCycle(g);
    }
  }

  lemma NoLaterCycle(g: Graph)
    ensures forall c :: c != [] && g.n <= c[0] ==> !Elementary(g, c[0], c)
  {
  }

  /** When the length bound is at least the size of the component, every reported cycle is elementary; and
      unless the cap on their number is reached, the reported cycles are exactly the elementary ones. */
  lemma EnumerateIsExact(g: Graph, cfg: Config)
    requires g.Valid() && cfg.maxLength >= g.n
    ensures AllElementary(Enumerate(g, cfg))
    ensures |Enumerate(g, cfg)| < cfg.maxCycles ==>
      forall c :: c in Enumerate(g, cfg) <==> c != [] && Elementary(g, c[0], c)
  {
    hide Rounds, Closed;
    EnumerateReports(g, cfg);
    if cfg.maxCycles > 0 {
      RoundsAreExact(g, cfg, 0, Initial(g.n));
    }
  }
}
