/** What the length bound costs when it is smaller than the component: below which bounds cycles are missed,
    and from which bound on a reported cycle can repeat a vertex. */
module CycleBounds {
  import opened CycleSearch
  import opened CycleBlocking

  // ---------------------------------------------------------------------------------------------
  // The last vertex of a reported cycle is never repeated
  // ---------------------------------------------------------------------------------------------

  ghost predicate LastIsNew(c: seq<nat>) { forall i :: 0 <= i < |c| - 1 ==> c[i] != c[|c| - 1] }

  ghost predicate AllLastNew(found: seq<seq<nat>>) { forall c :: c in found ==> LastIsNew(c) }

  /** A vertex that waits, that is on the path without being blocked, or that is on the path twice has no
      edge back to `s`. */
  ghost predicate Backless(g: Graph, s: nat, st: State) {
    && (forall w: nat, x: nat :: Active(g, s, w) && w < |st.blockers| && x in st.blockers[w] ==>
         Active(g, s, x) && !g.Edge(x, s))
    && (forall x: nat :: x in st.path && x !in st.blocked ==> !g.Edge(x, s))
    && (forall i, j :: 0 <= i < j < |st.path| && st.path[i] == st.path[j] ==> !g.Edge(st.path[i], s))
  }

  /** The same, for a search that goes on. */
  ghost predicate GoingBackless(g: Graph, cfg: Config, s: nat, st: State) {
    g.Valid() && st.Fits(g) && Backless(g, s, st) && |st.detected| < cfg.maxCycles && AllLastNew(st.detected)
  }

  lemma PushBackless(g: Graph, s: nat, v: nat, st: State)
    requires st.Fits(g) && Backless(g, s, st) && v !in st.blocked && v < g.n
    ensures Backless(g, s, Push(st, v))
  {
    var next := Push(st, v);
    forall i, j | 0 <= i < j < |next.path| && next.path[i] == next.path[j]
      ensures !g.Edge(next.path[i], s)
    {
      assert next.path[i] in st.path;
    }
  }

  lemma LeaveBackless(g: Graph, s: nat, v: nat, st: State, found: bool)
    requires st.Fits(g) && Backless(g, s, st) && st.path != [] && st.path[|st.path| - 1] == v && Active(g, s, v)
    requires !found ==> !g.Edge(v, s)
    ensures Backless(g, s, Leave(g, s, v, st, found))
  {
    var top := |st.path| - 1;
    var next := Leave(g, s, v, st, found);
    assert forall i :: 0 <= i < top ==> next.path[i] == st.path[i];
    assert v in next.path ==> !g.Edge(v, s) by {
      if v in next.path {
        var i :| 0 <= i < top && next.path[i] == v;
        assert st.path[i] == st.path[top];
      }
    }
    if found {
      var all := Below(g.n);
      var k := (set x: nat | x in all && Active(g, s, x) && !g.Edge(x, s)) + {v};
      forall w: nat, x: nat | Active(g, s, w) && w < |st.blockers| && x in st.blockers[w]
        ensures x in k
      {
        assert Active(g, s, x);
        assert x in all;
      }
      FlushMeaning(Release(st, v), st.blockers[v], k);
      hide Flush;
      forall x: nat | x in next.path && x !in next.blocked
        ensures !g.Edge(x, s)
      {
        assert x in st.path;
        assert x == v || x !in st.blocked || x in k;
      }
    } else {
      LeaveFailedMeaning(g, s, v, st);
    }
  }

  lemma {:induction false} CircuitLastNew(g: Graph, cfg: Config, s: nat, v: nat, st: State)
    requires GoingBackless(g, cfg, s, st) && Active(g, s, v) && v !in st.blocked
    ensures var next := Circuit(g, cfg, s, v, st).0;
      AllLastNew(next.detected) && (|next.detected| < cfg.maxCycles ==> GoingBackless(g, cfg, s, next))
    decreases Room(cfg, st), 0, 0
  {
    hide Backless, LastIsNew;
    if !Refused(cfg, st) {
      PushBackless(g, s, v, st);
      VisitLastNew(g, cfg, s, v, 0, Push(st, v), false);
      var (looped, found) := Visit(g, cfg, s, v, 0, Push(st, v), false);
      if |looped.detected| < cfg.maxCycles {
        LeaveBackless(g, s, v, looped, found);
      }
    }
  }

  lemma ReportBackless(g: Graph, cfg: Config, s: nat, st: State)
    requires GoingBackless(g, cfg, s, st) && st.path != [] && g.Edge(st.path[|st.path| - 1], s)
    ensures AllLastNew(st.detected + [st.path]) && Backless(g, s, st.(detected := st.detected + [st.path]))
  {
  }

  lemma {:induction false} TurnLastNew(g: Graph, cfg: Config, s: nat, w: nat, st: State)
    requires GoingBackless(g, cfg, s, st) && Active(g, s, w) && |st.path| <= cfg.maxLength
    requires st.path != [] && g.Edge(st.path[|st.path| - 1], w)
    ensures var (next, found) := Turn(g, cfg, s, w, st);
      && AllLastNew(next.detected) && (|next.detected| < cfg.maxCycles ==> GoingBackless(g, cfg, s, next))
      && (w == s ==> found)
    decreases Room(cfg, st), 1, 0
  {
    hide Backless, LastIsNew;
    if w == s {
      ReportBackless(g, cfg, s, st);
    } else if w !in st.blocked {
      CircuitLastNew(g, cfg, s, w, st);
    }
  }

  lemma {:induction false} VisitLastNew(g: Graph, cfg: Config, s: nat, v: nat, k: nat, st: State, found: bool)
    requires GoingBackless(g, cfg, s, st) && v < g.n && k <= |g.adj[v]| && |st.path| <= cfg.maxLength
    requires st.path != [] && st.path[|st.path| - 1] == v && s < g.n
    requires !found ==> s !in g.adj[v][..k]
    ensures var (last, hit) := Visit(g, cfg, s, v, k, st, found);
      && AllLastNew(last.detected) && (found ==> hit)
      && (|last.detected| < cfg.maxCycles ==> GoingBackless(g, cfg, s, last) && (!hit ==> !g.Edge(v, s)))
    decreases Room(cfg, st), 2, |g.adj[v]| - k
  {
    hide Backless, LastIsNew, Turn;
    if k < |g.adj[v]| {
      var w := g.adj[v][k];
      assert g.adj[v][..k + 1] == g.adj[v][..k] + [w];
      if !Active(g, s, w) {
        VisitLastNew(g, cfg, s, v, k + 1, st, found);
      } else {
        TurnLastNew(g, cfg, s, w, st);
        var (next, hit) := Turn(g, cfg, s, w, st);
        if |next.detected| < cfg.maxCycles {
          VisitLastNew(g, cfg, s, v, k + 1, next, found || hit);
        }
      }
    } else {
      assert g.adj[v][..k] == g.adj[v];
    }
  }

  lemma {:induction false} RoundsLastNew(g: Graph, cfg: Config, s: nat, st: State)
    requires g.Valid() && st.Fits(g) && s <= g.n && st.path == []
    requires AllLastNew(st.detected) && |st.detected| < cfg.maxCycles
    ensures AllLastNew(Rounds(g, cfg, s, st).detected)
    decreases g.n - s
  {
    hide Circuit, LastIsNew;
    if s == g.n {
    } else {
      var cleared := Reset(s, st);
      ResetKeeps(g, s, st);
      CircuitLastNew(g, cfg, s, s, cleared);
      var next := Circuit(g, cfg, s, s, cleared).0;
      if |next.detected| < cfg.maxCycles {
        RoundsLastNew(g, cfg, s + 1, next);
      }
    }
  }

  /** Four vertices without neighbouring repetitions, a repeated first or a repeated last vertex. */
  lemma ShortIsDistinct(g: Graph, cfg: Config, c: seq<nat>)
    requires g.Valid() && Reported(g, cfg, c) && LastIsNew(c) && |c| <= 4
    ensures Distinct(c)
  {
    assert forall i :: 0 < i < |c| ==> c[i] != c[i - 1];
  }

  /** Whatever the bounds, the last vertex of a reported cycle is not repeated; so with a length bound of at
      most four every reported cycle is elementary. */
  lemma LastVertexIsNew(g: Graph, cfg: Config)
    requires g.Valid()
    ensures AllLastNew(Enumerate(g, cfg))
    ensures cfg.maxLength <= 4 ==> AllElementary(Enumerate(g, cfg))
  {
    hide Rounds, Reported, LastIsNew;
    EnumerateReports(g, cfg);
    if cfg.maxCycles > 0 {
      RoundsLastNew(g, cfg, 0, Initial(g.n));
    }
    if cfg.maxLength <= 4 {
      forall c | c in Enumerate(g, cfg)
        ensures Distinct(c)
      {
        assert |c| <= 4 by { assert Reported(g, cfg, c); ReportedLength(g, cfg, c); }
        ShortIsDistinct(g, cfg, c);
      }
    }
  }

  lemma ReportedLength(g: Graph, cfg: Config, c: seq<nat>)
    requires Reported(g, cfg, c)
    ensures |c| <= cfg.maxLength
  {
  }

  // ---------------------------------------------------------------------------------------------
  // A bound of two misses nothing
  // ---------------------------------------------------------------------------------------------

  /** Unless the cap is reached, every elementary cycle within the length bound is reported. */
  ghost predicate Complete(g: Graph, cfg: Config)
    requires |g.adj| == g.n
  {
    |Enumerate(g, cfg)| < cfg.maxCycles ==>
      forall c :: c != [] && Elementary(g, c[0], c) && |c| <= cfg.maxLength ==> c in Enumerate(g, cfg)
  }

  lemma FullTurn(g: Graph, cfg: Config, s: nat, w: nat, st: State)
    requires st.Fits(g) && w < g.n && w != s && |st.path| == cfg.maxLength
    ensures Turn(g, cfg, s, w, st) == (st, false)
  {
  }

  /** On a path as long as allowed only the edge back to `s` matters. */
  lemma {:induction false} FullVisit(g: Graph, cfg: Config, s: nat, v: nat, k: nat, st: State, found: bool)
    requires g.Valid() && st.Fits(g) && v < g.n && s < g.n && k <= |g.adj[v]| && |st.path| == cfg.maxLength >= 2
    requires |st.detected| < cfg.maxCycles && s !in g.adj[v][..k]
    ensures var (last, hit) := Visit(g, cfg, s, v, k, st, found);
      && last == st.(detected := st.detected + if s in g.adj[v] then [st.path] else [])
      && (hit <==> found || s in g.adj[v])
    decreases |g.adj[v]| - k
  {
    if k < |g.adj[v]| {
      var w := g.adj[v][k];
      assert g.adj[v][..k + 1] == g.adj[v][..k] + [w];
      if w == s {
        var next := st.(detected := st.detected + [st.path]);
        OnceAt(g, v, k);
        if |next.detected| < cfg.maxCycles {
          NothingAfter(g, cfg, s, v, k + 1, next);
        }
      } else {
        if Active(g, s, w) {
          FullTurn(g, cfg, s, w, st);
        }
        FullVisit(g, cfg, s, v, k + 1, st, found);
      }
    } else {
      assert g.adj[v][..k] == g.adj[v];
    }
  }

  lemma {:induction false} NothingAfter(g: Graph, cfg: Config, s: nat, v: nat, k: nat, st: State)
    requires g.Valid() && st.Fits(g) && v < g.n && s < g.n && k <= |g.adj[v]| && |st.path| == cfg.maxLength
    requires s !in g.adj[v][k..] && |st.detected| < cfg.maxCycles
    ensures Visit(g, cfg, s, v, k, st, true) == (st, true)
    decreases |g.adj[v]| - k
  {
    if k == |g.adj[v]| {
    } else {
      var w := g.adj[v][k];
      assert g.adj[v][k..] == [w] + g.adj[v][k + 1..];
      if Active(g, s, w) {
        FullTurn(g, cfg, s, w, st);
      }
      NothingAfter(g, cfg, s, v, k + 1, st);
    }
  }

  lemma SecondVertex(g: Graph, cfg: Config, s: nat, w: nat, st: State)
    requires g.Valid() && st.Fits(g) && w < g.n && s < g.n && st.path == [s] && cfg.maxLength == 2
    requires |st.detected| < cfg.maxCycles
    ensures var next := Circuit(g, cfg, s, w, st).0;
      && next.blocked <= st.blocked + {w}
      && next.detected == st.detected + if s in g.adj[w] then [[s, w]] else []
  {
    assert g.adj[w][..0] == [];
    assert [s] + [w] == [s, w];
    FullVisit(g, cfg, s, w, 0, Push(st, w), false);
  }

  lemma {:induction false} FirstVisit(g: Graph, cfg: Config, s: nat, k: nat, st: State, found: bool, t: nat)
    requires g.Valid() && st.Fits(g) && s < g.n && st.path == [s] && cfg.maxLength == 2
    requires |st.detected| < cfg.maxCycles && k <= |g.adj[s]| && t < |g.adj[s]|
    requires Active(g, s, g.adj[s][t]) && s in g.adj[g.adj[s][t]]
    requires forall i :: k <= i < |g.adj[s]| && g.adj[s][i] >= s ==> g.adj[s][i] !in st.blocked
    requires t < k ==> [s, g.adj[s][t]] in st.detected
    ensures var last := Visit(g, cfg, s, s, k, st, found).0;
      |last.detected| < cfg.maxCycles ==> [s, g.adj[s][t]] in last.detected
    decreases |g.adj[s]| - k
  {
    hide Circuit;
    if k == |g.adj[s]| {
    } else {
      var w := g.adj[s][k];
      assert w != s;
      if !Active(g, s, w) {
        FirstVisit(g, cfg, s, k + 1, st, found, t);
      } else {
        SecondVertex(g, cfg, s, w, st);
        var (next, hit) := Turn(g, cfg, s, w, st);
        if |next.detected| < cfg.maxCycles {
          FirstVisit(g, cfg, s, k + 1, next, found || hit, t);
        }
      }
    }
  }

  lemma RoundOfTwo(g: Graph, cfg: Config, s: nat, st: State, w: nat)
    requires g.Valid() && st.Fits(g) && s < g.n && st.path == [] && cfg.maxLength == 2
    requires |st.detected| < cfg.maxCycles && Active(g, s, w) && g.Edge(s, w) && g.Edge(w, s)
    ensures var next := Circuit(g, cfg, s, s, Reset(s, st)).0;
      |next.detected| < cfg.maxCycles ==> [s, w] in next.detected
  {
    var cleared := Reset(s, st);
    ResetKeeps(g, s, st);
    var t :| 0 <= t < |g.adj[s]| && g.adj[s][t] == w;
    assert [] + [s] == [s];
    FirstVisit(g, cfg, s, 0, Push(cleared, s), false, t);
  }

  lemma {:induction false} RoundsOfTwo(g: Graph, cfg: Config, s: nat, st: State, c: seq<nat>)
    requires g.Valid() && st.Fits(g) && s <= g.n && st.path == [] && cfg.maxLength == 2
    requires ReportedBelow(g, cfg, s, st.detected) && |st.detected| < cfg.maxCycles
    requires |c| == 2 && s <= c[0] < g.n && Closed(g, c[0], c)
    ensures var found := Rounds(g, cfg, s, st).detected; |found| < cfg.maxCycles ==> c in found
    decreases g.n - s
  {
    hide Circuit, Reset, Reported, ReportedBelow;
    ResetKeeps(g, s, st);
    RoundReports(g, cfg, s, st);
    var next := Circuit(g, cfg, s, s, Reset(s, st)).0;
    if |next.detected| < cfg.maxCycles {
      if c[0] == s {
        RoundOfTwo(g, cfg, s, st, c[1]);
        assert c == [s, c[1]];
        RoundsReport(g, cfg, s + 1, next);
      } else {
        RoundsOfTwo(g, cfg, s + 1, next, c);
      }
    }
  }

  lemma AtMostTwoIsComplete(g: Graph, cfg: Config)
    requires g.Valid() && cfg.maxLength <= 2
    ensures Complete(g, cfg)
  {
    hide Rounds, Reported;
    forall c | c != [] && Elementary(g, c[0], c) && |c| <= cfg.maxLength && |Enumerate(g, cfg)| < cfg.maxCycles
      ensures c in Enumerate(g, cfg)
    {
      RoundsOfTwo(g, cfg, 0, Initial(g.n), c);
    }
  }
}
