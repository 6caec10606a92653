/** Components on which a length bound below their size makes the search miss a cycle that is short enough,
    or report a walk that is no elementary cycle; and so exactly which bounds are safe. */
module CycleFailures {
  import opened CycleSearch
  import opened CycleBlocking
  import opened CycleBounds
  import opened Reachability

  /** A cycle through all vertices makes a graph one component. */
  lemma RingIsOneComponent(g: Graph, c: seq<nat>)
    requires Closed(g, 0, c) && forall a: nat :: a < g.n ==> a in c
    ensures OneComponent(g)
  {
    forall a: nat, b: nat | a < g.n && b < g.n
      ensures Reaches(g, a, b)
    {
      assert a in c && b in c;
      var i :| 0 <= i < |c| && c[i] == a;
      var j :| 0 <= j < |c| && c[j] == b;
      var around := c[i..] + c[..j + 1];
      hide Graph.Edge;
      assert Path(g, a, b, around);
    }
  }

  // ---------------------------------------------------------------------------------------------
  // A missed cycle
  // ---------------------------------------------------------------------------------------------

  function DetourNext(n: nat, bound: nat, v: nat): seq<nat> {
    if v == 0 then [1, 2]
    else if v == bound && v + 1 < n then [0, v + 1]
    else if v != bound && v + 1 < n then [v + 1]
    else [0]
  }

  /** The ring `0, 1, ..., n - 1` with a short cut from 0 to 2 and one from `bound` back to 0. */
  function Detour(n: nat, bound: nat): Graph { Graph(n, seq(n, v requires 0 <= v < n => DetourNext(n, bound, v))) }

  /** The cycle over both short cuts. */
  function ShortCut(bound: nat): (c: seq<nat>)
    requires bound >= 1
    ensures |c| == bound
  {
    seq(bound, i requires 0 <= i < bound => if i == 0 then 0 else i + 1)
  }

  lemma DetourIsValid(n: nat, bound: nat)
    requires 3 <= bound < n
    ensures Detour(n, bound).Valid()
  {
  }

  lemma DetourEdge(n: nat, bound: nat, v: nat, w: nat)
    requires 3 <= bound < n && v < n && w < n
    ensures Detour(n, bound).Edge(v, w) <==> w in DetourNext(n, bound, v)
  {
  }

  lemma DetourIsComponent(n: nat, bound: nat)
    requires 3 <= bound < n
    ensures Detour(n, bound).Valid() && OneComponent(Detour(n, bound))
  {
    var g := Detour(n, bound);
    var ring := seq(n, i requires 0 <= i < n => i);
    DetourIsValid(n, bound);
    DetourSize(n, bound);
    hide Graph.Edge, Graph.Valid, Detour;
    forall i | 0 < i < n
      ensures g.Edge(ring[i - 1], ring[i])
    {
      DetourEdge(n, bound, i - 1, i);
    }
    DetourEdge(n, bound, n - 1, 0);
    forall a: nat | a < n
      ensures a in ring
    {
      assert ring[a] == a;
    }
    RingIsOneComponent(g, ring);
  }

  lemma ShortCutIsElementary(n: nat, bound: nat)
    requires 3 <= bound < n
    ensures Elementary(Detour(n, bound), 0, ShortCut(bound))
  {
    var g, c := Detour(n, bound), ShortCut(bound);
    hide Graph.Edge, Detour;
    forall i | 0 < i < bound
      ensures g.Edge(c[i - 1], c[i])
    {
      DetourEdge(n, bound, c[i - 1], c[i]);
    }
    DetourEdge(n, bound, bound, 0);
    DetourSize(n, bound);
  }

  lemma DetourSize(n: nat, bound: nat)
    ensures Detour(n, bound).n == n
  {
  }

  /** A single neighbour is one turn. */
  lemma SingleVisit(g: Graph, cfg: Config, s: nat, v: nat, w: nat, st: State)
    requires st.Fits(g) && v < g.n && g.adj[v] == [w] && Active(g, s, w) && |st.path| <= cfg.maxLength
    ensures Visit(g, cfg, s, v, 0, st, false) == Turn(g, cfg, s, w, st)
  {
    hide Turn;
  }

  /** On the way along the ring the bound is reached before the way back, and everything stays blocked. */
  lemma {:induction false} RingFails(n: nat, cfg: Config, k: nat, st: State)
    requires 3 <= cfg.maxLength < n && 1 <= k <= cfg.maxLength && |st.path| == k && st.Fits(Detour(n, cfg.maxLength))
    requires |st.detected| < cfg.maxCycles
    ensures var (next, found) := Circuit(Detour(n, cfg.maxLength), cfg, 0, k, st);
      && !found && next.detected == st.detected && st.blocked <= next.blocked
      && (k < cfg.maxLength ==> k in next.blocked)
      && (k + 1 < cfg.maxLength ==> k + 1 in next.blocked)
    decreases cfg.maxLength - k
  {
    if k == cfg.maxLength {
    } else {
      var g := Detour(n, cfg.maxLength);
      var pushed := Push(st, k);
      SingleVisit(g, cfg, 0, k, k + 1, pushed);
      RingFails(n, cfg, k + 1, pushed);
    }
  }

  /** The first round finds nothing: when its second neighbour comes up, it is blocked already. */
  lemma FirstRoundMisses(n: nat, cfg: Config)
    requires 3 <= cfg.maxLength < n && cfg.maxCycles > 0
    ensures Circuit(Detour(n, cfg.maxLength), cfg, 0, 0, Initial(n)).0.detected == []
  {
    var g := Detour(n, cfg.maxLength);
    var pushed := Push(Initial(n), 0);
    RingFails(n, cfg, 1, pushed);
    var next := Circuit(g, cfg, 0, 1, pushed).0;
    hide Circuit;
    assert g.adj[0] == [1, 2];
    assert Turn(g, cfg, 0, 1, pushed) == (next, false);
    assert Turn(g, cfg, 0, 2, next) == (next, false);
    assert Visit(g, cfg, 0, 0, 2, next, false) == (next, false);
    assert Visit(g, cfg, 0, 0, 1, next, false) == (next, false);
    assert Visit(g, cfg, 0, 0, 0, pushed, false) == (next, false);
    FirstCircuit(g, cfg);
  }

  /** The call for the first vertex is the visit of its neighbours. */
  lemma FirstCircuit(g: Graph, cfg: Config)
    requires |g.adj| == g.n > 0 && cfg.maxLength > 0 && cfg.maxCycles > 0
    ensures Circuit(g, cfg, 0, 0, Initial(g.n)).0.detected ==
      Visit(g, cfg, 0, 0, 0, Push(Initial(g.n), 0), false).0.detected
  {
  }

  lemma NoCycleAbove(n: nat, bound: nat, s: nat, c: seq<nat>)
    requires s > 0
    ensures !Closed(Detour(n, bound), s, c)
  {
    assert forall v :: 0 < v && s in DetourNext(n, bound, v) ==> s == v + 1;
  }

  lemma {:induction false} LaterRoundsMiss(n: nat, cfg: Config, s: nat, st: State)
    requires 3 <= cfg.maxLength < n && 0 < s <= n && st.Fits(Detour(n, cfg.maxLength))
    requires st.path == [] && st.detected == []
    ensures Rounds(Detour(n, cfg.maxLength), cfg, s, st).detected == []
    decreases n - s
  {
    hide Circuit, Closed;
    var g := Detour(n, cfg.maxLength);
    if s == n {
    } else {
      DetourIsComponent(n, cfg.maxLength);
      ResetKeeps(g, s, st);
      var cleared := Reset(s, st);
      RoundGrows(g, cfg, s, cleared);
      var next := Circuit(g, cfg, s, s, cleared).0;
      if next.detected != [] {
        assert next.detected[0] in News(cleared, next);
        NoCycleAbove(n, cfg.maxLength, s, next.detected[0]);
      }
      if |next.detected| < cfg.maxCycles {
        LaterRoundsMiss(n, cfg, s + 1, next);
      }
    }
  }

  /** Nothing at all is reported on the detour graph, although one cycle is no longer than the bound. */
  lemma DetourMisses(n: nat, cfg: Config)
    requires 3 <= cfg.maxLength < n
    ensures Enumerate(Detour(n, cfg.maxLength), cfg) == []
  {
    hide Circuit;
    var g := Detour(n, cfg.maxLength);
    assert Reset(0, Initial(n)) == Initial(n) by { ResetOfInitial(n); }
    if cfg.maxCycles > 0 {
      FirstRoundMisses(n, cfg);
      LaterRoundsMiss(n, cfg, 1, Circuit(g, cfg, 0, 0, Initial(n)).0);
    } else {
      RoundsOfNone(g, cfg);
    }
  }

  lemma ResetOfInitial(n: nat)
    ensures Reset(0, Initial(n)) == Initial(n)
  {
  }

  lemma RoundsOfNone(g: Graph, cfg: Config)
    requires |g.adj| == g.n && cfg.maxCycles == 0
    ensures Enumerate(g, cfg) == []
  {
  }
}
