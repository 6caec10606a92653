/** Components on which the search reports a walk that visits a vertex twice: a vertex that failed only
    because of the length bound is left on the waiting list of a vertex that is not blocked, and is later
    unblocked while it is on the path. */
module CycleRepeats {
  import opened CycleSearch
  import opened CycleBlocking
  import opened CycleBounds
  import opened CycleFailures
  import opened Reachability

  /** For a length bound `b`: a way `0, 2, 3, ..., b - 2` to a hub, from which `1` leads back to 0, and two
      further vertices `b - 1` and `b` around the hub; any further vertices lead from 0 back to 2. */
  function KnotNext(n: nat, b: nat, v: nat): seq<nat>
    requires b >= 5
  {
    if v == 0 then [1, 2, b - 1] + (if b + 1 < n then [b + 1] else [])
    else if v == 1 then [0]
    else if v == b - 2 then [1, b - 1, b]
    else if v == b - 1 then [1, b - 2]
    else if v == b then [b - 1]
    else if v + 1 < n then [v + 1]
    else [2]
  }

  function Knot(n: nat, b: nat): Graph
    requires b >= 5
  {
    Graph(n, seq(n, v requires 0 <= v < n => KnotNext(n, b, v)))
  }

  function RingAt(n: nat, b: nat, i: nat): nat
    requires 5 <= b < n
  {
    if i == 0 then 0
    else if i < n - b then b + i
    else if i < n - 3 then i - (n - b) + 2
    else if i == n - 3 then b
    else if i == n - 2 then b - 1
    else 1
  }

  lemma RingStep(n: nat, b: nat, i: nat)
    requires 5 <= b < n && 0 < i < n
    ensures RingAt(n, b, i) in KnotNext(n, b, RingAt(n, b, i - 1)) && 0 < RingAt(n, b, i) < n
  {
  }

  lemma RingCovers(n: nat, b: nat, a: nat) returns (i: nat)
    requires 5 <= b < n && a < n
    ensures i < n && RingAt(n, b, i) == a
  {
    i := if a == 0 then 0 else if a == 1 then n - 1 else if a == b - 1 then n - 2 else if a == b then n - 3
         else if a > b then a - b else a - 2 + (n - b);
  }

  lemma KnotIsComponent(n: nat, b: nat)
    requires 5 <= b < n
    ensures Knot(n, b).Valid() && OneComponent(Knot(n, b))
  {
    var g := Knot(n, b);
    var ring := seq(n, i requires 0 <= i < n => RingAt(n, b, i));
    hide RingAt, KnotNext;
    forall i | 0 < i < n
      ensures g.Edge(ring[i - 1], ring[i]) && ring[i] != 0
    {
      RingStep(n, b, i);
      RingSmall(n, b, i - 1);
    }
    RingEnds(n, b);
    forall a: nat | a < n
      ensures a in ring
    {
      var i := RingCovers(n, b, a);
      assert ring[i] == a;
    }
    assert Walk(g, 0, ring);
    RingIsOneComponent(g, ring);
    KnotIsValid(n, b);
  }

  lemma RingSmall(n: nat, b: nat, i: nat)
    requires 5 <= b < n && i < n
    ensures RingAt(n, b, i) < n
  {
  }

  lemma RingEnds(n: nat, b: nat)
    requires 5 <= b < n
    ensures RingAt(n, b, 0) == 0 && RingAt(n, b, n - 1) == 1 && 0 in KnotNext(n, b, 1)
  {
  }

  lemma KnotIsValid(n: nat, b: nat)
    requires 5 <= b < n
    ensures Knot(n, b).Valid()
  {
  }

  // ---------------------------------------------------------------------------------------------
  // Single steps
  // ---------------------------------------------------------------------------------------------

  /** Leaving a vertex nothing waits for only unblocks it. */
  lemma LeaveAlone(g: Graph, s: nat, v: nat, st: State)
    requires st.Fits(g) && v < g.n && st.path != [] && st.blockers[v] == []
    ensures Leave(g, s, v, st, true) == st.(path := st.path[..|st.path| - 1], blocked := st.blocked - {v})
  {
    assert st.blockers[v := []] == st.blockers;
  }

  function Empty(n: nat): seq<seq<nat>> { seq(n, _ => []) }

  /** The knot, its bound and the part of a state that is always needed. */
  ghost predicate InKnot(n: nat, cfg: Config, st: State) {
    5 <= cfg.maxLength < n && st.Fits(Knot(n, cfg.maxLength)) && |st.detected| < cfg.maxCycles
  }

  /** Vertex 1 reports the path and unblocks itself. */
  lemma OneReports(n: nat, cfg: Config, st: State)
    requires InKnot(n, cfg, st) && 1 !in st.blocked && 1 <= |st.path| < cfg.maxLength
    ensures var looped := Push(st, 1).(detected := st.detected + [st.path + [1]]);
      && looped.Fits(Knot(n, cfg.maxLength))
      && Turn(Knot(n, cfg.maxLength), cfg, 0, 1, st) == (Leave(Knot(n, cfg.maxLength), 0, 1, looped, true), true)
  {
    var g := Knot(n, cfg.maxLength);
    var pushed := Push(st, 1);
    var looped := pushed.(detected := st.detected + [st.path + [1]]);
    SingleVisit(g, cfg, 0, 1, 0, pushed);
    CircuitUnfolds(g, cfg, 0, 1, st);
    hide Circuit, Leave;
  }

  lemma OneReportsPlainly(n: nat, cfg: Config, st: State)
    requires InKnot(n, cfg, st) && 1 !in st.blocked && 1 <= |st.path| < cfg.maxLength && st.blockers[1] == []
    ensures Turn(Knot(n, cfg.maxLength), cfg, 0, 1, st) == (st.(detected := st.detected + [st.path + [1]]), true)
  {
    var looped := Push(st, 1).(detected := st.detected + [st.path + [1]]);
    OneReports(n, cfg, st);
    LeaveAlone(Knot(n, cfg.maxLength), 0, 1, looped);
    assert (st.path + [1])[..|st.path|] == st.path;
    assert st.blocked + {1} - {1} == st.blocked;
  }

  /** The waiting lists after the late vertex failed, and after the vertices around the hub are unblocked. */
  function Waiting(n: nat, b: nat): seq<seq<nat>>
    requires 5 <= b < n
  {
    Empty(n)[1 := [b - 1]][b - 2 := [b - 1]]
  }

  function Stale(n: nat, b: nat): seq<seq<nat>>
    requires 5 <= b < n
  {
    Empty(n)[1 := [b - 1]]
  }

  /** On a path one short of the bound the late vertex fails although 1 is free. */
  lemma LateFails(n: nat, cfg: Config, st: State)
    requires InKnot(n, cfg, st) && |st.path| == cfg.maxLength - 1 && st.blockers == Empty(n)
    requires cfg.maxLength - 1 !in st.blocked && cfg.maxLength - 2 in st.blocked
    ensures var b := cfg.maxLength;
      Turn(Knot(n, b), cfg, 0, b - 1, st) ==
      (st.(blocked := st.blocked + {b - 1}, blockers := Waiting(n, b)), false)
  {
    var b := cfg.maxLength;
    var g := Knot(n, b);
    var pushed := Push(st, b - 1);
    FullTurn(g, cfg, 0, 1, pushed);
    FullTurn(g, cfg, 0, b - 2, pushed);
    assert g.adj[b - 1] == [1, b - 2];
    VisitUnfolds(g, cfg, 0, b - 1, 0, pushed, false);
    VisitUnfolds(g, cfg, 0, b - 1, 1, pushed, false);
    VisitOver(g, cfg, 0, b - 1, pushed, false);
    CircuitUnfolds(g, cfg, 0, b - 1, st);
    hide Circuit, Visit, Turn;
    LateWaits(n, b, pushed);
    assert (st.path + [b - 1])[..|st.path|] == st.path;
    TurnUnfolds(g, cfg, 0, b - 1, st);
  }

  /** A vertex joins the waiting list of its next successor, where nothing waits yet. */
  lemma AwaitStep(g: Graph, s: nat, v: nat, k: nat, st: State)
    requires st.Fits(g) && v < g.n && k < |g.adj[v]| && Active(g, s, g.adj[v][k]) && st.blockers[g.adj[v][k]] == []
    ensures Await(g, s, v, k, st) ==
      Await(g, s, v, k + 1, st.(blockers := st.blockers[g.adj[v][k] := [v]]))
  {
    assert st.blockers[g.adj[v][k]] + [v] == [v];
  }

  lemma LateWaits(n: nat, b: nat, st: State)
    requires 5 <= b < n && st.Fits(Knot(n, b)) && st.path != [] && st.blockers == Empty(n)
    ensures Leave(Knot(n, b), 0, b - 1, st, false) ==
      st.(path := st.path[..|st.path| - 1], blockers := Waiting(n, b))
  {
    var g := Knot(n, b);
    var first := st.(blockers := Stale(n, b));
    assert g.adj[b - 1] == [1, b - 2];
    AwaitStep(g, 0, b - 1, 0, st);
    AwaitStep(g, 0, b - 1, 1, first);
  }

  /** So does the last vertex, whose only neighbour is the late one. */
  lemma LastFails(n: nat, cfg: Config, st: State)
    requires InKnot(n, cfg, st) && |st.path| == cfg.maxLength - 2 && st.blockers == Empty(n)
    requires cfg.maxLength !in st.blocked && cfg.maxLength - 1 !in st.blocked && cfg.maxLength - 2 in st.blocked
    ensures var b := cfg.maxLength;
      Turn(Knot(n, b), cfg, 0, b, st) ==
      (st.(blocked := st.blocked + {b, b - 1}, blockers := Waiting(n, b)[b - 1 := [b]]), false)
  {
    var b := cfg.maxLength;
    var g := Knot(n, b);
    var pushed := Push(st, b);
    LateFails(n, cfg, pushed);
    var next := Turn(g, cfg, 0, b - 1, pushed).0;
    assert g.adj[b] == [b - 1];
    SingleVisit(g, cfg, 0, b, b - 1, pushed);
    CircuitUnfolds(g, cfg, 0, b, st);
    TurnUnfolds(g, cfg, 0, b, st);
    hide Circuit, Visit, Turn;
    LastWaits(n, b, next);
    assert (st.path + [b])[..|st.path|] == st.path;
    assert st.blocked + {b} + {b - 1} == st.blocked + {b, b - 1};
  }

  lemma LastWaits(n: nat, b: nat, st: State)
    requires 5 <= b < n && st.Fits(Knot(n, b)) && st.path != [] && st.blockers == Waiting(n, b)
    ensures Leave(Knot(n, b), 0, b, st, false) ==
      st.(path := st.path[..|st.path| - 1], blockers := Waiting(n, b)[b - 1 := [b]])
  {
    var g := Knot(n, b);
    assert g.adj[b] == [b - 1];
    AwaitStep(g, 0, b, 0, st);
  }

  /** The loop over the neighbours of the late vertex when 1 is free: one report, and the hub is blocked. */
  lemma LateVisit(n: nat, cfg: Config, st: State)
    requires InKnot(n, cfg, st) && |st.path| == cfg.maxLength - 1 && 1 !in st.blocked && st.blockers == Empty(n)
    requires cfg.maxLength - 2 in st.blocked && |st.detected| + 1 < cfg.maxCycles
    ensures var b := cfg.maxLength;
      Visit(Knot(n, b), cfg, 0, b - 1, 0, st, false) == (st.(detected := st.detected + [st.path + [1]]), true)
  {
    var b := cfg.maxLength;
    var g := Knot(n, b);
    assert g.adj[b - 1] == [1, b - 2];
    hide KnotNext, Empty;
    OneReportsPlainly(n, cfg, st) by { EmptyAt(n, 1); }
    var next := st.(detected := st.detected + [st.path + [1]]);
    assert Turn(g, cfg, 0, b - 2, next) == (next, false);
    hide Turn;
    VisitUnfolds(g, cfg, 0, b - 1, 0, st, false);
    VisitUnfolds(g, cfg, 0, b - 1, 1, next, true);
    VisitOver(g, cfg, 0, b - 1, next, true);
  }

  /** Reached directly from the hub, the late vertex reports through 1. */
  lemma LateReports(n: nat, cfg: Config, st: State)
    requires InKnot(n, cfg, st) && |st.path| == cfg.maxLength - 2 && st.blockers == Empty(n)
    requires 1 !in st.blocked && cfg.maxLength - 1 !in st.blocked && cfg.maxLength - 2 in st.blocked
    requires |st.detected| + 1 < cfg.maxCycles
    ensures var b := cfg.maxLength;
      Turn(Knot(n, b), cfg, 0, b - 1, st) == (st.(detected := st.detected + [st.path + [b - 1] + [1]]), true)
  {
    var b := cfg.maxLength;
    var g := Knot(n, b);
    var pushed := Push(st, b - 1);
    hide Visit, KnotNext;
    LateVisit(n, cfg, pushed);
    var next := pushed.(detected := st.detected + [st.path + [b - 1] + [1]]);
    EmptyAt(n, b - 1);
    hide Empty;
    CircuitUnfolds(g, cfg, 0, b - 1, st);
    TurnUnfolds(g, cfg, 0, b - 1, st);
    hide Circuit, Turn;
    LeaveAlone(g, 0, b - 1, next);
    assert (st.path + [b - 1])[..|st.path|] == st.path;
    assert st.blocked + {b - 1} - {b - 1} == st.blocked;
  }

  /** Leaving the hub unblocks the late vertex, which stays on the waiting list of 1. */
  lemma HubLeaves(n: nat, b: nat, st: State, blocked: set<nat>)
    requires 5 <= b < n && st.Fits(Knot(n, b)) && st.path != []
    requires blocked !! {b - 2, b - 1, b} && st.blocked == blocked + {b - 2, b - 1, b}
    requires st.blockers == Waiting(n, b)[b - 1 := [b]]
    ensures Leave(Knot(n, b), 0, b - 2, st, true) ==
      st.(path := st.path[..|st.path| - 1], blocked := blocked, blockers := Stale(n, b))
  {
    var hubFree := Release(st, b - 2);
    var lateFree := Release(hubFree, b - 1);
    var lastFree := Release(lateFree, b);
    assert [b] + [b - 1][1..] == [b] && [] + [b][1..] == [];
    assert Flush(hubFree, [b - 1]) == Flush(lateFree, [b]);
    assert Flush(lateFree, [b]) == Flush(lastFree, []);
    assert lastFree.blocked == blocked;
    assert lastFree.blockers == Stale(n, b);
  }

  /** The loop over the neighbours of the hub: two reports, and a failure that blocks two vertices. */
  lemma HubVisit(n: nat, cfg: Config, st: State)
    requires InKnot(n, cfg, st) && |st.path| == cfg.maxLength - 2 && st.blockers == Empty(n)
    requires 1 !in st.blocked && cfg.maxLength - 1 !in st.blocked && cfg.maxLength !in st.blocked
    requires cfg.maxLength - 2 in st.blocked && |st.detected| + 2 < cfg.maxCycles
    ensures var b := cfg.maxLength;
      Visit(Knot(n, b), cfg, 0, b - 2, 0, st, false) ==
      (st.(blocked := st.blocked + {b, b - 1}, blockers := Waiting(n, b)[b - 1 := [b]],
           detected := st.detected + [st.path + [1]] + [st.path + [b - 1] + [1]]), true)
  {
    var b := cfg.maxLength;
    var g := Knot(n, b);
    assert g.adj[b - 2] == [1, b - 1, b];
    hide Turn, KnotNext, Waiting, Empty;
    OneReportsPlainly(n, cfg, st) by { assert st.blockers[1] == [] by { EmptyAt(n, 1); } }
    var one := st.(detected := st.detected + [st.path + [1]]);
    LateReports(n, cfg, one);
    var two := one.(detected := one.detected + [one.path + [b - 1] + [1]]);
    LastFails(n, cfg, two);
    var three := two.(blocked := two.blocked + {b, b - 1}, blockers := Waiting(n, b)[b - 1 := [b]]);
    VisitUnfolds(g, cfg, 0, b - 2, 0, st, false);
    VisitUnfolds(g, cfg, 0, b - 2, 1, one, true);
    VisitUnfolds(g, cfg, 0, b - 2, 2, two, true);
    VisitOver(g, cfg, 0, b - 2, three, true);
  }

  lemma EmptyAt(n: nat, v: nat)
    requires v < n
    ensures |Empty(n)| == n && Empty(n)[v] == []
  {
  }

  /** The hub reports twice and leaves a stale waiting list. */
  lemma HubReports(n: nat, cfg: Config, st: State)
    requires InKnot(n, cfg, st) && |st.path| == cfg.maxLength - 3 && st.blockers == Empty(n)
    requires st.blocked !! {1, cfg.maxLength - 2, cfg.maxLength - 1, cfg.maxLength}
    requires |st.detected| + 2 < cfg.maxCycles
    ensures var b := cfg.maxLength;
      var (next, found) := Turn(Knot(n, b), cfg, 0, b - 2, st);
      && found && |next.detected| == |st.detected| + 2
      && next == st.(blockers := Stale(n, b), detected := next.detected)
  {
    hide Visit, Leave, KnotNext, Waiting, Empty;
    var b := cfg.maxLength;
    var g := Knot(n, b);
    var pushed := Push(st, b - 2);
    HubVisit(n, cfg, pushed);
    var looped := Visit(g, cfg, 0, b - 2, 0, pushed, false).0;
    CircuitUnfolds(g, cfg, 0, b - 2, st);
    TurnUnfolds(g, cfg, 0, b - 2, st);
    hide Turn, Circuit;
    assert looped.blocked == st.blocked + {b - 2, b - 1, b};
    HubLeaves(n, b, looped, st.blocked);
    assert (st.path + [b - 2])[..|st.path|] == st.path;
  }

  /** So does the whole way to the hub. */
  lemma {:induction false} WayReports(n: nat, cfg: Config, k: nat, st: State)
    requires InKnot(n, cfg, st) && 2 <= k <= cfg.maxLength - 2 && |st.path| == k - 1 && st.blockers == Empty(n)
    requires 1 !in st.blocked && forall v: nat :: k <= v <= cfg.maxLength ==> v !in st.blocked
    requires |st.detected| + 2 < cfg.maxCycles
    ensures var b := cfg.maxLength;
      var (next, found) := Turn(Knot(n, b), cfg, 0, k, st);
      && found && |next.detected| == |st.detected| + 2
      && next == st.(blockers := Stale(n, b), detected := next.detected)
    decreases cfg.maxLength - k
  {
    var b := cfg.maxLength;
    if k == b - 2 {
      HubReports(n, cfg, st);
    } else {
      var g := Knot(n, b);
      var pushed := Push(st, k);
      assert g.adj[k] == [k + 1];
      WayReports(n, cfg, k + 1, pushed);
      var next := Turn(g, cfg, 0, k + 1, pushed).0;
      SingleVisit(g, cfg, 0, k, k + 1, pushed);
      CircuitUnfolds(g, cfg, 0, k, st);
      TurnUnfolds(g, cfg, 0, k, st);
      hide Circuit, Visit, Turn;
      LeaveAlone(g, 0, k, next);
      assert (st.path + [k])[..|st.path|] == st.path;
      assert st.blocked + {k} - {k} == st.blocked;
    }
  }

  // ---------------------------------------------------------------------------------------------
  // The repetition
  // ---------------------------------------------------------------------------------------------

  /** With the stale list, 1 unblocks the late vertex while it is on the path. */
  lemma OneUnblocksLate(n: nat, cfg: Config, st: State)
    requires InKnot(n, cfg, st) && 1 !in st.blocked && 1 <= |st.path| < cfg.maxLength
    requires st.blockers == Stale(n, cfg.maxLength) && cfg.maxLength - 1 in st.blocked
    ensures var b := cfg.maxLength;
      Turn(Knot(n, b), cfg, 0, 1, st) ==
      (st.(blocked := st.blocked - {b - 1}, blockers := Empty(n), detected := st.detected + [st.path + [1]]), true)
  {
    var b := cfg.maxLength;
    var looped := Push(st, 1).(detected := st.detected + [st.path + [1]]);
    OneReports(n, cfg, st);
    hide Turn;
    var oneFree := Release(looped, 1);
    var lateFree := Release(oneFree, b - 1);
    assert [] + [b - 1][1..] == [];
    assert Flush(oneFree, [b - 1]) == Flush(lateFree, []);
    assert (st.path + [1])[..|st.path|] == st.path;
    assert lateFree.blocked == st.blocked - {b - 1};
    assert lateFree.blockers == Empty(n);
  }

  /** Reported once, reported for ever. */
  lemma VisitKeepsReport(
    g: Graph, cfg: Config, s: nat, v: nat, k: nat, st: State, found: bool, next: State, hit: bool, c: seq<nat>)
    requires g.Valid() && st.Fits(g) && v < g.n && k < |g.adj[v]| && |st.path| <= cfg.maxLength &&
      Active(g, s, g.adj[v][k])
    requires Walk(g, s, st.path) && st.path[|st.path| - 1] == v
    requires Turn(g, cfg, s, g.adj[v][k], st) == (next, hit) && c in next.detected
    ensures c in Visit(g, cfg, s, v, k, st, found).0.detected
  {
    hide Walk;
    VisitUnfolds(g, cfg, s, v, k, st, found);
    if |next.detected| < cfg.maxCycles {
      VisitGrows(g, cfg, s, v, k + 1, next, found || hit);
    }
  }

  lemma CircuitKeepsReport(g: Graph, cfg: Config, s: nat, v: nat, st: State, c: seq<nat>)
    requires st.Fits(g) && v < g.n && !Refused(cfg, st) && v != s && v !in st.blocked
    requires c in Visit(g, cfg, s, v, 0, Push(st, v), false).0.detected
    ensures c in Turn(g, cfg, s, v, st).0.detected
  {
    var (looped, found) := Visit(g, cfg, s, v, 0, Push(st, v), false);
    CircuitUnfolds(g, cfg, s, v, st);
  }

  function Repetition(b: nat): seq<nat>
    requires b >= 5
  {
    [0, b - 1, b - 2, b - 1, 1]
  }

  lemma LateVisitsAgain(n: nat, cfg: Config, st: State)
    requires InKnot(n, cfg, st) && st.path == [0, cfg.maxLength - 1, cfg.maxLength - 2, cfg.maxLength - 1]
    requires st.blockers == Empty(n) && 1 !in st.blocked
    ensures
      Repetition(cfg.maxLength) in Visit(Knot(n, cfg.maxLength), cfg, 0, cfg.maxLength - 1, 0, st, false).0.detected
  {
    hide Walk, Turn, Visit;
    var b := cfg.maxLength;
    var g := Knot(n, b);
    KnotIsValid(n, b);
    OneReportsPlainly(n, cfg, st);
    var next := st.(detected := st.detected + [st.path + [1]]);
    assert st.path + [1] == Repetition(b);
    assert next.detected[|st.detected|] == Repetition(b);
    assert g.adj[b - 1] == [1, b - 2];
    KnotWalks(n, b);
    VisitKeepsReport(g, cfg, 0, b - 1, 0, st, false, next, true, Repetition(b));
  }

  /** The late vertex is entered a second time and reports through 1. */
  lemma LateReportsAgain(n: nat, cfg: Config, st: State)
    requires InKnot(n, cfg, st) && st.path == [0, cfg.maxLength - 1, cfg.maxLength - 2] && st.blockers == Empty(n)
    requires 1 !in st.blocked && cfg.maxLength - 1 !in st.blocked
    ensures Repetition(cfg.maxLength) in Turn(Knot(n, cfg.maxLength), cfg, 0, cfg.maxLength - 1, st).0.detected
  {
    hide Walk, Turn, Visit;
    var b := cfg.maxLength;
    var pushed := Push(st, b - 1);
    assert pushed.path == [0, b - 1, b - 2, b - 1];
    LateVisitsAgain(n, cfg, pushed);
    CircuitKeepsReport(Knot(n, b), cfg, 0, b - 1, st, Repetition(b));
  }

  lemma KnotWalks(n: nat, b: nat)
    requires 5 <= b < n
    ensures Walk(Knot(n, b), 0, [0, b - 1, b - 2, b - 1])
    ensures Walk(Knot(n, b), 0, [0, b - 1, b - 2])
    ensures Walk(Knot(n, b), 0, [0, b - 1])
    ensures Walk(Knot(n, b), 0, [0])
  {
    var g := Knot(n, b);
    assert g.Edge(0, b - 1) && g.Edge(b - 1, b - 2) && g.Edge(b - 2, b - 1);
  }

  lemma HubRepeats(n: nat, cfg: Config, st: State)
    requires InKnot(n, cfg, st) && st.path == [0, cfg.maxLength - 1] && st.blockers == Empty(n)
    requires st.blocked == {0} && |st.detected| + 1 < cfg.maxCycles
    ensures Repetition(cfg.maxLength) in Turn(Knot(n, cfg.maxLength), cfg, 0, cfg.maxLength - 2, st).0.detected
  {
    var b := cfg.maxLength;
    var g := Knot(n, b);
    hide Walk;
    KnotIsValid(n, b);
    var pushed := Push(st, b - 2);
    assert pushed.path == [0, b - 1, b - 2];
    OneReportsPlainly(n, cfg, pushed);
    var next := pushed.(detected := pushed.detected + [pushed.path + [1]]);
    assert g.adj[b - 2] == [1, b - 1, b];
    LateReportsAgain(n, cfg, next);
    KnotWalks(n, b);
    hide Turn;
    VisitUnfolds(g, cfg, 0, b - 2, 0, pushed, false);
    var (last, hit) := Turn(g, cfg, 0, b - 1, next);
    VisitKeepsReport(g, cfg, 0, b - 2, 1, next, true, last, hit, Repetition(b));
    CircuitKeepsReport(g, cfg, 0, b - 2, st, Repetition(b));
  }

  lemma LateRepeats(n: nat, cfg: Config, st: State)
    requires InKnot(n, cfg, st) && st.path == [0] && st.blockers == Stale(n, cfg.maxLength)
    requires st.blocked == {0} && |st.detected| + 2 < cfg.maxCycles
    ensures Repetition(cfg.maxLength) in Turn(Knot(n, cfg.maxLength), cfg, 0, cfg.maxLength - 1, st).0.detected
  {
    var b := cfg.maxLength;
    var g := Knot(n, b);
    KnotIsValid(n, b);
    var pushed := Push(st, b - 1);
    assert pushed.path == [0, b - 1];
    OneUnblocksLate(n, cfg, pushed);
    var next := Turn(g, cfg, 0, 1, pushed).0;
    assert next.blocked == {0};
    assert g.adj[b - 1] == [1, b - 2];
    HubRepeats(n, cfg, next);
    KnotWalks(n, b);
    hide Turn, Walk, Visit, Circuit, Repetition, Empty, Stale, Waiting;
    VisitUnfolds(g, cfg, 0, b - 1, 0, pushed, false);
    var (last, hit) := Turn(g, cfg, 0, b - 2, next);
    VisitKeepsReport(g, cfg, 0, b - 1, 1, next, true, last, hit, Repetition(b));
    CircuitKeepsReport(g, cfg, 0, b - 1, st, Repetition(b));
  }

  lemma FirstNeighbours(n: nat, b: nat)
    requires 5 <= b < n
    ensures |Knot(n, b).adj[0]| >= 3
    ensures Knot(n, b).adj[0][0] == 1 && Knot(n, b).adj[0][1] == 2 && Knot(n, b).adj[0][2] == b - 1
  {
  }

  /** The loop over the neighbours of 0, from the late vertex on. */
  lemma LastRepeats(n: nat, cfg: Config, st: State)
    requires InKnot(n, cfg, st) && st.path == [0] && st.blockers == Stale(n, cfg.maxLength)
    requires st.blocked == {0} && |st.detected| + 2 < cfg.maxCycles && |Knot(n, cfg.maxLength).adj[0]| >= 3
    ensures Repetition(cfg.maxLength) in Visit(Knot(n, cfg.maxLength), cfg, 0, 0, 2, st, true).0.detected
  {
    var b := cfg.maxLength;
    var g := Knot(n, b);
    FirstNeighbours(n, b);
    KnotIsValid(n, b);
    KnotWalks(n, b);
    hide Turn, Walk, KnotNext, Visit, Circuit, Repetition, Empty, Stale, Waiting;
    LateRepeats(n, cfg, st);
    var (next, hit) := Turn(g, cfg, 0, b - 1, st);
    VisitKeepsReport(g, cfg, 0, 0, 2, st, true, next, hit, Repetition(b));
  }

  /** The loop over the neighbours of 0, from the one that leads to the hub on. */
  lemma RestRepeats(n: nat, cfg: Config, st: State)
    requires InKnot(n, cfg, st) && st.path == [0] && st.blockers == Empty(n) && st.blocked == {0}
    requires |st.detected| + 4 < cfg.maxCycles
    ensures Repetition(cfg.maxLength) in Visit(Knot(n, cfg.maxLength), cfg, 0, 0, 1, st, true).0.detected
  {
    var b := cfg.maxLength;
    var g := Knot(n, b);
    FirstNeighbours(n, b);
    hide Turn, Walk, KnotNext, Visit, Circuit, Repetition, Empty, Stale, Waiting;
    WayReports(n, cfg, 2, st);
    LastRepeats(n, cfg, Turn(g, cfg, 0, 2, st).0);
    VisitUnfolds(g, cfg, 0, 0, 1, st, true);
  }

  lemma FirstRoundRepeats(n: nat, cfg: Config)
    requires 5 <= cfg.maxLength < n && cfg.maxCycles >= 6
    ensures Repetition(cfg.maxLength) in Circuit(Knot(n, cfg.maxLength), cfg, 0, 0, Initial(n)).0.detected
  {
    var b := cfg.maxLength;
    var g := Knot(n, b);
    FirstNeighbours(n, b);
    hide Turn, Circuit, KnotNext, Repetition;
    var pushed := Push(Initial(n), 0);
    assert pushed.path == [0] && pushed.blockers == Empty(n) && pushed.blocked == {0};
    OneReportsPlainly(n, cfg, pushed);
    var one := pushed.(detected := pushed.detected + [pushed.path + [1]]);
    VisitUnfolds(g, cfg, 0, 0, 0, pushed, false);
    RestRepeats(n, cfg, one);
    FirstCircuit(g, cfg);
  }

  /** The knot makes the search report a walk that visits a vertex twice. */
  lemma KnotRepeats(n: nat, cfg: Config)
    requires 5 <= cfg.maxLength < n && cfg.maxCycles >= 6
    ensures Repetition(cfg.maxLength) in Enumerate(Knot(n, cfg.maxLength), cfg)
    ensures !Distinct(Repetition(cfg.maxLength))
  {
    hide Circuit;
    var g := Knot(n, cfg.maxLength);
    KnotIsValid(n, cfg.maxLength);
    ResetOfInitial(n);
    FirstRoundRepeats(n, cfg);
    RoundReports(g, cfg, 0, Initial(n));
    var next := Circuit(g, cfg, 0, 0, Initial(n)).0;
    if |next.detected| < cfg.maxCycles {
      RoundsReport(g, cfg, 1, next);
    }
    assert Repetition(cfg.maxLength)[1] == Repetition(cfg.maxLength)[3];
  }

  // ---------------------------------------------------------------------------------------------
  // Exactly which bounds are safe
  // ---------------------------------------------------------------------------------------------

  /** Every elementary cycle within the bound is reported, on every component of `n` vertices and for every
      cap that is not reached, exactly if the bound is at most two or at least `n`. */
  lemma CompleteIff(n: nat, bound: nat)
    ensures (bound <= 2 || bound >= n) <==>
      forall g: Graph, cap: nat :: g.Valid() && g.n == n && OneComponent(g) ==> Complete(g, Config(bound, cap))
  {
    hide Enumerate, Elementary, OneComponent;
    if bound <= 2 || bound >= n {
      forall g: Graph, cap: nat | g.Valid() && g.n == n && OneComponent(g)
        ensures Complete(g, Config(bound, cap))
      {
        if bound <= 2 {
          AtMostTwoIsComplete(g, Config(bound, cap));
        } else {
          EnumerateIsExact(g, Config(bound, cap));
        }
      }
    } else {
      var g, c := Detour(n, bound), ShortCut(bound);
      DetourIsComponent(n, bound);
      ShortCutIsElementary(n, bound);
      DetourMisses(n, Config(bound, 1));
      assert c[0] == 0;
      assert !Complete(g, Config(bound, 1));
    }
  }

  /** Only elementary cycles are reported, on every component of `n` vertices and for every cap, exactly if
      the bound is at most four or at least `n`. */
  lemma ElementaryIff(n: nat, bound: nat)
    ensures (bound <= 4 || bound >= n) <==>
      forall g: Graph, cap: nat ::
        g.Valid() && g.n == n && OneComponent(g) ==> AllElementary(Enumerate(g, Config(bound, cap)))
  {
    hide Enumerate, OneComponent;
    if bound <= 4 || bound >= n {
      forall g: Graph, cap: nat | g.Valid() && g.n == n && OneComponent(g)
        ensures AllElementary(Enumerate(g, Config(bound, cap)))
      {
        if bound <= 4 {
          LastVertexIsNew(g, Config(bound, cap));
        } else {
          EnumerateIsExact(g, Config(bound, cap));
        }
      }
    } else {
      KnotIsComponent(n, bound);
      KnotRepeats(n, Config(bound, 6));
      assert !AllElementary(Enumerate(Knot(n, bound), Config(bound, 6)));
    }
  }
}
