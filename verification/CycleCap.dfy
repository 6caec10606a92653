/** What the cap on the number of reported cycles does: it cuts the list of all cycles short and changes
    nothing before the cut. */
module CycleCap {
  import opened CycleSearch
  import opened CycleBlocking
  import opened Naturals

  // ---------------------------------------------------------------------------------------------
  // Reported cycles stay reported
  // ---------------------------------------------------------------------------------------------

  lemma {:induction false} CircuitExtends(g: Graph, cfg: Config, s: nat, v: nat, st: State)
    requires st.Fits(g) && v < g.n
    ensures st.detected <= Circuit(g, cfg, s, v, st).0.detected
    decreases Room(cfg, st), 0, 0
  {
    if Refused(cfg, st) {
      CircuitRefused(g, cfg, s, v, st);
    } else {
      CircuitUnfolds(g, cfg, s, v, st);
      hide Circuit, Visit;
      VisitExtends(g, cfg, s, v, 0, Push(st, v), false);
    }
  }

  lemma {:induction false} TurnExtends(g: Graph, cfg: Config, s: nat, w: nat, st: State)
    requires st.Fits(g) && w < g.n && |st.path| <= cfg.maxLength
    ensures st.detected <= Turn(g, cfg, s, w, st).0.detected
    decreases Room(cfg, st), 1, 0
  {
    TurnUnfolds(g, cfg, s, w, st);
    hide Circuit, Turn;
    if w != s && w !in st.blocked {
      CircuitExtends(g, cfg, s, w, st);
    }
  }

  lemma {:induction false} VisitExtends(g: Graph, cfg: Config, s: nat, v: nat, k: nat, st: State, found: bool)
    requires st.Fits(g) && v < g.n && k <= |g.adj[v]| && |st.path| <= cfg.maxLength
    ensures st.detected <= Visit(g, cfg, s, v, k, st, found).0.detected
    decreases Room(cfg, st), 2, |g.adj[v]| - k
  {
    hide Turn, Visit;
    if k == |g.adj[v]| {
      VisitOver(g, cfg, s, v, st, found);
    } else {
      VisitUnfolds(g, cfg, s, v, k, st, found);
      var w := g.adj[v][k];
      if !Active(g, s, w) {
        VisitExtends(g, cfg, s, v, k + 1, st, found);
      } else {
        TurnExtends(g, cfg, s, w, st);
        var (next, hit) := Turn(g, cfg, s, w, st);
        if |next.detected| < cfg.maxCycles {
          VisitExtends(g, cfg, s, v, k + 1, next, found || hit);
        }
      }
    }
  }

  // ---------------------------------------------------------------------------------------------
  // Two caps
  // ---------------------------------------------------------------------------------------------

  /** A larger cap. */
  ghost predicate Wider(cfg: Config, wide: Config) {
    cfg.maxLength == wide.maxLength && cfg.maxCycles <= wide.maxCycles
  }

  /** The two searches agree until the smaller cap is reached, and then on what it lets through. */
  ghost predicate Agree(cfg: Config, a: State, found: bool, b: State, hit: bool) {
    if |b.detected| < cfg.maxCycles then a == b && found == hit
    else |a.detected| == cfg.maxCycles && a.detected == b.detected[..cfg.maxCycles]
  }

  lemma {:induction false} CircuitAgrees(g: Graph, cfg: Config, wide: Config, s: nat, v: nat, st: State)
    requires st.Fits(g) && v < g.n && Wider(cfg, wide) && |st.detected| < cfg.maxCycles
    ensures
      var (a, found) := Circuit(g, cfg, s, v, st);
      var (b, hit) := Circuit(g, wide, s, v, st);
      Agree(cfg, a, found, b, hit)
    decreases Room(cfg, st), 0, 0
  {
    if Refused(cfg, st) {
      CircuitRefused(g, cfg, s, v, st);
      CircuitRefused(g, wide, s, v, st);
    } else {
      CircuitUnfolds(g, cfg, s, v, st);
      CircuitUnfolds(g, wide, s, v, st);
      hide Circuit, Visit;
      VisitAgrees(g, cfg, wide, s, v, 0, Push(st, v), false);
    }
  }

  lemma {:induction false} TurnAgrees(g: Graph, cfg: Config, wide: Config, s: nat, w: nat, st: State)
    requires st.Fits(g) && w < g.n && |st.path| <= cfg.maxLength && Wider(cfg, wide) && |st.detected| < cfg.maxCycles
    ensures
      var (a, found) := Turn(g, cfg, s, w, st);
      var (b, hit) := Turn(g, wide, s, w, st);
      Agree(cfg, a, found, b, hit)
    decreases Room(cfg, st), 1, 0
  {
    TurnUnfolds(g, cfg, s, w, st);
    TurnUnfolds(g, wide, s, w, st);
    hide Circuit, Turn;
    if w != s && w !in st.blocked {
      CircuitAgrees(g, cfg, wide, s, w, st);
    }
  }

  lemma {:induction false} VisitAgrees(
    g: Graph, cfg: Config, wide: Config, s: nat, v: nat, k: nat, st: State, found: bool)
    requires st.Fits(g) && v < g.n && k <= |g.adj[v]| && |st.path| <= cfg.maxLength
    requires Wider(cfg, wide) && |st.detected| < cfg.maxCycles
    ensures
      var (a, f) := Visit(g, cfg, s, v, k, st, found);
      var (b, h) := Visit(g, wide, s, v, k, st, found);
      Agree(cfg, a, f, b, h)
    decreases Room(cfg, st), 2, |g.adj[v]| - k
  {
    hide Turn, Visit;
    if k == |g.adj[v]| {
      VisitOver(g, cfg, s, v, st, found);
      VisitOver(g, wide, s, v, st, found);
    } else {
      VisitUnfolds(g, cfg, s, v, k, st, found);
      VisitUnfolds(g, wide, s, v, k, st, found);
      var w := g.adj[v][k];
      if !Active(g, s, w) {
        VisitAgrees(g, cfg, wide, s, v, k + 1, st, found);
      } else {
        TurnAgrees(g, cfg, wide, s, w, st);
        var (b, hit) := Turn(g, wide, s, w, st);
        if |b.detected| < cfg.maxCycles {
          VisitAgrees(g, cfg, wide, s, v, k + 1, b, found || hit);
        } else if |b.detected| < wide.maxCycles {
          VisitExtends(g, wide, s, v, k + 1, b, found || hit);
        }
      }
    }
  }

  lemma {:induction false} RoundsExtend(g: Graph, cfg: Config, s: nat, st: State)
    requires st.Fits(g) && s <= g.n
    ensures st.detected <= Rounds(g, cfg, s, st).detected
    decreases g.n - s
  {
    hide Circuit, Rounds, Reset;
    if s == g.n {
      RoundsOver(g, cfg, st);
    } else {
      RoundsUnfolds(g, cfg, s, st);
      ResetKeeps(g, s, st);
      CircuitExtends(g, cfg, s, s, Reset(s, st));
      var next := Circuit(g, cfg, s, s, Reset(s, st)).0;
      if |next.detected| < cfg.maxCycles {
        RoundsExtend(g, cfg, s + 1, next);
      }
    }
  }

  lemma {:induction false} RoundsAgree(g: Graph, cfg: Config, wide: Config, s: nat, st: State)
    requires st.Fits(g) && s <= g.n && Wider(cfg, wide) && |st.detected| < cfg.maxCycles
    ensures
      var all := Rounds(g, wide, s, st).detected;
      Rounds(g, cfg, s, st).detected == all[..Min(cfg.maxCycles, |all|)]
    decreases g.n - s
  {
    hide Circuit, Rounds, Reset;
    if s == g.n {
      RoundsOver(g, cfg, st);
      RoundsOver(g, wide, st);
      assert st.detected[..|st.detected|] == st.detected;
    } else {
      RoundsUnfolds(g, cfg, s, st);
      RoundsUnfolds(g, wide, s, st);
      ResetKeeps(g, s, st);
      CircuitAgrees(g, cfg, wide, s, s, Reset(s, st));
      var next := Circuit(g, wide, s, s, Reset(s, st)).0;
      if |next.detected| < cfg.maxCycles {
        RoundsAgree(g, cfg, wide, s + 1, next);
      } else if |next.detected| < wide.maxCycles {
        RoundsExtend(g, wide, s + 1, next);
      }
    }
  }

  lemma {:induction false} RoundsOfNone(g: Graph, cfg: Config, s: nat, st: State)
    requires st.Fits(g) && s <= g.n && cfg.maxCycles == 0
    ensures Rounds(g, cfg, s, st).detected == st.detected
  {
  }

  /** The search with a smaller cap reports the beginning of what it reports with a larger one. */
  lemma CapCuts(g: Graph, cfg: Config, wide: Config)
    requires |g.adj| == g.n && Wider(cfg, wide)
    ensures Enumerate(g, cfg) == Enumerate(g, wide)[..Min(cfg.maxCycles, |Enumerate(g, wide)|)]
  {
    hide Rounds;
    if cfg.maxCycles == 0 {
      RoundsOfNone(g, cfg, 0, Initial(g.n));
    } else {
      RoundsAgree(g, cfg, wide, 0, Initial(g.n));
    }
  }

  // ---------------------------------------------------------------------------------------------
  // Without a cap
  // ---------------------------------------------------------------------------------------------

  /** The sequences of at most `length` vertices. */
  function Sequences(n: nat, length: nat): set<seq<nat>> {
    if length == 0 then {[]}
    else
      var shorter := Sequences(n, length - 1);
      shorter + set p, v | p in shorter && v in Below(n) :: p + [v]
  }

  lemma LongerSequences(n: nat, length: nat, c: seq<nat>)
    requires length > 0 && c in Sequences(n, length - 1)
    ensures c in Sequences(n, length)
    ensures forall v: nat | v < n :: c + [v] in Sequences(n, length)
  {
    forall v: nat | v < n
      ensures c + [v] in Sequences(n, length)
    {
      assert v in Below(n);
    }
  }

  lemma NoSequence(n: nat)
    ensures [] in Sequences(n, 0)
  {
  }

  lemma {:induction false} SequencesHold(n: nat, length: nat, c: seq<nat>)
    requires |c| <= length && forall i :: 0 <= i < |c| ==> c[i] < n
    ensures c in Sequences(n, length)
    decreases length
  {
    hide Sequences;
    if length == 0 {
      NoSequence(n);
    } else if c == [] {
      SequencesHold(n, length - 1, c);
      LongerSequences(n, length, c);
    } else {
      var front, last := c[..|c| - 1], c[|c| - 1];
      SequencesHold(n, length - 1, front);
      LongerSequences(n, length, front);
      assert c == front + [last];
    }
  }

  /** A cap that no search of this length can reach. */
  function NoCap(g: Graph, length: nat): Config { Config(length, |Sequences(g.n, length)| + 1) }

  /** All cycles that the search reports if it is not cut short. */
  function Uncapped(g: Graph, length: nat): seq<seq<nat>>
    requires |g.adj| == g.n
  {
    Enumerate(g, NoCap(g, length))
  }

  lemma CountIsBounded(g: Graph, cfg: Config)
    requires g.Valid()
    ensures |Enumerate(g, cfg)| <= |Sequences(g.n, cfg.maxLength)|
  {
    hide Enumerate, Sequences;
    EnumerateReports(g, cfg);
    var found := Enumerate(g, cfg);
    forall c | c in found
      ensures c in Sequences(g.n, cfg.maxLength)
    {
      assert Reported(g, cfg, c);
      SequencesHold(g.n, cfg.maxLength, c);
    }
    DistinctBound(found, Sequences(g.n, cfg.maxLength));
  }

  /** Every cap, for any length bound: the beginning of the same list, of at most that many cycles. */
  lemma EveryCapCuts(g: Graph, cfg: Config)
    requires g.Valid()
    ensures
      var all := Uncapped(g, cfg.maxLength);
      && Enumerate(g, cfg) == all[..Min(cfg.maxCycles, |all|)]
      && |Enumerate(g, cfg)| == Min(cfg.maxCycles, |all|)
  {
    hide Enumerate, Sequences;
    var none := NoCap(g, cfg.maxLength);
    CountIsBounded(g, none);
    CountIsBounded(g, cfg);
    if cfg.maxCycles <= none.maxCycles {
      CapCuts(g, cfg, none);
    } else {
      CapCuts(g, none, cfg);
      assert Enumerate(g, none) == Enumerate(g, cfg);
    }
  }

  /** The elementary cycles of a graph, each from its smallest vertex. */
  ghost function ElementaryCycles(g: Graph): (cycles: set<seq<nat>>)
    ensures forall c :: c in cycles <==> c != [] && Elementary(g, c[0], c)
  {
    var cycles := set c | c in Sequences(g.n, g.n) && c != [] && Elementary(g, c[0], c);
    assert forall c :: c != [] && Elementary(g, c[0], c) ==> c in cycles by {
      forall c | c != [] && Elementary(g, c[0], c)
        ensures c in cycles
      {
        DistinctBound(c, Below(g.n));
        SequencesHold(g.n, g.n, c);
      }
    }
    cycles
  }

  lemma {:induction false} DistinctSize<T>(items: seq<T>)
    requires Distinct(items)
    ensures |set x | x in items| == |items|
  {
    if items == [] {
      assert (set x | x in items) == {};
    } else {
      var front, last := items[..|items| - 1], items[|items| - 1];
      DistinctSize(front);
      assert items == front + [last];
      assert (set x | x in items) == (set x | x in front) + {last};
    }
  }

  /** When the length bound is at least the size of the component, the list that every cap cuts holds exactly
      the elementary cycles, each once. */
  lemma UncappedIsExact(g: Graph, length: nat)
    requires g.Valid() && length >= g.n
    ensures forall c :: c in Uncapped(g, length) <==> c in ElementaryCycles(g)
    ensures Distinct(Uncapped(g, length)) && |Uncapped(g, length)| == |ElementaryCycles(g)|
  {
    hide Enumerate, Sequences, Elementary;
    var all := Uncapped(g, length);
    CountIsBounded(g, NoCap(g, length));
    EnumerateIsExact(g, NoCap(g, length));
    EnumerateReports(g, NoCap(g, length));
    DistinctSize(all);
    assert (set c | c in all) == ElementaryCycles(g);
  }

  lemma TakenIsAll<T>(all: seq<T>, k: nat)
    requires Distinct(all) && k <= |all|
    ensures (forall x :: x in all ==> x in all[..k]) <==> k == |all|
  {
    if k == |all| {
      assert all[..k] == all;
    } else {
      assert all[k] in all && all[k] !in all[..k];
    }
  }

  /** Then the number of reported cycles is that of the elementary ones, up to the cap; all reported cycles are
      elementary; and none is missed exactly if the cap is not below their number. */
  lemma EnumerateCounts(g: Graph, cfg: Config)
    requires g.Valid() && cfg.maxLength >= g.n
    ensures |Enumerate(g, cfg)| == Min(cfg.maxCycles, |ElementaryCycles(g)|)
    ensures forall c :: c in Enumerate(g, cfg) ==> c in ElementaryCycles(g)
    ensures (forall c :: c in ElementaryCycles(g) ==> c in Enumerate(g, cfg)) <==>
      |ElementaryCycles(g)| <= cfg.maxCycles
  {
    hide Enumerate, Sequences, Elementary, ElementaryCycles;
    UncappedIsExact(g, cfg.maxLength);
    EveryCapCuts(g, cfg);
    var all := Uncapped(g, cfg.maxLength);
    TakenIsAll(all, Min(cfg.maxCycles, |all|));
  }
}
