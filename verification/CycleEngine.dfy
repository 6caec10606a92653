/** The search of `cycles.rs` on its mutable buffers, proved against the functions of `CycleSearch`. */
module CycleEngine {
  import opened CycleSearch

  lemma {:induction false} FlushConcat(st: State, a: seq<nat>, b: seq<nat>)
    requires forall v :: v in st.blocked ==> v < |st.blockers|
    ensures Flush(st, a + b) == Flush(Flush(st, a), b)
    decreases |st.blocked|, |a|
  {
    if a == [] {
      assert a + b == b;
    } else {
      assert (a + b)[1..] == a[1..] + b;
      if a[0] in st.blocked {
        Smaller(st.blocked, a[0]);
        var waiting := st.blockers[a[0]];
        FlushConcat(Release(st, a[0]), waiting + a[1..], b);
        assert waiting + (a[1..] + b) == (waiting + a[1..]) + b;
      } else {
        FlushConcat(st, a[1..], b);
      }
    }
  }

  /** One entry of a waiting list. */
  lemma FlushStep(st: State, work: seq<nat>, i: nat)
    requires (forall v :: v in st.blocked ==> v < |st.blockers|) && i < |work|
    ensures Flush(st, work[i..]) ==
      Flush(if work[i] in st.blocked then Unblock(st, work[i]) else st, work[i + 1..])
  {
    assert work[i..][1..] == work[i + 1..];
    if work[i] in st.blocked {
      FlushConcat(Release(st, work[i]), st.blockers[work[i]], work[i + 1..]);
    }
  }

  class Search {
    const g: Graph
    const cfg: Config
    const blocked: array<bool>
    const blockers: array<seq<nat>>
    var path: seq<nat>
    var detected: seq<seq<nat>>

    ghost predicate Valid() {
      |g.adj| == g.n && blocked.Length == g.n && blockers.Length == g.n
    }

    ghost function BlockedSet(): set<nat>
      requires Valid()
      reads blocked
    {
      set v: nat | v < g.n && blocked[v]
    }

    ghost function View(): State
      requires Valid()
      reads this, blocked, blockers
    {
      State(BlockedSet(), blockers[..], path, detected)
    }

    constructor (g: Graph, cfg: Config)
      requires |g.adj| == g.n
      ensures Valid() && this.g == g && this.cfg == cfg && View() == Initial(g.n)
      ensures fresh(blocked) && fresh(blockers)
    {
      this.g, this.cfg, path, detected := g, cfg, [], [];
      blocked := new bool[g.n](_ => false);
      blockers := new seq<nat>[g.n](_ => []);
    }

    /** `blocked[u] = false` and the draining of its waiting list. */
    method Drain(u: nat) returns (waiting: seq<nat>)
      requires Valid() && u < g.n
      modifies blocked, blockers
      ensures View() == Release(old(View()), u) && waiting == old(View()).blockers[u]
    {
      blocked[u] := false;
      waiting := blockers[u];
      blockers[u] := [];
      assert View().blocked == old(View()).blocked - {u};
    }

    /** `unblock`. */
    method Unblocked(u: nat)
      requires Valid() && u < g.n
      modifies blocked, blockers
      ensures View() == Unblock(old(View()), u)
      decreases |View().blocked - {u}|
    {
      hide Flush;
      ghost var before := View();
      var waiting := Drain(u);
      var i := 0;
      assert waiting[0..] == waiting;
      while i < |waiting|
        invariant i <= |waiting|
        invariant Flush(View(), waiting[i..]) == Unblock(before, u)
        invariant View().blocked <= before.blocked - {u}
        decreases |waiting| - i
      {
        var w := waiting[i];
        FlushStep(View(), waiting, i);
        if w < blocked.Length && blocked[w] {
          assert w in View().blocked;
          Fewer(View().blocked, before.blocked - {u}, w);
          Unblocked(w);
        }
        i := i + 1;
      }
      assert waiting[i..] == [];
      FlushNothing(View());
    }

    lemma Fewer(s: set<nat>, t: set<nat>, w: nat)
      requires s <= t && w in s
      ensures |s - {w}| < |t|
    {
      assert t == (s - {w}) + (t - (s - {w}));
      assert w in t - (s - {w});
    }

    lemma FlushNothing(st: State)
      requires forall v :: v in st.blocked ==> v < |st.blockers|
      ensures Flush(st, []) == st
    {
    }

    /** The loop that lets `v` wait for its successors. */
    method AwaitAll(s: nat, v: nat)
      requires Valid() && v < g.n
      modifies blockers
      ensures View() == Await(g, s, v, 0, old(View()))
    {
      ghost var goal := Await(g, s, v, 0, View());
      for k := 0 to |g.adj[v]|
        invariant View().Fits(g) && Await(g, s, v, k, View()) == goal
      {
        var w := g.adj[v][k];
        ghost var before := View();
        if s <= w < g.n && v !in blockers[w] {
          blockers[w] := blockers[w] + [v];
          assert View() == before.(blockers := before.blockers[w := before.blockers[w] + [v]]);
        }
      }
    }

    /** The reset before a round. */
    method Clear(s: nat)
      requires Valid() && s <= g.n
      modifies blocked, blockers
      ensures View() == Reset(s, old(View()))
    {
      ghost var before := View();
      for i := s to g.n
        invariant forall v :: 0 <= v < g.n ==> blocked[v] == if s <= v < i then false else old(blocked[v])
        invariant forall v :: 0 <= v < g.n ==> blockers[v] == if s <= v < i then [] else old(blockers[v])
      {
        blocked[i] := false;
        blockers[i] := [];
      }
      assert View().blocked == Reset(s, before).blocked;
      assert View().blockers == Reset(s, before).blockers;
    }

    /** The body of the loop of `circuit` for a neighbour that is followed. */
    method Try(w: nat, s: nat) returns (hit: bool)
      requires Valid() && w < g.n && |path| <= cfg.maxLength
      modifies this, blocked, blockers
      ensures (View(), hit) == Turn(g, cfg, s, w, old(View()))
      decreases Room(cfg, View()), 1
    {
      hide Circuit, Turn;
      TurnUnfolds(g, cfg, s, w, View());
      if w == s {
        if |path| >= 2 {
          detected := detected + [path];
        }
        return true;
      }
      assert blocked[w] <==> w in View().blocked;
      if blocked[w] {
        return false;
      }
      hit := Find(w, s);
    }

    /** `circuit`. */
    method Find(v: nat, s: nat) returns (found: bool)
      requires Valid() && v < g.n
      modifies this, blocked, blockers
      ensures (View(), found) == Circuit(g, cfg, s, v, old(View()))
      decreases Room(cfg, View()), 0
    {
      hide Circuit, Visit, Turn, Unblock, Await;
      ghost var before := View();
      if |path| >= cfg.maxLength || |detected| >= cfg.maxCycles {
        CircuitRefused(g, cfg, s, v, before);
        return false;
      }
      path := path + [v];
      blocked[v] := true;
      assert View() == Push(before, v);
      ghost var goal := Visit(g, cfg, s, v, 0, View(), false);
      found := false;
      var k := 0;
      while k < |g.adj[v]|
        invariant View().Fits(g) && k <= |g.adj[v]| && path == before.path + [v]
        invariant Visit(g, cfg, s, v, k, View(), found) == goal
        decreases |g.adj[v]| - k
      {
        var w := g.adj[v][k];
        ghost var now := View();
        VisitUnfolds(g, cfg, s, v, k, now, found);
        k := k + 1;
        if s <= w < g.n {
          var hit := Try(w, s);
          found := found || hit;
          if |detected| >= cfg.maxCycles {
            break;
          }
        }
      }
      VisitOver(g, cfg, s, v, View(), found);
      assert (View(), found) == goal;
      if found {
        Unblocked(v);
      } else {
        AwaitAll(s, v);
      }
      path := path[..|path| - 1];
      CircuitUnfolds(g, cfg, s, v, before);
    }
  }

  /** `enumerate_cycles_in_scc`. */
  method EnumerateCycles(g: Graph, cfg: Config) returns (found: seq<seq<nat>>)
    requires |g.adj| == g.n
    ensures found == Enumerate(g, cfg)
  {
    hide Circuit, Rounds, Reset;
    var search := new Search(g, cfg);
    ghost var goal := Rounds(g, cfg, 0, search.View());
    var s := 0;
    while s < g.n
      invariant search.Valid() && search.g == g && search.cfg == cfg && s <= g.n
      invariant fresh(search) && fresh(search.blocked) && fresh(search.blockers)
      invariant search.View().Fits(g) && Rounds(g, cfg, s, search.View()) == goal
      decreases g.n - s
    {
      RoundsUnfolds(g, cfg, s, search.View());
      search.Clear(s);
      var _ := search.Find(s, s);
      s := s + 1;
      if |search.detected| >= cfg.maxCycles {
        break;
      }
    }
    RoundsOver(g, cfg, search.View());
    return search.detected;
  }
}
