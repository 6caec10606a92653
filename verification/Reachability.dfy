/** Paths and strong connection in the transfer graph. */
module Reachability {
  import opened CycleSearch

  ghost predicate Path(g: Graph, a: nat, b: nat, p: seq<nat>) {
    p != [] && p[0] == a && p[|p| - 1] == b && forall i :: 0 < i < |p| ==> g.Edge(p[i - 1], p[i])
  }

  ghost predicate Reaches(g: Graph, a: nat, b: nat) { exists p :: Path(g, a, b, p) }

  /** The graph is one strongly connected component, as the search expects. */
  ghost predicate OneComponent(g: Graph) {
    forall a: nat, b: nat :: a < g.n && b < g.n ==> Reaches(g, a, b)
  }

  lemma ReachesItself(g: Graph, a: nat)
    ensures Reaches(g, a, a)
  {
    assert Path(g, a, a, [a]);
  }

  lemma ReachesAlong(g: Graph, a: nat, b: nat)
    requires g.Edge(a, b)
    ensures Reaches(g, a, b)
  {
    assert Path(g, a, b, [a, b]);
  }

  lemma ReachesThrough(g: Graph, a: nat, b: nat, c: nat)
    requires Reaches(g, a, b) && Reaches(g, b, c)
    ensures Reaches(g, a, c)
  {
    hide Graph.Edge;
    var p :| Path(g, a, b, p);
    var q :| Path(g, b, c, q);
    var r := p + q[1..];
    forall i | 0 < i < |r|
      ensures g.Edge(r[i - 1], r[i])
    {
      if i >= |p| {
        var j := i - |p| + 1;
        assert q[j] == r[i] && q[j - 1] == r[i - 1];
      }
    }
    assert Path(g, a, c, r);
  }

  /** No edge leaves the set. */
  ghost predicate ClosedUnder(g: Graph, inside: set<nat>) {
    forall v: nat, w: nat :: v in inside && g.Edge(v, w) ==> w in inside
  }

  lemma {:induction false} PathStays(g: Graph, a: nat, b: nat, p: seq<nat>, inside: set<nat>)
    requires Path(g, a, b, p) && a in inside && ClosedUnder(g, inside)
    ensures b in inside
    decreases |p|
  {
    hide Graph.Edge;
    if |p| <= 1 {
    } else {
      assert g.Edge(p[0], p[1]);
      assert Path(g, p[1], b, p[1..]);
      PathStays(g, p[1], b, p[1..], inside);
    }
  }

  lemma ReachesInside(g: Graph, a: nat, b: nat, inside: set<nat>)
    requires Reaches(g, a, b) && a in inside && ClosedUnder(g, inside)
    ensures b in inside
  {
    var p :| Path(g, a, b, p);
    PathStays(g, a, b, p, inside);
  }

  /** A strongly connected component: vertices that reach each other, and all that do. */
  ghost predicate IsComponent(g: Graph, c: set<nat>) {
    && c != {}
    && (forall a: nat :: a in c ==> a < g.n)
    && (forall a: nat, b: nat :: a in c && b in c ==> Reaches(g, a, b))
    && (forall a: nat, b: nat :: a in c && b < g.n && Reaches(g, a, b) && Reaches(g, b, a) ==> b in c)
  }
}
