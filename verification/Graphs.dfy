/** Finite directed graphs over names: walks, reachability and acyclicity.
    A vertex without an entry in the map has no outgoing edges. */
module Graphs {

  type Graph = map<string, set<string>>

  predicate Edge(g: Graph, u: string, v: string) {
    u in g && v in g[u]
  }

  /** A walk lists at least one vertex and follows an edge at every step. */
  predicate Walk(g: Graph, p: seq<string>) {
    && |p| > 0
    && forall i :: 0 <= i < |p| - 1 ==> Edge(g, p[i], p[i + 1])
  }

  ghost predicate WalkFrom(g: Graph, roots: set<string>, v: string, p: seq<string>) {
    Walk(g, p) && p[0] in roots && p[|p| - 1] == v
  }

  ghost predicate Reaches(g: Graph, roots: set<string>, v: string) {
    exists p :: WalkFrom(g, roots, v, p)
  }

  /** A closed walk takes at least one step and returns to its first vertex. */
  predicate ClosedWalk(g: Graph, p: seq<string>) {
    Walk(g, p) && |p| >= 2 && p[0] == p[|p| - 1]
  }

  ghost predicate Acyclic(g: Graph) {
    forall p :: !ClosedWalk(g, p)
  }

  ghost predicate ClosedSet(g: Graph, s: set<string>) {
    forall u, v :: u in s && Edge(g, u, v) ==> v in s
  }

  /** Every vertex that can be reached: the roots and the edge targets. */
  function Targets(g: Graph): set<string> {
    set u, v | u in g && v in g[u] :: v
  }

  ghost function ReachableSet(g: Graph, roots: set<string>): set<string> {
    set v | v in roots + Targets(g) && Reaches(g, roots, v)
  }

  lemma {:induction false} RootReached(g: Graph, roots: set<string>, v: string)
    requires v in roots
    ensures Reaches(g, roots, v)
  {
    assert WalkFrom(g, roots, v, [v]);
  }

  lemma {:induction false} EdgeReached(g: Graph, roots: set<string>, u: string, v: string)
    requires Reaches(g, roots, u) && Edge(g, u, v)
    ensures Reaches(g, roots, v)
  {
    var p :| WalkFrom(g, roots, u, p);
    assert WalkFrom(g, roots, v, p + [v]);
  }

  /** A set closed under edges that holds the start of a walk holds the whole walk. */
  lemma {:induction false} WalkStaysInside(g: Graph, s: set<string>, p: seq<string>, i: nat)
    requires ClosedSet(g, s) && Walk(g, p) && p[0] in s && i < |p|
    ensures p[i] in s
  {
    if i > 0 {
      WalkStaysInside(g, s, p, i - 1);
      assert Edge(g, p[i - 1], p[(i - 1) + 1]);
    }
  }

  /** Anything reachable lies in every closed superset of the roots. */
  lemma {:induction false} ReachedIsInside(g: Graph, s: set<string>, roots: set<string>, v: string)
    requires ClosedSet(g, s) && roots <= s && Reaches(g, roots, v)
    ensures v in s
  {
    var p :| WalkFrom(g, roots, v, p);
    WalkStaysInside(g, s, p, |p| - 1);
  }

  lemma {:induction false} ReachableSetMember(g: Graph, roots: set<string>, v: string)
    ensures v in ReachableSet(g, roots) <==> Reaches(g, roots, v)
  {
    if Reaches(g, roots, v) {
      var p :| WalkFrom(g, roots, v, p);
      if |p| > 1 {
        assert Edge(g, p[|p| - 2], p[|p| - 2 + 1]);
      }
    }
  }

  /** The reachable set is the least set that holds the roots and is closed under edges. */
  lemma {:induction false} ReachableSetIsLeast(g: Graph, roots: set<string>)
    ensures roots <= ReachableSet(g, roots)
    ensures ClosedSet(g, ReachableSet(g, roots))
    ensures forall s :: roots <= s && ClosedSet(g, s) ==> ReachableSet(g, roots) <= s
  {
    forall v | v in roots ensures v in ReachableSet(g, roots) {
      RootReached(g, roots, v);
    }
    forall u, v | u in ReachableSet(g, roots) && Edge(g, u, v)
      ensures v in ReachableSet(g, roots)
    {
      EdgeReached(g, roots, u, v);
    }
    forall s, v | roots <= s && ClosedSet(g, s) && v in ReachableSet(g, roots)
      ensures v in s
    {
      ReachedIsInside(g, s, roots, v);
    }
  }

  /** Reachability from a vertex is reachability from its successors, or the vertex itself. */
  lemma {:induction false} ReachesStep(g: Graph, u: string, v: string)
    ensures Reaches(g, {u}, v) <==> v == u || (u in g && Reaches(g, g[u], v))
  {
    if v == u { RootReached(g, {u}, v); }
    if u in g && Reaches(g, g[u], v) {
      var p :| WalkFrom(g, g[u], v, p);
      assert WalkFrom(g, {u}, v, [u] + p);
    }
    if Reaches(g, {u}, v) && v != u {
      var p :| WalkFrom(g, {u}, v, p);
      assert Edge(g, p[0], p[0 + 1]);
      assert WalkFrom(g, g[u], v, p[1..]) by {
        forall i | 0 <= i < |p[1..]| - 1 ensures Edge(g, p[1..][i], p[1..][i + 1]) {
          assert Edge(g, p[i + 1], p[(i + 1) + 1]);
        }
      }
    }
  }

  /** The enumeration is free of repetitions and every edge between vertices of the graph
      that leaves a listed vertex ends at an earlier place. */
  ghost predicate EdgesPointBack(g: Graph, order: seq<string>) {
    && (forall i, j :: 0 <= i < j < |order| ==> order[i] != order[j])
    && forall i, v :: 0 <= i < |order| && Edge(g, order[i], v) && v in g ==> v in order[..i]
  }

  lemma {:induction false} WalkDescends(g: Graph, order: seq<string>, p: seq<string>, a: nat) returns (b: nat)
    requires EdgesPointBack(g, order) && Walk(g, p)
    requires forall v :: v in p ==> v in g
    requires a < |order| && order[a] == p[0]
    ensures b < |order| && order[b] == p[|p| - 1] && b + |p| - 1 <= a
    decreases |p|
  {
    if |p| == 1 {
      b := a;
    } else {
      assert Edge(g, p[0], p[0 + 1]);
      assert Edge(g, order[a], p[1]);
      assert p[1] in p;
      assert p[1] in order[..a];
      var c :| 0 <= c < a && order[c] == p[1];
      assert Walk(g, p[1..]) by {
        forall i | 0 <= i < |p[1..]| - 1 ensures Edge(g, p[1..][i], p[1..][i + 1]) {
          assert Edge(g, p[i + 1], p[(i + 1) + 1]);
        }
      }
      b := WalkDescends(g, order, p[1..], c);
    }
  }

  /** A graph whose vertices can be listed with every edge pointing back is acyclic. */
  lemma {:induction false} PointingBackIsAcyclic(g: Graph, order: seq<string>)
    requires EdgesPointBack(g, order)
    requires forall u :: u in g ==> u in order
    ensures Acyclic(g)
  {
    forall p | ClosedWalk(g, p) ensures false {
      forall i | 0 <= i < |p| ensures p[i] in g {
        var k := if i < |p| - 1 then i else 0;
        assert Edge(g, p[k], p[k + 1]);
      }
      var a :| 0 <= a < |order| && order[a] == p[0];
      var b := WalkDescends(g, order, p, a);
      assert false;
    }
  }

  ghost predicate HasSuccessor(g: Graph, s: set<string>, u: string) {
    exists v :: v in s && Edge(g, u, v)
  }

  ghost predicate NoSink(g: Graph, s: set<string>) {
    forall u :: u in s ==> HasSuccessor(g, s, u)
  }

  lemma {:induction false} SubWalk(g: Graph, p: seq<string>, i: nat)
    requires Walk(g, p) && i < |p|
    ensures Walk(g, p[i..])
  {
    forall k | 0 <= k < |p[i..]| - 1 ensures Edge(g, p[i..][k], p[i..][k + 1]) {
      assert Edge(g, p[i + k], p[i + k + 1]);
    }
  }

  ghost predicate Simple(p: seq<string>, s: set<string>) {
    && (forall v :: v in p ==> v in s)
    && forall i, j :: 0 <= i < j < |p| ==> p[i] != p[j]
  }

  lemma {:induction false} SimpleFits(p: seq<string>, s: set<string>)
    requires Simple(p, s)
    ensures |p| <= |s|
  {
    if p != [] {
      var front, last := p[..|p| - 1], p[|p| - 1];
      assert last !in front;
      assert Simple(front, s - {last});
      SimpleFits(front, s - {last});
    }
  }

  lemma {:induction false} ExtendWalk(g: Graph, p: seq<string>, v: string)
    requires Walk(g, p) && Edge(g, p[|p| - 1], v)
    ensures Walk(g, p + [v])
  {
  }

  lemma {:induction false} CloseWalk(g: Graph, p: seq<string>, v: string)
    requires Walk(g, p) && Edge(g, p[|p| - 1], v) && v in p
    ensures !Acyclic(g)
  {
    var i :| 0 <= i < |p| && p[i] == v;
    SubWalk(g, p, i);
    ExtendWalk(g, p[i..], v);
    assert ClosedWalk(g, p[i..] + [v]);
  }

  /** Extends a walk without repetitions until it closes. */
  lemma {:induction false} WalkCloses(g: Graph, s: set<string>, p: seq<string>)
    requires NoSink(g, s) && Walk(g, p) && Simple(p, s)
    ensures !Acyclic(g)
    decreases |s| - |p|
  {
    SimpleFits(p, s);
    var u := p[|p| - 1];
    assert HasSuccessor(g, s, u) by { assert u in p; }
    var v :| v in s && Edge(g, u, v);
    if v in p {
      CloseWalk(g, p, v);
    } else {
      ExtendWalk(g, p, v);
      assert Simple(p + [v], s);
      SimpleFits(p + [v], s);
      WalkCloses(g, s, p + [v]);
    }
  }

  /** If every vertex of a non-empty finite set has a successor in the set, there is a cycle. */
  lemma {:induction false} NoSinkMeansCycle(g: Graph, s: set<string>)
    requires s != {} && NoSink(g, s)
    ensures !Acyclic(g)
  {
    var u :| u in s;
    assert Walk(g, [u]) && Simple([u], s);
    WalkCloses(g, s, [u]);
  }
}
