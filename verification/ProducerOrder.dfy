/** Ordering evidence producers so that each follows everything it depends on. */
module ProducerOrder {
  import opened Wrappers
  import opened Graphs
  import opened Sorting

  datatype Producer = Producer(id: string, dependsOn: seq<string>)

  /** Everything `x` depends on is among the ids. */
  predicate Ready(x: Producer, done: set<string>) {
    forall d :: d in x.dependsOn ==> d in done
  }

  ghost function Ids(xs: seq<Producer>): set<string> {
    set i | 0 <= i < |xs| :: xs[i].id
  }

  /** Every producer comes after everything it depends on. */
  ghost predicate InOrder(xs: seq<Producer>) {
    forall i :: 0 <= i < |xs| ==> Ready(xs[i], Ids(xs[..i]))
  }

  ghost predicate IsOrder(xs: seq<Producer>, catalog: seq<Producer>) {
    multiset(xs) == multiset(catalog) && InOrder(xs)
  }

  lemma {:induction false} InOrderAppend(xs: seq<Producer>, x: Producer)
    requires InOrder(xs) && Ready(x, Ids(xs))
    ensures InOrder(xs + [x])
  {
    forall i | 0 <= i <= |xs| ensures Ready((xs + [x])[i], Ids((xs + [x])[..i])) {
      assert (xs + [x])[..i] == xs[..i];
      assert xs[..|xs|] == xs;
    }
  }

  lemma {:induction false} IdsAppend(xs: seq<Producer>, x: Producer)
    ensures Ids(xs + [x]) == Ids(xs) + {x.id}
  {
    forall d | d in Ids(xs) + {x.id} ensures d in Ids(xs + [x]) {
      if d in Ids(xs) {
        var i :| 0 <= i < |xs| && xs[i].id == d;
        assert (xs + [x])[i].id == d;
      } else {
        assert (xs + [x])[|xs|].id == d;
      }
    }
  }

  lemma {:induction false} InIds(xs: seq<Producer>, x: Producer)
    ensures x in xs ==> x.id in Ids(xs)
  {
    if x in xs {
      var i :| 0 <= i < |xs| && xs[i] == x;
      assert xs[i].id == x.id;
    }
  }

  lemma {:induction false} IdsOfBag(xs: seq<Producer>, ys: seq<Producer>)
    requires multiset(xs) <= multiset(ys)
    ensures Ids(xs) <= Ids(ys)
  {
    forall d | d in Ids(xs) ensures d in Ids(ys) {
      var i :| 0 <= i < |xs| && xs[i].id == d;
      assert xs[i] in multiset(xs);
      assert xs[i] in ys;
    }
  }

  /** If some order of everything exists, whatever is left holds a producer that is ready. */
  lemma {:induction false} SomethingIsReady(order: seq<Producer>, ordered: seq<Producer>, remaining: seq<Producer>, n: nat)
    requires multiset(order) == multiset(ordered) + multiset(remaining) && InOrder(order) && remaining != []
    requires n <= |order| && multiset(order[..n]) <= multiset(ordered)
    ensures exists x :: x in remaining && Ready(x, Ids(ordered))
    decreases |order| - n
  {
    if n == |order| {
      assert order[..n] == order;
      assert |multiset(order)| == |ordered| + |remaining|;
      BagSize(multiset(order), multiset(ordered));
    } else if multiset(order[..n + 1]) <= multiset(ordered) {
      SomethingIsReady(order, ordered, remaining, n + 1);
    } else {
      FirstMissing(order, ordered, remaining, n);
      assert Ready(order[n], Ids(order[..n]));
      IdsOfBag(order[..n], ordered);
      assert order[n] in remaining && Ready(order[n], Ids(ordered));
    }
  }

  lemma {:induction false} FirstMissing(order: seq<Producer>, ordered: seq<Producer>, remaining: seq<Producer>, n: nat)
    requires multiset(order) == multiset(ordered) + multiset(remaining) && n < |order|
    requires multiset(order[..n]) <= multiset(ordered) && !(multiset(order[..n + 1]) <= multiset(ordered))
    ensures order[n] in remaining
  {
    var x := order[n];
    assert order[..n + 1] == order[..n] + [x];
    assert order == order[..n + 1] + order[n + 1..];
    assert multiset(order)[x] >= multiset(order[..n + 1])[x] > multiset(ordered)[x];
    assert x in multiset(remaining);
  }

  lemma {:induction false} BagSize(a: multiset<Producer>, b: multiset<Producer>)
    requires a <= b
    ensures |a| <= |b|
  {
    assert b == a + (b - a);
  }

  method FindReady(remaining: seq<Producer>, done: set<string>) returns (index: int)
    ensures -1 <= index < |remaining|
    ensures index >= 0 ==> Ready(remaining[index], done)
    ensures forall i :: 0 <= i < (if index < 0 then |remaining| else index) ==> !Ready(remaining[i], done)
  {
    for i := 0 to |remaining|
      invariant forall k :: 0 <= k < i ==> !Ready(remaining[k], done)
    {
      if Ready(remaining[i], done) { return i; }
    }
    index := -1;
  }

  /** Part of the catalog is in order and the rest is left. */
  ghost predicate Partial(catalog: seq<Producer>, ordered: seq<Producer>, remaining: seq<Producer>) {
    && multiset(ordered) + multiset(remaining) == multiset(catalog)
    && InOrder(ordered)
    && (InOrder(catalog) ==> ordered + remaining == catalog)
  }

  lemma {:induction false} TakeNext(catalog: seq<Producer>, ordered: seq<Producer>, remaining: seq<Producer>, k: nat)
    requires Partial(catalog, ordered, remaining) && k < |remaining| && Ready(remaining[k], Ids(ordered))
    requires forall i :: 0 <= i < k ==> !Ready(remaining[i], Ids(ordered))
    ensures Partial(catalog, ordered + [remaining[k]], remaining[..k] + remaining[k + 1..])
    ensures Ids(ordered + [remaining[k]]) == Ids(ordered) + {remaining[k].id}
  {
    InOrderAppend(ordered, remaining[k]);
    IdsAppend(ordered, remaining[k]);
    assert remaining == remaining[..k] + [remaining[k]] + remaining[k + 1..];
    if InOrder(catalog) {
      FirstIsReady(catalog, ordered, remaining);
      assert k == 0;
      assert ordered + [remaining[0]] + remaining[1..] == ordered + remaining;
      assert remaining[..0] + remaining[1..] == remaining[1..];
    }
  }

  /** Returns an order of the whole catalog whenever there is one, and fails only when there is none.
      A catalog that is already in order comes back as it is. */
  method OrderedProducers(catalog: seq<Producer>) returns (r: Option<seq<Producer>>)
    ensures r.Some? ==> IsOrder(r.value, catalog)
    ensures r.None? ==> forall xs :: !IsOrder(xs, catalog)
    ensures InOrder(catalog) ==> r == Some(catalog)
  {
    var remaining, ordered: seq<Producer>, done := catalog, [], {};
    assert [] + catalog == catalog;
    while |remaining| > 0
      invariant Partial(catalog, ordered, remaining) && done == Ids(ordered)
      decreases |remaining|
    {
      var k := FindReady(remaining, done);
      if k < 0 {
        NoOrder(catalog, ordered, remaining);
        InOrderIsOrder(catalog);
        return None;
      }
      TakeNext(catalog, ordered, remaining, k);
      remaining, ordered, done :=
        remaining[..k] + remaining[k + 1..], ordered + [remaining[k]], done + {remaining[k].id};
    }
    assert ordered + [] == ordered;
    r := Some(ordered);
  }

  lemma {:induction false} InOrderIsOrder(catalog: seq<Producer>)
    ensures InOrder(catalog) ==> IsOrder(catalog, catalog)
  {
  }

  lemma {:induction false} NoOrder(catalog: seq<Producer>, ordered: seq<Producer>, remaining: seq<Producer>)
    requires multiset(ordered) + multiset(remaining) == multiset(catalog) && remaining != []
    requires forall x :: x in remaining ==> !Ready(x, Ids(ordered))
    ensures forall xs :: !IsOrder(xs, catalog)
  {
    forall xs ensures !IsOrder(xs, catalog) {
      if IsOrder(xs, catalog) {
        assert multiset(xs[..0]) == multiset{};
        SomethingIsReady(xs, ordered, remaining, 0);
      }
    }
  }

  /** While a catalog in order is copied, its next producer is ready. */
  lemma {:induction false} FirstIsReady(catalog: seq<Producer>, ordered: seq<Producer>, remaining: seq<Producer>)
    requires remaining != []
    ensures InOrder(catalog) && ordered + remaining == catalog ==> Ready(remaining[0], Ids(ordered))
  {
    if ordered + remaining == catalog {
      assert catalog[..|ordered|] == ordered;
    }
  }

  // ---------- an order is missing only because of a cycle or a dangling dependency

  ghost predicate UniqueIds(catalog: seq<Producer>) {
    forall i, j :: 0 <= i < j < |catalog| ==> catalog[i].id != catalog[j].id
  }

  ghost predicate Dangles(catalog: seq<Producer>) {
    exists x :: x in catalog && !Ready(x, Ids(catalog))
  }

  /** The dependencies of a catalog with unique ids as a graph. */
  ghost function DependencyGraph(catalog: seq<Producer>): Graph {
    map id | id in Ids(catalog) :: (set x, d | x in catalog && x.id == id && d in x.dependsOn :: d)
  }

  lemma {:induction false} OneProducerPerId(catalog: seq<Producer>, x: Producer, d: string)
    requires x in catalog
    ensures d in x.dependsOn ==> Edge(DependencyGraph(catalog), x.id, d)
  {
    var i :| 0 <= i < |catalog| && catalog[i] == x;
    assert x.id in Ids(catalog);
  }

  /** A dependency that is not met belongs to a producer that is itself left over. */
  lemma {:induction false} UnmetIsStuck(catalog: seq<Producer>, ordered: seq<Producer>, remaining: seq<Producer>, x: Producer)
    returns (d: string)
    requires multiset(ordered) + multiset(remaining) == multiset(catalog)
    requires x in remaining && !Ready(x, Ids(ordered)) && !Dangles(catalog)
    ensures d in Ids(remaining) - Ids(ordered) && Edge(DependencyGraph(catalog), x.id, d)
  {
    d :| d in x.dependsOn && d !in Ids(ordered);
    assert x in multiset(catalog);
    OneProducerPerId(catalog, x, d);
    assert Ready(x, Ids(catalog));
    var j :| 0 <= j < |catalog| && catalog[j].id == d;
    assert catalog[j] in multiset(catalog);
    InIds(ordered, catalog[j]);
    InIds(remaining, catalog[j]);
  }

  lemma {:induction false} StuckMeansCycle(catalog: seq<Producer>, ordered: seq<Producer>, remaining: seq<Producer>)
    requires multiset(ordered) + multiset(remaining) == multiset(catalog) && remaining != []
    requires forall x :: x in remaining ==> !Ready(x, Ids(ordered))
    requires !Dangles(catalog)
    ensures !Acyclic(DependencyGraph(catalog))
  {
    var stuck := Ids(remaining) - Ids(ordered);
    forall u | u in Ids(remaining) ensures HasSuccessor(DependencyGraph(catalog), stuck, u) {
      var i :| 0 <= i < |remaining| && remaining[i].id == u;
      var d := UnmetIsStuck(catalog, ordered, remaining, remaining[i]);
      assert d in stuck && Edge(DependencyGraph(catalog), u, d);
    }
    assert HasSuccessor(DependencyGraph(catalog), stuck, remaining[0].id) by { assert remaining[0].id in Ids(remaining); }
    NoSinkMeansCycle(DependencyGraph(catalog), stuck);
  }

  /** With unique ids, listing the ids of an order makes every dependency point back. */
  lemma {:induction false} OrderMeansAcyclic(catalog: seq<Producer>, xs: seq<Producer>)
    requires UniqueIds(catalog) && IsOrder(xs, catalog)
    ensures !Dangles(catalog) && Acyclic(DependencyGraph(catalog))
  {
    var g, ids := DependencyGraph(catalog), seq(|xs|, i requires 0 <= i < |xs| => xs[i].id);
    UniqueIdsPermute(catalog, xs);
    IdsOfBag(catalog, xs);
    IdsOfBag(xs, catalog);
    forall i, v | 0 <= i < |ids| && Edge(g, ids[i], v) ensures v in ids[..i] {
      var x :| x in catalog && x.id == ids[i] && v in x.dependsOn;
      SameProducer(catalog, xs, x, i);
      assert Ready(xs[i], Ids(xs[..i]));
      var j :| 0 <= j < i && xs[..i][j].id == v;
      assert ids[..i][j] == v;
    }
    forall u | u in g ensures u in ids {
      var i :| 0 <= i < |xs| && xs[i].id == u;
      assert ids[i] == u;
    }
    PointingBackIsAcyclic(g, ids);
    forall x | x in catalog ensures Ready(x, Ids(catalog)) {
      assert x in multiset(xs);
      var i :| 0 <= i < |xs| && xs[i] == x;
      assert Ready(xs[i], Ids(xs[..i]));
      IdsOfPrefix(xs, i);
    }
  }

  lemma {:induction false} IdsOfPrefix(xs: seq<Producer>, n: nat)
    requires n <= |xs|
    ensures Ids(xs[..n]) <= Ids(xs)
  {
    assert xs == xs[..n] + xs[n..];
    IdsOfBag(xs[..n], xs);
  }

  lemma {:induction false} SameProducer(catalog: seq<Producer>, xs: seq<Producer>, x: Producer, i: nat)
    requires UniqueIds(catalog) && multiset(xs) == multiset(catalog) && i < |xs| && x in catalog && x.id == xs[i].id
    ensures x == xs[i]
  {
    assert xs[i] in multiset(catalog);
    var j :| 0 <= j < |catalog| && catalog[j] == xs[i];
    var k :| 0 <= k < |catalog| && catalog[k] == x;
  }

  lemma {:induction false} UniqueIdsPermute(catalog: seq<Producer>, xs: seq<Producer>)
    requires UniqueIds(catalog) && multiset(xs) == multiset(catalog)
    ensures UniqueIds(xs)
  {
    forall i, j | 0 <= i < j < |xs| ensures xs[i].id != xs[j].id {
      var key := (x: Producer) => x.id;
      assert DistinctKeys(catalog, key);
      DistinctPermutation(catalog, xs, key);
      assert key(xs[i]) != key(xs[j]);
    }
  }

  /** Part of any catalog can be put in order until nothing left is ready. */
  lemma {:induction false} OrderAsMuchAsPossible(catalog: seq<Producer>, ordered: seq<Producer>, remaining: seq<Producer>)
    returns (o: seq<Producer>, r: seq<Producer>)
    requires multiset(ordered) + multiset(remaining) == multiset(catalog) && InOrder(ordered)
    ensures multiset(o) + multiset(r) == multiset(catalog) && InOrder(o)
    ensures forall x :: x in r ==> !Ready(x, Ids(o))
    decreases |remaining|
  {
    if k :| 0 <= k < |remaining| && Ready(remaining[k], Ids(ordered)) {
      InOrderAppend(ordered, remaining[k]);
      assert remaining == remaining[..k] + [remaining[k]] + remaining[k + 1..];
      o, r := OrderAsMuchAsPossible(catalog, ordered + [remaining[k]], remaining[..k] + remaining[k + 1..]);
    } else {
      o, r := ordered, remaining;
    }
  }

  /** For unique ids, an order exists exactly if no dependency dangles and there is no cycle. */
  lemma {:induction false} OrderExistsExactly(catalog: seq<Producer>)
    requires UniqueIds(catalog)
    ensures (exists xs :: IsOrder(xs, catalog)) <==> !Dangles(catalog) && Acyclic(DependencyGraph(catalog))
  {
    var ordered, remaining := OrderAsMuchAsPossible(catalog, [], catalog);
    if remaining == [] {
      assert IsOrder(ordered, catalog);
      OrderMeansAcyclic(catalog, ordered);
    } else {
      NoOrder(catalog, ordered, remaining);
      if !Dangles(catalog) { StuckMeansCycle(catalog, ordered, remaining); }
    }
  }
}
