/** The two graph searches of the checkpoint reducer: the depth-first cycle report
    and the explicit-stack dependency search. */
module CheckpointCycles {
  import opened Graphs
  import opened CheckpointRules

  /** Each declared id with its prerequisites, in their listed order. */
  type Prerequisites = map<string, seq<string>>

  function AsGraph(p: Prerequisites): Graph {
    map id | id in p :: set w | w in p[id]
  }

  function VertexSet(cycle: seq<string>): set<string> {
    set v | v in cycle
  }

  function AsFinding(cycle: seq<string>): Finding
    requires cycle != []
  {
    Finding(PrerequisiteCycle, cycle[|cycle| - 1], "", "", -1, cycle)
  }

  /** What a finished cycle search may report: only real simple cycles, no vertex set twice,
      and nothing at all exactly when there is no cycle. */
  ghost predicate CycleReport(p: Prerequisites, findings: seq<Finding>) {
    && (findings == [] <==> Acyclic(AsGraph(p)))
    && RealCycles(p, findings)
  }

  ghost predicate RealCycles(p: Prerequisites, findings: seq<Finding>) {
    && (forall f :: f in findings ==>
          && ClosedWalk(AsGraph(p), f.cycle)
          && NoRepeats(f.cycle[..|f.cycle| - 1])
          && f == AsFinding(f.cycle))
    && forall i, j :: 0 <= i < j < |findings| ==> VertexSet(findings[i].cycle) != VertexSet(findings[j].cycle)
  }

  class CycleSearch {
    const prerequisites: Prerequisites
    var visiting: set<string>
    var visited: set<string>
    var reported: set<set<string>>
    var findings: seq<Finding>
    ghost var finished: seq<string>  // the visited ids in finishing order

    constructor (p: Prerequisites)
      ensures prerequisites == p && Valid([]) && visited == {} && findings == []
    {
      prerequisites := p;
      visiting, visited, reported, findings, finished := {}, {}, {}, [], [];
    }

    /** The visiting set is the ancestry, which is itself a walk; finished vertices are never
        revisited; and while nothing was reported every edge of a finished vertex points back. */
    ghost predicate Valid(ancestry: seq<string>)
      reads this
    {
      && visiting == VertexSet(ancestry) && NoRepeats(ancestry)
      && visiting <= prerequisites.Keys && visited <= prerequisites.Keys && visiting !! visited
      && (ancestry != [] ==> Walk(AsGraph(prerequisites), ancestry))
      && visited == VertexSet(finished) && NoRepeats(finished)
      && reported == (set i | 0 <= i < |findings| :: VertexSet(findings[i].cycle))
      && RealCycles(prerequisites, findings)
      && (findings == [] ==> EdgesPointBack(AsGraph(prerequisites), finished))
    }

    method Visit(id: string, ancestry: seq<string>)
      requires Valid(ancestry) && id in prerequisites
      requires ancestry != [] ==> Edge(AsGraph(prerequisites), ancestry[|ancestry| - 1], id)
      modifies this
      ensures Valid(ancestry)
      ensures old(visited) <= visited && old(findings) <= findings
      ensures findings == [] ==> id in visited
      ensures id in visited || id in visiting
      decreases prerequisites.Keys - visiting
    {
      if id in visited { return; }
      if id in visiting {
        Report(id, ancestry);
        return;
      }
      Enter(id, ancestry);
      var path, children := ancestry + [id], prerequisites[id];
      label expanding:
      for i := 0 to |children|
        invariant Valid(path)
        invariant old@expanding(visited) <= visited && old@expanding(findings) <= findings
        invariant findings == [] ==> forall w :: w in children[..i] && w in prerequisites ==> w in visited
      {
        assert children[..i + 1] == children[..i] + [children[i]];
        if children[i] in prerequisites {
          assert Edge(AsGraph(prerequisites), id, children[i]);
          Visit(children[i], path);
        }
      }
      assert children[..|children|] == children;
      Leave(id, ancestry);
    }

    /** Starts expanding an id that is neither finished nor on the current path. */
    method Enter(id: string, ancestry: seq<string>)
      requires Valid(ancestry) && id in prerequisites && id !in visited && id !in visiting
      requires ancestry != [] ==> Edge(AsGraph(prerequisites), ancestry[|ancestry| - 1], id)
      modifies this`visiting
      ensures Valid(ancestry + [id]) && visiting == old(visiting) + {id}
    {
      visiting := visiting + {id};
      ExtendsWalk(AsGraph(prerequisites), ancestry, id);
      assert VertexSet(ancestry + [id]) == VertexSet(ancestry) + {id};
    }

    /** Finishes an id once all its declared prerequisites were visited. */
    method Leave(id: string, ancestry: seq<string>)
      requires Valid(ancestry + [id])
      requires findings == [] ==> forall w :: w in prerequisites[id] && w in prerequisites ==> w in visited
      modifies this`visiting, this`visited, this`finished
      ensures Valid(ancestry) && visited == old(visited) + {id}
    {
      ghost var path := ancestry + [id];
      assert path[|ancestry|] == id && path[..|ancestry|] == ancestry;
      assert id in VertexSet(path) && id !in visited;
      assert VertexSet(ancestry) == VertexSet(path) - {id};
      ShortensWalk(AsGraph(prerequisites), ancestry, id);
      FinishPointsBack(finished, id);
      visiting := visiting - {id};
      visited := visited + {id};
      finished := finished + [id];
    }

    lemma {:induction false} FinishPointsBack(order: seq<string>, id: string)
      requires id in prerequisites && NoRepeats(order) && id !in order
      ensures NoRepeats(order + [id]) && VertexSet(order + [id]) == VertexSet(order) + {id}
      ensures EdgesPointBack(AsGraph(prerequisites), order)
              && (forall w :: w in prerequisites[id] && w in prerequisites ==> w in VertexSet(order))
              ==> EdgesPointBack(AsGraph(prerequisites), order + [id])
    {
      var g, longer := AsGraph(prerequisites), order + [id];
      if EdgesPointBack(g, order) && forall w :: w in prerequisites[id] && w in prerequisites ==> w in VertexSet(order) {
        forall i, v | 0 <= i < |longer| && Edge(g, longer[i], v) && v in g
          ensures v in longer[..i]
        {
          if i < |order| {
            assert longer[..i] == order[..i];
          } else {
            assert longer[..i] == order;
          }
        }
      }
    }

    method Report(id: string, ancestry: seq<string>)
      requires Valid(ancestry) && id in visiting
      requires ancestry != [] ==> Edge(AsGraph(prerequisites), ancestry[|ancestry| - 1], id)
      modifies this`reported, this`findings
      ensures Valid(ancestry)
      ensures old(findings) <= findings && findings != []
    {
      var start := IndexOf(ancestry, id);
      var cycle := ancestry[start..] + [id];
      TailIsClosedWalk(AsGraph(prerequisites), ancestry, start, id);
      var key := VertexSet(cycle[..|cycle| - 1]);
      assert VertexSet(cycle) == key by {
        assert cycle[0] == id;
      }
      if key !in reported {
        reported := reported + {key};
        ghost var before := findings;
        findings := findings + [AsFinding(cycle)];
        assert forall i :: 0 <= i < |before| ==> findings[i] == before[i];
        assert findings[|before|].cycle == cycle;
      }
    }

    /** Runs the search from every id. */
    method Run(ids: seq<string>)
      requires Valid([]) && visited == {} && findings == []
      requires VertexSet(ids) == prerequisites.Keys
      modifies this
      ensures CycleReport(prerequisites, findings)
    {
      for i := 0 to |ids|
        invariant Valid([])
        invariant findings == [] ==> VertexSet(ids[..i]) <= visited
      {
        assert ids[i] in VertexSet(ids);
        assert VertexSet(ids[..i + 1]) == VertexSet(ids[..i]) + {ids[i]};
        Visit(ids[i], []);
      }
      assert ids[..|ids|] == ids;
      if findings == [] {
        assert forall u :: u in prerequisites ==> u in visited && u in finished;
        PointingBackIsAcyclic(AsGraph(prerequisites), finished);
      } else {
        assert findings[0] in findings;
      }
    }
  }

  method IndexOf(items: seq<string>, item: string) returns (i: nat)
    requires item in items
    ensures i < |items| && items[i] == item && item !in items[..i]
  {
    i := 0;
    while items[i] != item
      invariant i < |items| && item !in items[..i]
      invariant item in items[i..]
      decreases |items| - i
    {
      i := i + 1;
    }
  }

  lemma {:induction false} ShortensWalk(g: Graph, walk: seq<string>, id: string)
    requires Walk(g, walk + [id])
    ensures walk != [] ==> Walk(g, walk)
  {
    var p := walk + [id];
    forall i | 0 <= i < |walk| - 1 ensures Edge(g, walk[i], walk[i + 1]) {
      assert Edge(g, p[i], p[i + 1]);
    }
  }

  lemma {:induction false} ExtendsWalk(g: Graph, walk: seq<string>, id: string)
    requires walk != [] ==> Walk(g, walk) && Edge(g, walk[|walk| - 1], id)
    ensures Walk(g, walk + [id])
  {
    var p := walk + [id];
    forall i | 0 <= i < |p| - 1 ensures Edge(g, p[i], p[i + 1]) {
      if i < |walk| - 1 {
        assert Edge(g, walk[i], walk[i + 1]);
      }
    }
  }

  lemma {:induction false} TailIsClosedWalk(g: Graph, walk: seq<string>, start: nat, id: string)
    requires Walk(g, walk) && Edge(g, walk[|walk| - 1], id)
    requires start < |walk| && walk[start] == id && NoRepeats(walk)
    ensures ClosedWalk(g, walk[start..] + [id]) && NoRepeats(walk[start..])
    ensures (walk[start..] + [id])[..|walk| - start] == walk[start..]
  {
    ExtendsWalk(g, walk, id);
    var p := walk[start..] + [id];
    forall i | 0 <= i < |p| - 1 ensures Edge(g, p[i], p[i + 1]) {
      assert Edge(g, (walk + [id])[start + i], (walk + [id])[start + i + 1]);
    }
  }

  // ---------- does final validation depend on implementation?

  ghost predicate SearchInvariant(g: Graph, roots: set<string>, visited: set<string>, stack: seq<string>) {
    && (forall v :: v in stack ==> Reaches(g, roots, v))
    && (forall v :: v in roots ==> v in visited || v in stack)
    && forall u, v :: u in visited && Edge(g, u, v) ==> v in visited || v in stack
  }

  /** The stack search answers reachability exactly, and ends because it never expands an id twice. */
  method DependsOn(p: Prerequisites, start: seq<string>, target: string) returns (found: bool)
    ensures found <==> Reaches(AsGraph(p), VertexSet(start), target)
  {
    ghost var g, roots := AsGraph(p), VertexSet(start);
    ghost var universe := roots + Targets(g);
    var visited: set<string>, stack := {}, start;
    forall v | v in stack ensures Reaches(g, roots, v) {
      RootReached(g, roots, v);
    }
    while |stack| > 0
      invariant SearchInvariant(g, roots, visited, stack)
      invariant visited <= universe && target !in visited && forall v :: v in stack ==> v in universe
      decreases universe - visited, |stack|
    {
      var id := stack[|stack| - 1];
      ghost var before := stack;
      stack := stack[..|stack| - 1];
      assert before == stack + [id];
      if id == target {
        return true;
      }
      if id in visited {
        continue;
      }
      visited := visited + {id};
      if id in p {
        forall v | v in p[id] ensures Reaches(g, roots, v) && v in universe {
          assert Edge(g, id, v);
          EdgeReached(g, roots, id, v);
        }
        stack := stack + p[id];
      }
    }
    if Reaches(g, roots, target) {
      ReachedIsInside(g, visited, roots, target);
    }
    found := false;
  }
}
