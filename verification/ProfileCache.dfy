/** What resolving one profile leaves in the shared cache, set by set: exactly when a stored set
    is the whole of its chain, and which issue the end of the chain gives rise to. */
module ProfileCache {
  import opened Wrappers
  import opened Graphs
  import opened ProfileReachability

  /** The names that resolving the first of them expands, in order: each extends the next. */
  ghost predicate Trail(ps: Profiles, cache: map<string, set<string>>, visiting: set<string>, p: seq<string>) {
    && p != []
    && (forall i :: 0 <= i < |p| ==> Present(ps, p[i]) && p[i] !in cache && p[i] !in visiting)
    && (forall i, j :: 0 <= i < j < |p| ==> p[i] != p[j])
    && Walk(ExtendsGraph(ps), p)
    && !Expands(ps, cache, visiting, p)
  }

  /** What the last name extends. */
  function Next(ps: Profiles, p: seq<string>): string
    requires p != [] && Present(ps, p[|p| - 1])
  {
    ps[p[|p| - 1]].value.base
  }

  /** Resolution goes on to expand one more profile. */
  ghost predicate Expands(ps: Profiles, cache: map<string, set<string>>, visiting: set<string>, p: seq<string>)
    requires p != [] && Present(ps, p[|p| - 1])
  {
    var next := Next(ps, p);
    next != "" && next !in cache && next !in visiting && next !in p && Present(ps, next)
  }

  /** What the end of the trail answers: a stored set, or nothing. */
  function EndSuites(ps: Profiles, cache: map<string, set<string>>, p: seq<string>): set<string>
    requires p != [] && Present(ps, p[|p| - 1])
  {
    if Next(ps, p) != "" && Next(ps, p) in cache then cache[Next(ps, p)] else {}
  }

  /** What the end of the trail reports: the first name met twice, or the missing one. */
  function EndIssues(ps: Profiles, cache: map<string, set<string>>, visiting: set<string>, p: seq<string>): seq<Issue>
    requires p != [] && Present(ps, p[|p| - 1])
  {
    var next := Next(ps, p);
    if next == "" || next in cache then []
    else if next in visiting || next in p then [CycleAt(next)]
    else [MissingProfile(next)]
  }

  /** Every profile that can be expanded starts a trail. */
  lemma {:induction false} TrailExists(ps: Profiles, cache: map<string, set<string>>, visiting: set<string>, name: string)
    returns (p: seq<string>)
    requires Present(ps, name) && name !in cache && name !in visiting
    ensures Trail(ps, cache, visiting, p) && p[0] == name
    decreases ps.Keys - visiting
  {
    if Expands(ps, cache, visiting, [name]) {
      var q := TrailExists(ps, cache, visiting + {name}, ps[name].value.base);
      p := [name] + q;
      LongerTrail(ps, cache, visiting, name, q);
    } else {
      p := [name];
    }
  }

  lemma {:induction false} LongerTrail(ps: Profiles, cache: map<string, set<string>>, visiting: set<string>, name: string, q: seq<string>)
    requires Present(ps, name) && name !in cache && name !in visiting
    requires Trail(ps, cache, visiting + {name}, q) && ps[name].value.base == q[0] != ""
    ensures Trail(ps, cache, visiting, [name] + q)
  {
    var p := [name] + q;
    forall i | 0 <= i < |p| - 1 ensures Edge(ExtendsGraph(ps), p[i], p[i + 1]) {
      if i > 0 { assert Edge(ExtendsGraph(ps), q[i - 1], q[i - 1 + 1]); }
    }
    assert p[|p| - 1] == q[|q| - 1];
    assert forall x :: x in p <==> x == name || x in q;
  }

  lemma {:induction false} ShorterTrail(ps: Profiles, cache: map<string, set<string>>, visiting: set<string>, p: seq<string>)
    requires Trail(ps, cache, visiting, p) && |p| > 1
    ensures Trail(ps, cache, visiting + {p[0]}, p[1..])
    ensures EndIssues(ps, cache, visiting + {p[0]}, p[1..]) == EndIssues(ps, cache, visiting, p)
    ensures EndSuites(ps, cache, p[1..]) == EndSuites(ps, cache, p)
    ensures ps[p[0]].value.base == p[1] != "" && p[0] !in p[1..]
  {
    SubWalk(ExtendsGraph(ps), p, 1);
    assert Edge(ExtendsGraph(ps), p[0], p[0 + 1]);
    assert p[1..][|p| - 2] == p[|p| - 1];
    assert forall x :: x in p <==> x == p[0] || x in p[1..];
  }

  lemma {:induction false} FirstSuites(ps: Profiles, p: seq<string>)
    requires p != []
    ensures PathSuites(ps, p) == OwnSuites(ps, p[0]) + PathSuites(ps, p[1..])
  {
    assert forall x :: x in p <==> x == p[0] || x in p[1..];
  }

  /** Nothing but the names on the trail is stored or changed. */
  ghost predicate OnlyTrailStored(cache: map<string, set<string>>, p: seq<string>, r: map<string, set<string>>) {
    && (forall x :: x in r <==> x in cache || x in p)
    && forall x :: x in cache && x !in p ==> r[x] == cache[x]
  }

  /** Each name on the trail is stored with what the trail holds from there on. */
  ghost predicate SuffixesStored(ps: Profiles, p: seq<string>, suites: set<string>, r: map<string, set<string>>) {
    forall i :: 0 <= i < |p| ==> p[i] in r && r[p[i]] == PathSuites(ps, p[i..]) + suites
  }

  /** What resolving leaves behind. */
  ghost predicate StoredAlong(ps: Profiles, cache: map<string, set<string>>, p: seq<string>, suites: set<string>, r: map<string, set<string>>) {
    OnlyTrailStored(cache, p, r) && SuffixesStored(ps, p, suites, r)
  }

  lemma {:induction false} StoredLater(ps: Profiles, p: seq<string>, suites: set<string>, r: map<string, set<string>>, i: nat)
    requires 1 <= i < |p| && p[0] !in p[1..] && SuffixesStored(ps, p[1..], suites, r)
    ensures p[i] in r && p[i] != p[0] && r[p[i]] == PathSuites(ps, p[i..]) + suites
  {
    assert p[1..][i - 1] == p[i] && p[1..][i - 1..] == p[i..];
  }

  lemma {:induction false} SuffixFirst(ps: Profiles, p: seq<string>, suites: set<string>, r: map<string, set<string>>)
    requires p != [] && p[0] !in p[1..] && SuffixesStored(ps, p[1..], suites, r)
    ensures SuffixesStored(ps, p, suites, r[p[0] := PathSuites(ps, p) + suites])
  {
    var stored := r[p[0] := PathSuites(ps, p) + suites];
    forall i | 0 <= i < |p| ensures p[i] in stored && stored[p[i]] == PathSuites(ps, p[i..]) + suites {
      if i > 0 { StoredLater(ps, p, suites, r, i); } else { assert p[0..] == p; }
    }
  }

  lemma {:induction false} TrailFirst(cache: map<string, set<string>>, p: seq<string>, r: map<string, set<string>>, suites: set<string>)
    requires p != [] && OnlyTrailStored(cache, p[1..], r)
    ensures OnlyTrailStored(cache, p, r[p[0] := suites])
  {
    assert forall x :: x in p <==> x == p[0] || x in p[1..];
  }

  lemma {:induction false} StoreFirst(ps: Profiles, cache: map<string, set<string>>, p: seq<string>, suites: set<string>,
                                      r: map<string, set<string>>)
    requires p != [] && p[0] !in p[1..] && StoredAlong(ps, cache, p[1..], suites, r)
    ensures StoredAlong(ps, cache, p, suites, r[p[0] := PathSuites(ps, p) + suites])
  {
    TrailFirst(cache, p, r, PathSuites(ps, p) + suites);
    SuffixFirst(ps, p, suites, r);
  }

  /** What resolving the first name of a trail does: it stores what the trail holds, and reports what its end does. */
  ghost predicate FollowsTrail(ps: Profiles, cache: map<string, set<string>>, visiting: set<string>, p: seq<string>, r: Resolution)
    requires p != [] && Present(ps, p[|p| - 1])
  {
    && r.suites == PathSuites(ps, p) + EndSuites(ps, cache, p)
    && r.issues == EndIssues(ps, cache, visiting, p)
    && StoredAlong(ps, cache, p, EndSuites(ps, cache, p), r.cache)
  }

  lemma {:induction false} TrailResolved(ps: Profiles, cache: map<string, set<string>>, visiting: set<string>, p: seq<string>)
    requires Trail(ps, cache, visiting, p)
    ensures FollowsTrail(ps, cache, visiting, p, Resolved(ps, cache, visiting, p[0]))
    decreases |p|
  {
    if |p| > 1 {
      ShorterTrail(ps, cache, visiting, p);
      TrailResolved(ps, cache, visiting + {p[0]}, p[1..]);
      var inherited := Resolved(ps, cache, visiting + {p[0]}, p[1]);
      OneUp(ps, cache, p, EndSuites(ps, cache, p), inherited);
    } else {
      EndResolved(ps, cache, visiting, p);
      FirstSuites(ps, p);
      assert p[1..] == [] && PathSuites(ps, p[1..]) == {};
      StoreFirst(ps, cache, p, EndSuites(ps, cache, p), cache);
    }
  }

  lemma {:induction false} OneUp(ps: Profiles, cache: map<string, set<string>>, p: seq<string>, end: set<string>, inherited: Resolution)
    requires p != [] && p[0] !in p[1..]
    requires inherited.suites == PathSuites(ps, p[1..]) + end && StoredAlong(ps, cache, p[1..], end, inherited.cache)
    ensures inherited.suites + OwnSuites(ps, p[0]) == PathSuites(ps, p) + end
    ensures StoredAlong(ps, cache, p, end, inherited.cache[p[0] := inherited.suites + OwnSuites(ps, p[0])])
  {
    FirstSuites(ps, p);
    StoreFirst(ps, cache, p, end, inherited.cache);
    assert inherited.suites + OwnSuites(ps, p[0]) == PathSuites(ps, p) + end;
  }

  lemma {:induction false} EndResolved(ps: Profiles, cache: map<string, set<string>>, visiting: set<string>, p: seq<string>)
    requires Trail(ps, cache, visiting, p) && |p| == 1
    ensures var r, suites := Resolved(ps, cache, visiting, p[0]), EndSuites(ps, cache, p);
            && r.suites == suites + OwnSuites(ps, p[0]) && r.cache == cache[p[0] := r.suites]
            && r.issues == EndIssues(ps, cache, visiting, p)
  {
    var base := ps[p[0]].value.base;
    if base != "" {
      var end := Resolved(ps, cache, visiting + {p[0]}, base);
      assert end.cache == cache;
    }
  }

  // ---------- whole chains

  /** A chain's suites are those on the trail and those of the chain that its end runs into. */
  lemma {:induction false} TrailChain(ps: Profiles, cache: map<string, set<string>>, p: seq<string>, i: nat)
    requires Trail(ps, cache, {}, p) && i < |p|
    ensures ChainSuites(ps, p[i]) == PathSuites(ps, p[i..]) + if Next(ps, p) == "" then {} else ChainSuites(ps, Next(ps, p))
    decreases |p| - i
  {
    ChainStep(ps, p[i]);
    FirstSuites(ps, p[i..]);
    assert p[i..][1..] == p[i + 1..];
    if i < |p| - 1 {
      assert Edge(ExtendsGraph(ps), p[i], p[i + 1]);
      TrailChain(ps, cache, p, i + 1);
    } else {
      assert PathSuites(ps, []) == {};
    }
  }

  /** The end of the trail leads back to its `j`-th name. */
  ghost predicate ClosesAt(ps: Profiles, p: seq<string>, j: nat)
    requires p != [] && Present(ps, p[|p| - 1])
  {
    j < |p| && Next(ps, p) == p[j] != ""
  }

  lemma {:induction false} CycleSuites(ps: Profiles, cache: map<string, set<string>>, p: seq<string>, j: nat)
    requires Trail(ps, cache, {}, p) && ClosesAt(ps, p, j)
    ensures ChainSuites(ps, p[j]) == PathSuites(ps, p[j..])
  {
    TrailChain(ps, cache, p, j);
    assert Edge(ExtendsGraph(ps), p[|p| - 1], p[j]);
    CycleIsClosed(ps, p, j);
    forall s | s in ChainSuites(ps, p[j]) ensures s in PathSuites(ps, p[j..]) {
      ChainSuitesMember(ps, p[j], s);
    }
  }

  lemma {:induction false} SplitSuites(ps: Profiles, p: seq<string>, j: nat, i: nat)
    requires j <= i <= |p|
    ensures PathSuites(ps, p[j..]) == PathSuites(ps, p[j..i]) + PathSuites(ps, p[i..])
  {
    assert p[j..] == p[j..i] + p[i..];
  }

  /** Whether the set stored for the `i`-th name of the trail lacks nothing, read off the names' own suites:
      on a trail that ends, always; on one that runs into a stored set, if what that set lacks is on the trail;
      on one that closes a cycle, for the names up to where it closes, and after that only if they own again
      all that the names they skip own. */
  ghost predicate HoldsAll(ps: Profiles, cache: map<string, set<string>>, p: seq<string>, i: nat)
    requires Trail(ps, cache, {}, p) && i < |p|
  {
    && (Next(ps, p) != "" && Next(ps, p) in cache ==>
          ChainSuites(ps, Next(ps, p)) <= PathSuites(ps, p[i..]) + cache[Next(ps, p)])
    && forall j: nat :: ClosesAt(ps, p, j) && j < i ==> PathSuites(ps, p[j..i]) <= PathSuites(ps, p[i..])
  }

  /** A set that resolving stores is the whole of its chain exactly if `HoldsAll`. */
  lemma {:induction false} StoredExactly(ps: Profiles, cache: map<string, set<string>>, p: seq<string>, i: nat)
    requires Trail(ps, cache, {}, p) && i < |p|
    requires forall x :: x in cache ==> cache[x] <= ChainSuites(ps, x)
    ensures var stored := Resolved(ps, cache, {}, p[0]).cache;
            && p[i] in stored && stored[p[i]] <= ChainSuites(ps, p[i])
            && (stored[p[i]] == ChainSuites(ps, p[i]) <==> HoldsAll(ps, cache, p, i))
  {
    TrailResolved(ps, cache, {}, p);
    WholeExactly(ps, cache, p, i);
  }

  lemma {:induction false} WholeExactly(ps: Profiles, cache: map<string, set<string>>, p: seq<string>, i: nat)
    requires Trail(ps, cache, {}, p) && i < |p|
    requires forall x :: x in cache ==> cache[x] <= ChainSuites(ps, x)
    ensures var suites := PathSuites(ps, p[i..]) + EndSuites(ps, cache, p);
            suites <= ChainSuites(ps, p[i]) && (suites == ChainSuites(ps, p[i]) <==> HoldsAll(ps, cache, p, i))
  {
    var next := Next(ps, p);
    TrailChain(ps, cache, p, i);
    if next != "" && next in cache {
      assert forall j: nat :: !ClosesAt(ps, p, j);
      assert HoldsAll(ps, cache, p, i) <==> ChainSuites(ps, next) <= PathSuites(ps, p[i..]) + cache[next];
    } else {
      assert EndSuites(ps, cache, p) == {};
      if next != "" && next in p {
        var j: nat :| j < |p| && p[j] == next;
        ClosedExactly(ps, cache, p, i, j);
      } else {
        ChainStep(ps, next);
        assert HoldsAll(ps, cache, p, i);
      }
    }
  }

  lemma {:induction false} ClosedExactly(ps: Profiles, cache: map<string, set<string>>, p: seq<string>, i: nat, j: nat)
    requires Trail(ps, cache, {}, p) && i < |p| && ClosesAt(ps, p, j) && Next(ps, p) !in cache
    ensures PathSuites(ps, p[i..]) <= ChainSuites(ps, p[i])
    ensures PathSuites(ps, p[i..]) == ChainSuites(ps, p[i]) <==> HoldsAll(ps, cache, p, i)
  {
    TrailChain(ps, cache, p, i);
    CycleSuites(ps, cache, p, j);
    assert forall k: nat :: ClosesAt(ps, p, k) ==> k == j;
    if j < i { SplitSuites(ps, p, j, i); } else { SplitSuites(ps, p, i, j); }
  }

  /** The failing side: two profiles that extend each other, one public. The other one's stored set lacks
      the suite of the public one, while the public one's own answer is whole. */
  lemma {:induction false} TwoProfileCycle()
    ensures var ps: Profiles := map["a-public" := Some(Profile("b", ["s"], false)), "b" := Some(Profile("a-public", ["t"], false))];
            var r := Resolved(ps, map[], {}, "a-public");
            && "b" in r.cache && r.cache["b"] == {"t"} < ChainSuites(ps, "b") == {"s", "t"}
            && r.suites == ChainSuites(ps, "a-public") && r.issues == [CycleAt("a-public")]
  {
    var ps: Profiles := map["a-public" := Some(Profile("b", ["s"], false)), "b" := Some(Profile("a-public", ["t"], false))];
    var p := ["a-public", "b"];
    assert p[0] != p[1] by { assert |p[0]| != |p[1]|; }
    TwoSuites(ps, p);
  }

  lemma {:induction false} TwoSuites(ps: Profiles, p: seq<string>)
    requires |p| == 2 && p[0] != p[1] && p[0] != "" && p[1] != ""
    requires p[0] in ps && ps[p[0]] == Some(Profile(p[1], ["s"], false))
    requires p[1] in ps && ps[p[1]] == Some(Profile(p[0], ["t"], false))
    ensures var r := Resolved(ps, map[], {}, p[0]);
            && p[1] in r.cache && r.cache[p[1]] == {"t"} < ChainSuites(ps, p[1]) == {"s", "t"}
            && r.suites == ChainSuites(ps, p[0]) && r.issues == [CycleAt(p[0])]
  {
    var cache: map<string, set<string>> := map[];
    PairTrail(ps, cache, p);
    PairSuites(ps, p);
    PairResolved(ps, cache, p);
    PairChains(ps, cache, p);
  }

  lemma {:induction false} PairResolved(ps: Profiles, cache: map<string, set<string>>, p: seq<string>)
    requires |p| == 2 && Trail(ps, cache, {}, p) && EndSuites(ps, cache, p) == {}
    ensures var r := Resolved(ps, cache, {}, p[0]);
            && r.suites == PathSuites(ps, p) && r.issues == EndIssues(ps, cache, {}, p)
            && p[1] in r.cache && r.cache[p[1]] == PathSuites(ps, p[1..])
  {
    TrailResolved(ps, cache, {}, p);
    assert SuffixesStored(ps, p, {}, Resolved(ps, cache, {}, p[0]).cache);
  }

  lemma {:induction false} PairChains(ps: Profiles, cache: map<string, set<string>>, p: seq<string>)
    requires |p| == 2 && Trail(ps, cache, {}, p) && ClosesAt(ps, p, 0)
    ensures ChainSuites(ps, p[0]) == ChainSuites(ps, p[1]) == PathSuites(ps, p)
  {
    CycleSuites(ps, cache, p, 0);
    TrailChain(ps, cache, p, 1);
    assert p[0..] == p;
    SplitSuites(ps, p, 0, 1);
  }

  lemma {:induction false} PairTrail(ps: Profiles, cache: map<string, set<string>>, p: seq<string>)
    requires |p| == 2 && p[0] != p[1] && p[0] != "" && p[1] != "" && cache == map[]
    requires Present(ps, p[0]) && ps[p[0]].value.base == p[1] && Present(ps, p[1]) && ps[p[1]].value.base == p[0]
    ensures Trail(ps, cache, {}, p) && ClosesAt(ps, p, 0) && Next(ps, p) !in cache
    ensures EndIssues(ps, cache, {}, p) == [CycleAt(p[0])] && EndSuites(ps, cache, p) == {}
  {
    assert Edge(ExtendsGraph(ps), p[0], p[0 + 1]);
  }

  lemma {:induction false} PairSuites(ps: Profiles, p: seq<string>)
    requires |p| == 2 && p[0] in ps && p[1] in ps
    requires ps[p[0]].Some? && ps[p[0]].value.suites == ["s"] && ps[p[1]].Some? && ps[p[1]].value.suites == ["t"]
    ensures PathSuites(ps, p[1..]) == {"t"} && PathSuites(ps, p) == {"s", "t"} && "s" !in {"t"}
  {
    FirstSuites(ps, p);
    FirstSuites(ps, p[1..]);
    assert PathSuites(ps, p[1..][1..]) == {};
    assert OwnSuites(ps, p[0]) == {"s"} && OwnSuites(ps, p[1]) == {"t"};
    assert "s"[0] != "t"[0];
  }
}
