/** The procedure that normalizes a package lock: source check, merging of lock paths that
    share a package url, dependency resolution, and the search from the root dependencies. */
module SupplyChainInventory {
  import opened Wrappers
  import opened Graphs
  import opened Sorting
  import opened ModuleResolution
  import opened SupplyChain

  method NormalizeLockfile(env: Env, lock: Lockfile) returns (result: Result<Inventory, Error>)
    requires WellFormed(lock)
    ensures Outcome(env, lock, result)
  {
    var pk := lock.packages;
    if !lock.version3 || "" !in pk {
      return Err(NotVersion3);
    }
    var allowed := CheckSources(env, lock);
    if !allowed {
      return Err(NotOfficial);
    }
    var paths := ExternalPaths(lock);
    var merged := MergeComponents(env, pk, paths);
    if merged.Err? {
      return Err(merged.error);
    }
    var (facts, byRef) := merged.value;
    var linked := LinkComponents(env, pk, facts, paths, byRef);
    var roots := RootDependencies(env, lock, facts);
    LinkedAreComponents(env, pk, facts, byRef, linked);
    RootsAndLinksAreRefs(env, pk, facts, linked);
    var reachable := InventoryRootRefs(roots, linked);
    var components := ReachableComponents(linked, reachable);
    var inventory := Inventory(components, roots);
    InventoryAssembled(env, pk, facts, linked, inventory);
    assert IsFactTable(env, pk, facts) && NoConflict(env, facts) && IsInventory(env, pk, facts, inventory);
    result := Ok(inventory);
  }

  method CheckSources(env: Env, lock: Lockfile) returns (ok: bool)
    requires WellFormed(lock)
    ensures ok <==> forall p :: p in lock.packages ==> FromAllowedSource(env, lock.packages, p)
  {
    for i := 0 to |lock.order|
      invariant forall p :: p in lock.order[..i] ==> p in lock.packages && FromAllowedSource(env, lock.packages, p)
    {
      assert lock.order[..i + 1] == lock.order[..i] + [lock.order[i]];
      assert lock.order[i] in lock.order;
      if !FromAllowedSource(env, lock.packages, lock.order[i]) {
        return false;
      }
    }
    assert lock.order[..|lock.order|] == lock.order;
    ok := true;
  }

  ghost function ExternalSet(pk: Packages): set<string> {
    set p | p in pk && IsExternal(pk, p)
  }

  /** The external paths, sorted. */
  method ExternalPaths(lock: Lockfile) returns (paths: seq<string>)
    requires WellFormed(lock)
    ensures Lists(paths, ExternalSet(lock.packages))
  {
    var found: seq<string> := [];
    for i := 0 to |lock.order|
      invariant forall p :: p in found <==> p in lock.order[..i] && IsExternal(lock.packages, p)
      invariant DistinctKeys(found, Itself())
    {
      assert lock.order[..i + 1] == lock.order[..i] + [lock.order[i]];
      assert lock.order[i] !in lock.order[..i];
      if IsExternal(lock.packages, lock.order[i]) {
        found := found + [lock.order[i]];
      }
    }
    assert lock.order[..|lock.order|] == lock.order;
    paths := SortBy(found, Itself());
    SortIsStrict(found, Itself());
    PermutationMembers(paths, found);
  }

  // ---------- merging

  /** Each url seen so far has its merged component, and nothing else is held. */
  ghost predicate AllMerged(env: Env, pk: Packages, facts: FactTable, byRef: map<string, Component>)
    requires facts.Keys <= pk.Keys
  {
    && byRef.Keys == Refs(env, facts)
    && forall r :: r in byRef ==> byRef[r].purl == r && IsMerged(env, pk, facts, byRef[r]) && byRef[r].dependencies == {}
  }

  method MergeComponents(env: Env, pk: Packages, paths: seq<string>)
    returns (result: Result<(FactTable, map<string, Component>), Error>)
    requires Lists(paths, ExternalSet(pk))
    ensures result.Ok? <==> exists facts :: IsFactTable(env, pk, facts) && NoConflict(env, facts)
    ensures result.Ok? ==> IsFactTable(env, pk, result.value.0) && NoConflict(env, result.value.0)
                           && AllMerged(env, pk, result.value.0, result.value.1)
  {
    var facts: FactTable, byRef: map<string, Component> := map[], map[];
    for i := 0 to |paths|
      invariant facts.Keys == Earlier(paths, i) && facts.Keys <= pk.Keys
      invariant forall p :: p in facts ==> FactsOf(env, p, pk[p]) == Ok(facts[p])
      invariant AllMerged(env, pk, facts, byRef)
    {
      var path := paths[i];
      assert path in paths && path in ExternalSet(pk);
      EarlierStep(paths, i);
      var read := FactsOf(env, path, pk[path]);
      if read.Err? {
        NoTableWithBadPath(env, pk, path);
        return Err(read.error);
      }
      var grown := MergeOne(env, pk, paths, i, facts, byRef, read.value);
      if grown.None? {
        return Err(Conflict);
      }
      byRef := byRef[grown.value.purl := grown.value];
      facts := facts[path := read.value];
    }
    EarlierAll(paths);
    MergedFactsAgree(env, pk, facts, byRef);
    assert IsFactTable(env, pk, facts) by {
      assert forall p :: p in facts <==> p in ExternalSet(pk);
    }
    result := Ok((facts, byRef));
  }

  ghost function Earlier(paths: seq<string>, i: nat): set<string>
    requires i <= |paths|
  {
    set p | p in paths[..i]
  }

  lemma {:induction false} EarlierStep(paths: seq<string>, i: nat)
    requires i < |paths| && StrictlySortedBy(paths, Itself())
    ensures Earlier(paths, i + 1) == Earlier(paths, i) + {paths[i]} && paths[i] !in Earlier(paths, i)
  {
    assert paths[..i + 1] == paths[..i] + [paths[i]];
    forall k | 0 <= k < i ensures paths[k] != paths[i] {
      assert Less(Itself()(paths[k]), Itself()(paths[i]));
      LessIrreflexive(paths[i]);
    }
  }

  lemma {:induction false} EarlierAll(paths: seq<string>)
    ensures forall p :: p in Earlier(paths, |paths|) <==> p in paths
  {
    assert paths[..|paths|] == paths;
  }

  /** The component of a path after merging it in, or nothing if its facts conflict. */
  method MergeOne(env: Env, pk: Packages, paths: seq<string>, i: nat, ghost facts: FactTable, byRef: map<string, Component>, f: Facts)
    returns (grown: Option<Component>)
    requires Lists(paths, ExternalSet(pk)) && i < |paths| && facts.Keys == Earlier(paths, i) && facts.Keys <= pk.Keys
    requires forall p :: p in facts ==> FactsOf(env, p, pk[p]) == Ok(facts[p])
    requires AllMerged(env, pk, facts, byRef)
    requires paths[i] in pk && FactsOf(env, paths[i], pk[paths[i]]) == Ok(f)
    ensures grown.None? ==> !exists table :: IsFactTable(env, pk, table) && NoConflict(env, table)
    ensures grown.Some? ==> grown.value.purl == Ref(env, f)
                            && AllMerged(env, pk, facts[paths[i] := f], byRef[grown.value.purl := grown.value])
  {
    var path, ref := paths[i], Ref(env, f);
    EarlierStep(paths, i);
    if ref in byRef {
      var existing := byRef[ref];
      if existing.facts != f {
        ghost var q :| HasRef(env, facts, q, ref);
        assert q in paths[..i] && q in paths && path in paths;
        NoTableWithConflict(env, pk, path, q);
        return None;
      }
      AfterEarlier(paths, i, existing.lockPaths, PathsWithRef(env, facts, ref));
      var c := existing.(optional := existing.optional && pk[path].optional, lockPaths := existing.lockPaths + [path]);
      KnownRefGrows(env, pk, facts, existing, path, c);
      MergeStep(env, pk, facts, byRef, path, f, c);
      grown := Some(c);
    } else {
      var c := Component(f, ref, pk[path].optional, [path], {});
      FirstOfRef(env, facts, byRef, ref);
      AfterEarlier(paths, i, [], {});
      NewRefStarts(env, pk, facts, path, c);
      MergeStep(env, pk, facts, byRef, path, f, c);
      grown := Some(c);
    }
  }

  lemma {:induction false} FirstOfRef(env: Env, facts: FactTable, byRef: map<string, Component>, ref: string)
    requires byRef.Keys == Refs(env, facts) && ref !in byRef
    ensures PathsWithRef(env, facts, ref) == {}
  {
    forall p | p in facts ensures Ref(env, facts[p]) != ref {
      assert Ref(env, facts[p]) in Refs(env, facts);
    }
  }

  lemma {:induction false} NoTableWithBadPath(env: Env, pk: Packages, path: string)
    requires path in ExternalSet(pk) && FactsOf(env, path, pk[path]).Err?
    ensures !exists facts :: IsFactTable(env, pk, facts) && NoConflict(env, facts)
  {
    forall facts: FactTable ensures !IsFactTable(env, pk, facts) {
      if path in facts {
        assert FactsOf(env, path, pk[path]) != Ok(facts[path]);
      }
    }
  }

  lemma {:induction false} NoTableWithConflict(env: Env, pk: Packages, p: string, q: string)
    requires p in ExternalSet(pk) && q in ExternalSet(pk)
    requires FactsOf(env, p, pk[p]).Ok? && FactsOf(env, q, pk[q]).Ok?
    requires var a, b := FactsOf(env, p, pk[p]).value, FactsOf(env, q, pk[q]).value;
             Ref(env, a) == Ref(env, b) && a != b
    ensures !exists facts :: IsFactTable(env, pk, facts) && NoConflict(env, facts)
  {
    forall facts: FactTable | IsFactTable(env, pk, facts) ensures !NoConflict(env, facts) {
      assert p in facts && q in facts;
    }
  }

  /** A path is greater than all paths listed before it, so it extends any list of some of them. */
  lemma {:induction false} AfterEarlier(paths: seq<string>, i: nat, xs: seq<string>, s: set<string>)
    requires StrictlySortedBy(paths, Itself()) && i < |paths|
    requires Lists(xs, s) && s <= Earlier(paths, i)
    ensures Lists(xs + [paths[i]], s + {paths[i]})
  {
    var ys := xs + [paths[i]];
    forall a, b | 0 <= a < b < |ys| ensures Less(ys[a], ys[b]) {
      if b == |xs| {
        assert xs[a] in s && xs[a] in paths[..i];
        var k :| 0 <= k < i && paths[k] == xs[a];
        assert Less(Itself()(paths[k]), Itself()(paths[i]));
      } else {
        assert Less(Itself()(xs[a]), Itself()(xs[b]));
      }
    }
  }

  lemma {:induction false} MergeStep(env: Env, pk: Packages, facts: FactTable, byRef: map<string, Component>,
                                     path: string, f: Facts, c: Component)
    requires facts.Keys <= pk.Keys && AllMerged(env, pk, facts, byRef) && path in pk && path !in facts
    requires c.purl == Ref(env, f) && c.dependencies == {} && IsMerged(env, pk, facts[path := f], c)
    ensures AllMerged(env, pk, facts[path := f], byRef[c.purl := c])
  {
    RefsGrow(env, facts, path, f);
    var more, now := facts[path := f], byRef[c.purl := c];
    forall r | r in now ensures now[r].purl == r && IsMerged(env, pk, more, now[r]) && now[r].dependencies == {} {
      if r != c.purl {
        KeptComponent(env, pk, facts, byRef, path, f, r);
      }
    }
  }

  lemma {:induction false} KeptComponent(env: Env, pk: Packages, facts: FactTable, byRef: map<string, Component>,
                                         path: string, f: Facts, r: string)
    requires facts.Keys <= pk.Keys && AllMerged(env, pk, facts, byRef) && path in pk && path !in facts
    requires r in byRef && r != Ref(env, f)
    ensures byRef[r].purl == r && IsMerged(env, pk, facts[path := f], byRef[r]) && byRef[r].dependencies == {}
  {
    OtherRefStays(env, pk, facts, path, f, byRef[r]);
  }

  lemma {:induction false} HasRefGrows(env: Env, facts: FactTable, path: string, f: Facts, r: string)
    requires path !in facts
    ensures forall p :: HasRef(env, facts[path := f], p, r) <==> HasRef(env, facts, p, r) || (p == path && r == Ref(env, f))
    ensures PathsWithRef(env, facts[path := f], r) == PathsWithRef(env, facts, r) + if r == Ref(env, f) then {path} else {}
  {
    var more := facts[path := f];
    forall p ensures HasRef(env, more, p, r) <==> HasRef(env, facts, p, r) || (p == path && r == Ref(env, f)) {
      if p != path { assert p in more ==> more[p] == facts[p]; }
    }
  }

  lemma {:induction false} OtherRefStays(env: Env, pk: Packages, facts: FactTable, path: string, f: Facts, c: Component)
    requires facts.Keys <= pk.Keys && path in pk && path !in facts && c.purl != Ref(env, f) && IsMerged(env, pk, facts, c)
    ensures IsMerged(env, pk, facts[path := f], c)
  {
    HasRefGrows(env, facts, path, f, c.purl);
    var p :| HasRef(env, facts, p, c.purl);
    assert HasRef(env, facts[path := f], p, c.purl);
  }

  lemma {:induction false} KnownRefGrows(env: Env, pk: Packages, facts: FactTable, earlier: Component, path: string, c: Component)
    requires facts.Keys <= pk.Keys && path in pk && path !in facts && IsMerged(env, pk, facts, earlier)
    requires c.purl == earlier.purl == Ref(env, c.facts) && c.facts == earlier.facts
    requires c.optional <==> earlier.optional && pk[path].optional
    requires Lists(c.lockPaths, PathsWithRef(env, facts, c.purl) + {path})
    ensures IsMerged(env, pk, facts[path := c.facts], c)
  {
    HasRefGrows(env, facts, path, c.facts, c.purl);
    assert HasRef(env, facts[path := c.facts], path, c.purl);
  }

  lemma {:induction false} NewRefStarts(env: Env, pk: Packages, facts: FactTable, path: string, c: Component)
    requires facts.Keys <= pk.Keys && path in pk && path !in facts && PathsWithRef(env, facts, c.purl) == {}
    requires c.purl == Ref(env, c.facts) && (c.optional <==> pk[path].optional) && Lists(c.lockPaths, {path})
    ensures IsMerged(env, pk, facts[path := c.facts], c)
  {
    HasRefGrows(env, facts, path, c.facts, c.purl);
    assert HasRef(env, facts[path := c.facts], path, c.purl);
    var more := facts[path := c.facts];
    forall p ensures HasRef(env, more, p, c.purl) <==> p == path {
      assert p !in PathsWithRef(env, facts, c.purl);
    }
    assert PathsWithRef(env, facts[path := c.facts], c.purl) == {path};
  }

  lemma {:induction false} RefsGrow(env: Env, facts: FactTable, path: string, f: Facts)
    requires path !in facts
    ensures Refs(env, facts[path := f]) == Refs(env, facts) + {Ref(env, f)}
  {
    var more := facts[path := f];
    forall r ensures r in Refs(env, more) <==> r in Refs(env, facts) + {Ref(env, f)} {
      if r in Refs(env, facts) {
        var p :| p in facts && Ref(env, facts[p]) == r;
        assert p in more && more[p] == facts[p];
      }
      if r == Ref(env, f) {
        assert path in more && more[path] == f;
      }
    }
  }

  lemma {:induction false} MergedFactsAgree(env: Env, pk: Packages, facts: FactTable, byRef: map<string, Component>)
    requires facts.Keys <= pk.Keys && AllMerged(env, pk, facts, byRef)
    ensures NoConflict(env, facts)
  {
    forall p, q | p in facts && q in facts && Ref(env, facts[p]) == Ref(env, facts[q]) ensures facts[p] == facts[q] {
      var r := Ref(env, facts[p]);
      assert r in Refs(env, facts);
      assert HasRef(env, facts, p, r) && HasRef(env, facts, q, r);
    }
  }

  // ---------- dependencies

  method ResolveOne(env: Env, pk: Packages, facts: FactTable, from: string, name: string) returns (ref: Option<string>)
    ensures ref == TargetRef(env, pk, facts, from, name)
  {
    var target := ResolveDependencyPath(Usable(pk), from, name);
    ref := if target.Some? && target.value in facts then Some(Ref(env, facts[target.value])) else None;
  }

  /** Resolves every dependency name of an entry, in any order. */
  method ResolveAll(env: Env, pk: Packages, facts: FactTable, from: string) returns (refs: set<string>)
    requires from in pk
    ensures refs == TargetRefs(env, pk, facts, from)
  {
    var names, done := DependencyNames(pk[from]), {};
    refs := {};
    while names != {}
      invariant names + done == DependencyNames(pk[from]) && names !! done
      invariant forall t :: t in refs <==> exists d :: d in done && TargetRef(env, pk, facts, from, d) == Some(t)
      decreases names
    {
      var name :| name in names;
      names, done := names - {name}, done + {name};
      var target := ResolveOne(env, pk, facts, from, name);
      if target.Some? { refs := refs + {target.value}; }
    }
    TargetsListed(env, pk, facts, from, refs);
  }

  lemma {:induction false} TargetsListed(env: Env, pk: Packages, facts: FactTable, from: string, refs: set<string>)
    requires from in pk
    requires forall t :: t in refs <==> exists d :: d in DependencyNames(pk[from]) && TargetRef(env, pk, facts, from, d) == Some(t)
    ensures refs == TargetRefs(env, pk, facts, from)
  {
    forall t ensures t in refs <==> t in TargetRefs(env, pk, facts, from) {
      if d :| d in DependencyNames(pk[from]) && TargetRef(env, pk, facts, from, d) == Some(t) {
        assert TargetRef(env, pk, facts, from, d).value == t;
      }
    }
  }

  /** The components with the dependencies found for the first few paths. */
  ghost predicate Linked(env: Env, pk: Packages, facts: FactTable, before: map<string, Component>,
                         byRef: map<string, Component>, paths: set<string>)
    requires facts.Keys <= pk.Keys
  {
    && byRef.Keys == before.Keys
    && forall r :: r in byRef ==>
         byRef[r] == before[r].(dependencies := DependencyRefs(env, pk, facts, paths, r))
  }

  method LinkComponents(env: Env, pk: Packages, facts: FactTable, paths: seq<string>, before: map<string, Component>)
    returns (byRef: map<string, Component>)
    requires IsFactTable(env, pk, facts) && AllMerged(env, pk, facts, before) && Lists(paths, ExternalSet(pk))
    ensures Linked(env, pk, facts, before, byRef, facts.Keys)
  {
    byRef := before;
    LinkedNothing(env, pk, facts, before);
    EarlierAll(paths);
    for i := 0 to |paths|
      invariant Linked(env, pk, facts, before, byRef, Earlier(paths, i))
    {
      var path := paths[i];
      assert path in paths && path in ExternalSet(pk);
      EarlierStep(paths, i);
      byRef := LinkOne(env, pk, facts, before, byRef, Earlier(paths, i), path);
    }
    assert Earlier(paths, |paths|) == facts.Keys by {
      assert forall p :: p in facts <==> p in ExternalSet(pk);
    }
  }

  method LinkOne(env: Env, pk: Packages, facts: FactTable, ghost before: map<string, Component>, byRef: map<string, Component>,
                 ghost done: set<string>, path: string) returns (r: map<string, Component>)
    requires facts.Keys <= pk.Keys && AllMerged(env, pk, facts, before) && Linked(env, pk, facts, before, byRef, done)
    requires path in facts
    ensures Linked(env, pk, facts, before, r, done + {path})
  {
    var ref := Ref(env, facts[path]);
    assert ref in Refs(env, facts);
    var targets := ResolveAll(env, pk, facts, path);
    LinkStep(env, pk, facts, before, byRef, done, path, targets);
    r := byRef[ref := byRef[ref].(dependencies := byRef[ref].dependencies + (targets - {ref}))];
  }

  lemma {:induction false} LinkedAreComponents(env: Env, pk: Packages, facts: FactTable, before: map<string, Component>, byRef: map<string, Component>)
    requires facts.Keys <= pk.Keys && AllMerged(env, pk, facts, before) && Linked(env, pk, facts, before, byRef, facts.Keys)
    ensures byRef.Keys == Refs(env, facts)
    ensures forall r :: r in byRef ==> byRef[r].purl == r && IsComponent(env, pk, facts, byRef[r])
  {
    forall r | r in byRef ensures byRef[r].purl == r && IsMerged(env, pk, facts, byRef[r]) {
      var c, d := byRef[r], before[r];
      assert c.purl == d.purl && c.facts == d.facts && c.optional == d.optional && c.lockPaths == d.lockPaths;
    }
  }

  lemma {:induction false} LinkedNothing(env: Env, pk: Packages, facts: FactTable, before: map<string, Component>)
    requires facts.Keys <= pk.Keys && AllMerged(env, pk, facts, before)
    ensures Linked(env, pk, facts, before, before, {})
  {
    forall r | r in before ensures before[r] == before[r].(dependencies := DependencyRefs(env, pk, facts, {}, r)) {
      assert DependencyRefs(env, pk, facts, {}, r) == {};
    }
  }

  lemma {:induction false} LinkStep(env: Env, pk: Packages, facts: FactTable, before: map<string, Component>,
                                    byRef: map<string, Component>, done: set<string>, path: string, targets: set<string>)
    requires facts.Keys <= pk.Keys && Linked(env, pk, facts, before, byRef, done)
    requires path in facts && Ref(env, facts[path]) in byRef && targets == TargetRefs(env, pk, facts, path)
    ensures var ref := Ref(env, facts[path]);
            Linked(env, pk, facts, before,
                   byRef[ref := byRef[ref].(dependencies := byRef[ref].dependencies + (targets - {ref}))], done + {path})
  {
    var ref := Ref(env, facts[path]);
    forall r | r in byRef
      ensures DependencyRefs(env, pk, facts, done + {path}, r) ==
              DependencyRefs(env, pk, facts, done, r) + if r == ref then targets - {ref} else {}
    {
      DependencyStep(env, pk, facts, done, path, r);
    }
  }

  lemma {:induction false} DependencyStep(env: Env, pk: Packages, facts: FactTable, done: set<string>, path: string, r: string)
    requires facts.Keys <= pk.Keys && path in facts
    ensures DependencyRefs(env, pk, facts, done + {path}, r) ==
            DependencyRefs(env, pk, facts, done, r)
            + if r == Ref(env, facts[path]) then TargetRefs(env, pk, facts, path) - {r} else {}
  {
    assert HasRef(env, facts, path, Ref(env, facts[path]));
    if r != Ref(env, facts[path]) {
      assert !HasRef(env, facts, path, r);
    }
  }

  method RootDependencies(env: Env, lock: Lockfile, facts: FactTable) returns (roots: set<string>)
    requires WellFormed(lock)
    ensures roots == RootRefs(env, lock.packages, facts)
  {
    var pk := lock.packages;
    roots := {};
    for i := 0 to |lock.order|
      invariant forall t :: t in roots <==>
        exists p :: p in lock.order[..i] && IsInternal(pk, p) && t in TargetRefs(env, pk, facts, p)
    {
      var path := lock.order[i];
      assert lock.order[..i + 1] == lock.order[..i] + [path];
      assert path in lock.order;
      if IsInternal(pk, path) {
        var targets := ResolveAll(env, pk, facts, path);
        roots := roots + targets;
      }
    }
    assert lock.order[..|lock.order|] == lock.order;
  }

  // ---------- the search from the root dependencies

  ghost function ComponentGraph(byRef: map<string, Component>): Graph {
    map r | r in byRef :: byRef[r].dependencies
  }

  method InventoryRootRefs(roots: set<string>, byRef: map<string, Component>) returns (reachable: set<string>)
    ensures forall r :: r in reachable <==> Reaches(ComponentGraph(byRef), roots, r)
  {
    ghost var g := ComponentGraph(byRef);
    reachable := roots;
    var queue := AnyListing(roots);
    forall r | r in roots ensures Reaches(g, roots, r) {
      RootReached(g, roots, r);
    }
    while |queue| > 0
      invariant reachable <= roots + Targets(g) && SearchState(g, roots, reachable, queue)
      decreases roots + Targets(g) - reachable, |queue|
    {
      var ref := queue[0];
      ghost var waiting := queue;
      queue := queue[1..];
      assert waiting == [ref] + queue;
      if ref !in byRef {
        continue;
      }
      var seen, rest := reachable, queue;
      reachable, queue := VisitDependencies(g, roots, ref, byRef[ref].dependencies, seen, rest);
      SearchStep(g, roots, seen, ref, rest, reachable, queue);
    }
    forall r | Reaches(g, roots, r) ensures r in reachable {
      ReachedIsInside(g, reachable, roots, r);
    }
  }

  /** All that was reached is reachable, and what was not expanded yet waits in the queue. */
  ghost predicate SearchState(g: Graph, roots: set<string>, reachable: set<string>, queue: seq<string>) {
    && roots <= reachable
    && (forall r :: r in reachable ==> Reaches(g, roots, r))
    && (forall r :: r in queue ==> r in reachable)
    && forall u, v :: u in reachable && u !in queue && Edge(g, u, v) ==> v in reachable
  }

  lemma {:induction false} SearchStep(g: Graph, roots: set<string>, seen: set<string>, ref: string, rest: seq<string>,
                                      reachable: set<string>, queue: seq<string>)
    requires SearchState(g, roots, seen, [ref] + rest) && ref in g
    requires reachable == seen + g[ref] && forall r :: r in reachable ==> Reaches(g, roots, r)
    requires forall r :: r in queue <==> r in rest || (r in g[ref] && r !in seen)
    ensures SearchState(g, roots, reachable, queue)
  {
    assert forall r :: r in [ref] + rest <==> r == ref || r in rest;
  }

  method VisitDependencies(ghost g: Graph, ghost roots: set<string>, ghost ref: string, dependencies: set<string>,
                           before: set<string>, waiting: seq<string>) returns (reachable: set<string>, queue: seq<string>)
    requires ref in g && g[ref] == dependencies && Reaches(g, roots, ref)
    requires before <= roots + Targets(g)
    requires forall r :: r in before ==> Reaches(g, roots, r)
    ensures reachable == before + dependencies && reachable <= roots + Targets(g)
    ensures forall r :: r in reachable ==> Reaches(g, roots, r)
    ensures forall r :: r in queue <==> r in waiting || (r in dependencies && r !in before)
    ensures reachable == before ==> queue == waiting
  {
    var todo := dependencies;
    reachable, queue := before, waiting;
    while todo != {}
      invariant todo <= dependencies && reachable == before + (dependencies - todo)
      invariant reachable <= roots + Targets(g)
      invariant forall r :: r in reachable ==> Reaches(g, roots, r)
      invariant forall r :: r in queue <==> r in waiting || (r in dependencies - todo && r !in before)
      invariant reachable == before ==> queue == waiting
      decreases todo
    {
      var r :| r in todo;
      todo := todo - {r};
      assert Edge(g, ref, r);
      EdgeReached(g, roots, ref, r);
      if r in reachable {
        continue;
      }
      reachable := reachable + {r};
      queue := queue + [r];
    }
  }

  method AnyListing(s: set<string>) returns (xs: seq<string>)
    ensures forall x :: x in xs <==> x in s
    ensures forall i, j :: 0 <= i < j < |xs| ==> xs[i] != xs[j]
  {
    var rest := s;
    xs := [];
    while rest != {}
      invariant rest <= s && forall x :: x in xs <==> x in s - rest
      invariant forall i, j :: 0 <= i < j < |xs| ==> xs[i] != xs[j]
      decreases rest
    {
      var x :| x in rest;
      assert x !in xs;
      rest, xs := rest - {x}, xs + [x];
    }
  }

  method ReachableComponents(byRef: map<string, Component>, reachable: set<string>) returns (components: seq<Component>)
    requires forall r :: r in byRef ==> byRef[r].purl == r
    ensures StrictlySortedBy(components, PurlKey())
    ensures forall c :: c in components <==> c.purl in byRef && byRef[c.purl] == c && c.purl in reachable
  {
    var refs := AnyListing(byRef.Keys);
    var kept: seq<Component> := [];
    for i := 0 to |refs|
      invariant forall c :: c in kept <==> c.purl in refs[..i] && c.purl in byRef && byRef[c.purl] == c && c.purl in reachable
      invariant DistinctKeys(kept, PurlKey())
    {
      assert refs[..i + 1] == refs[..i] + [refs[i]];
      assert refs[i] in refs && refs[i] !in refs[..i];
      if refs[i] in reachable {
        assert forall c :: c in kept ==> c.purl != refs[i];
        kept := kept + [byRef[refs[i]]];
      }
    }
    assert refs[..|refs|] == refs;
    components := SortBy(kept, PurlKey());
    SortIsStrict(kept, PurlKey());
    PermutationMembers(components, kept);
  }

  // ---------- putting the parts together

  lemma {:induction false} RootsAndLinksAreRefs(env: Env, pk: Packages, facts: FactTable, byRef: map<string, Component>)
    requires facts.Keys <= pk.Keys && byRef.Keys == Refs(env, facts)
    requires forall r :: r in byRef ==> byRef[r].dependencies == DependencyRefs(env, pk, facts, facts.Keys, r)
    ensures ComponentGraph(byRef) == RefGraph(env, pk, facts)
    ensures forall r :: Reaches(RefGraph(env, pk, facts), RootRefs(env, pk, facts), r) ==> r in byRef
  {
    var g, roots, all := RefGraph(env, pk, facts), RootRefs(env, pk, facts), Refs(env, facts);
    forall p | p in pk ensures TargetRefs(env, pk, facts, p) <= all {
      TargetsAreRefs(env, pk, facts, p);
    }
    assert ClosedSet(g, all);
    assert roots <= all;
    forall r | Reaches(g, roots, r) ensures r in byRef {
      ReachedIsInside(g, all, roots, r);
    }
  }

  lemma {:induction false} InventoryAssembled(env: Env, pk: Packages, facts: FactTable, byRef: map<string, Component>, inv: Inventory)
    requires facts.Keys <= pk.Keys && inv.rootDependencies == RootRefs(env, pk, facts)
    requires forall r :: r in byRef ==> byRef[r].purl == r && IsComponent(env, pk, facts, byRef[r])
    requires StrictlySortedBy(inv.components, PurlKey())
    requires forall r :: Reaches(RefGraph(env, pk, facts), inv.rootDependencies, r) ==> r in byRef
    requires forall c :: c in inv.components <==>
               c.purl in byRef && byRef[c.purl] == c && Reaches(RefGraph(env, pk, facts), inv.rootDependencies, c.purl)
    ensures IsInventory(env, pk, facts, inv)
  {
    forall r | Reaches(RefGraph(env, pk, facts), inv.rootDependencies, r) ensures exists c :: c in inv.components && c.purl == r {
      assert byRef[r] in inv.components;
    }
  }
}
