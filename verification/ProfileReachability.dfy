/** Inherited test profiles: which suites the public profiles reach, and what is reported
    when inheritance is broken. Base names and coverage ids are trimmed text; a profile keeps its
    suite ids as they are written. */
module ProfileReachability {
  import opened Wrappers
  import opened Graphs
  import opened Sorting

  datatype Profile = Profile(base: string, suites: seq<string>, dynamic: bool)  // base "": extends nothing

  /** None stands for a name that is listed with an empty value. */
  type Profiles = map<string, Option<Profile>>

  datatype Suite = Suite(id: string, coverage: bool)

  datatype Issue = CycleAt(name: string) | MissingProfile(name: string) | NoPublicProfile | Unreachable(suiteId: string)

  predicate Present(ps: Profiles, name: string) {
    name in ps && ps[name].Some?
  }

  function OwnSuites(ps: Profiles, name: string): set<string> {
    if Present(ps, name) then set s | s in ps[name].value.suites else {}
  }

  /** Each present profile points to the profile it extends. */
  function ExtendsGraph(ps: Profiles): Graph {
    map name | name in ps && ps[name].Some? :: if ps[name].value.base == "" then {} else {ps[name].value.base}
  }

  ghost predicate OnChain(ps: Profiles, start: string, name: string) {
    Reaches(ExtendsGraph(ps), {start}, name)
  }

  ghost predicate OnCycle(ps: Profiles, name: string) {
    exists p :: ClosedWalk(ExtendsGraph(ps), p) && p[0] == name
  }

  /** The suites of every profile on the chain that starts at `name`, however the chain ends. */
  ghost function ChainSuites(ps: Profiles, name: string): set<string> {
    set n, s | n in ReachableSet(ExtendsGraph(ps), {name}) && s in OwnSuites(ps, n) :: s
  }

  lemma {:induction false} ChainSuitesMember(ps: Profiles, name: string, s: string)
    ensures s in ChainSuites(ps, name) <==> exists n :: OnChain(ps, name, n) && s in OwnSuites(ps, n)
  {
    if n :| OnChain(ps, name, n) && s in OwnSuites(ps, n) {
      ReachableSetMember(ExtendsGraph(ps), {name}, n);
    }
    if s in ChainSuites(ps, name) {
      var n :| n in ReachableSet(ExtendsGraph(ps), {name}) && s in OwnSuites(ps, n);
      ReachableSetMember(ExtendsGraph(ps), {name}, n);
    }
  }

  /** Unfolding a chain by one profile. */
  lemma {:induction false} ChainStep(ps: Profiles, name: string)
    ensures !Present(ps, name) ==> ChainSuites(ps, name) == {} && forall n :: OnChain(ps, name, n) <==> n == name
    ensures Present(ps, name) && ps[name].value.base == "" ==>
            ChainSuites(ps, name) == OwnSuites(ps, name) && forall n :: OnChain(ps, name, n) <==> n == name
    ensures Present(ps, name) && ps[name].value.base != "" ==>
            && ChainSuites(ps, name) == OwnSuites(ps, name) + ChainSuites(ps, ps[name].value.base)
            && forall n :: OnChain(ps, name, n) <==> n == name || OnChain(ps, ps[name].value.base, n)
  {
    var g := ExtendsGraph(ps);
    forall n {
      ReachesStep(g, name, n);
    }
    if name in g && g[name] == {} {
      assert forall n :: !Reaches(g, {}, n);
    }
    if Present(ps, name) && ps[name].value.base != "" {
      var base := ps[name].value.base;
      assert g[name] == {base};
      assert forall n :: OnChain(ps, name, n) <==> n == name || OnChain(ps, base, n);
      forall s ensures s in ChainSuites(ps, name) <==> s in OwnSuites(ps, name) + ChainSuites(ps, base) {
        ChainSuitesMember(ps, name, s);
        ChainSuitesMember(ps, base, s);
      }
    } else {
      forall s ensures s in ChainSuites(ps, name) <==> s in OwnSuites(ps, name) {
        ChainSuitesMember(ps, name, s);
      }
    }
  }

  ghost predicate ReachesCycle(ps: Profiles, name: string) {
    exists n :: OnChain(ps, name, n) && OnCycle(ps, n)
  }

  /** What is wrong with the chain of `name` has been reported. */
  ghost predicate Reported(ps: Profiles, name: string, issues: seq<Issue>) {
    && (forall n :: OnChain(ps, name, n) && !Present(ps, n) ==> MissingProfile(n) in issues)
    && (ReachesCycle(ps, name) ==> exists n :: OnChain(ps, name, n) && OnCycle(ps, n) && CycleAt(n) in issues)
  }

  /** A report is true: the profile is missing, or lies on a cycle, and a root leads to it. */
  ghost predicate True(ps: Profiles, roots: set<string>, issue: Issue) {
    match issue
    case MissingProfile(n) => !Present(ps, n) && Reaches(ExtendsGraph(ps), roots, n)
    case CycleAt(n) => OnCycle(ps, n) && Reaches(ExtendsGraph(ps), roots, n)
    case _ => false
  }

  lemma {:induction false} ReportedStep(ps: Profiles, name: string, issues: seq<Issue>)
    requires Present(ps, name)
    requires ps[name].value.base != "" ==> Reported(ps, ps[name].value.base, issues)
    ensures Reported(ps, name, issues)
    ensures ps[name].value.base != "" ==> (ReachesCycle(ps, name) <==> ReachesCycle(ps, ps[name].value.base))
    ensures ps[name].value.base == "" ==> !ReachesCycle(ps, name)
  {
    ChainStep(ps, name);
    var g, base := ExtendsGraph(ps), ps[name].value.base;
    if OnCycle(ps, name) {
      var p :| ClosedWalk(g, p) && p[0] == name;
      assert Edge(g, p[0], p[0 + 1]);
      assert p[1] == base && base != "";
      assert WalkFrom(g, {base}, name, p[1..]) by {
        forall i | 0 <= i < |p[1..]| - 1 ensures Edge(g, p[1..][i], p[1..][i + 1]) {
          assert Edge(g, p[i + 1], p[(i + 1) + 1]);
        }
      }
      assert OnChain(ps, base, name);
    }
  }

  // ---------- resolution as a function of the cache

  datatype Resolution = Resolution(suites: set<string>, cache: map<string, set<string>>, issues: seq<Issue>)

  /** What resolving `name` answers, stores and reports, given a cache and the names being resolved. */
  function Resolved(ps: Profiles, cache: map<string, set<string>>, visiting: set<string>, name: string): Resolution
    decreases ps.Keys - visiting
  {
    if name in cache then Resolution(cache[name], cache, [])
    else if name in visiting then Resolution({}, cache, [CycleAt(name)])
    else if !Present(ps, name) then Resolution({}, cache, [MissingProfile(name)])
    else
      var base := ps[name].value.base;
      var inherited := if base == "" then Resolution({}, cache, []) else Resolved(ps, cache, visiting + {name}, base);
      var suites := inherited.suites + OwnSuites(ps, name);
      Resolution(suites, inherited.cache[name := suites], inherited.issues)
  }

  /** Resolving several names in turn with one shared cache. */
  function ResolvedAll(ps: Profiles, names: seq<string>): Resolution {
    if names == [] then Resolution({}, map[], [])
    else
      var before := ResolvedAll(ps, names[..|names| - 1]);
      var last := Resolved(ps, before.cache, {}, names[|names| - 1]);
      Resolution(before.suites + last.suites, last.cache, before.issues + last.issues)
  }

  /** Whoever leads back to a name on a walk never leaves the part of the walk from there on. */
  lemma {:induction false} CycleIsClosed(ps: Profiles, path: seq<string>, j: nat)
    requires Walk(ExtendsGraph(ps), path) && j < |path| && Edge(ExtendsGraph(ps), path[|path| - 1], path[j])
    ensures OnCycle(ps, path[j])
    ensures forall n :: OnChain(ps, path[j], n) ==> n in path[j..]
  {
    var g, name, cycle := ExtendsGraph(ps), path[j], path[j..] + [path[j]];
    forall i | 0 <= i < |cycle| - 1 ensures Edge(g, cycle[i], cycle[i + 1]) {
      if i < |cycle| - 2 { assert Edge(g, path[j + i], path[j + i + 1]); }
    }
    assert ClosedWalk(g, cycle);
    var inside := set v | v in path[j..];
    forall u, v | u in inside && Edge(g, u, v) ensures v in inside {
      var i :| 0 <= i < |path[j..]| && path[j..][i] == u;
      assert Edge(g, cycle[i], cycle[i + 1]);
      assert v == cycle[i + 1];
    }
    assert path[j..][0] == name;
    forall n | OnChain(ps, name, n) ensures n in path[j..] {
      ReachedIsInside(g, inside, {name}, n);
    }
  }

  /** The resolver's shared tables. Resolving does what `Resolved` says, and leaves `visiting` as it was. */
  class Resolver {
    const profiles: Profiles
    var cache: map<string, set<string>>
    var visiting: set<string>
    var issues: seq<Issue>

    constructor (ps: Profiles)
      ensures profiles == ps && cache == map[] && visiting == {} && issues == []
    {
      profiles, cache, visiting, issues := ps, map[], {}, [];
    }

    method Resolve(name: string) returns (suites: set<string>)
      modifies this
      ensures visiting == old(visiting)
      ensures var r := Resolved(profiles, old(cache), old(visiting), name);
              suites == r.suites && cache == r.cache && issues == old(issues) + r.issues
      decreases profiles.Keys - visiting, 1
    {
      if name in cache { return cache[name]; }
      if name in visiting {
        issues := issues + [CycleAt(name)];
        return {};
      }
      if !Present(profiles, name) {
        issues := issues + [MissingProfile(name)];
        return {};
      }
      suites := Expand(name);
    }

    /** Resolves a profile that is present, not cached and not being resolved. */
    method Expand(name: string) returns (suites: set<string>)
      requires Present(profiles, name) && name !in cache && name !in visiting
      modifies this
      ensures visiting == old(visiting)
      ensures var r := Resolved(profiles, old(cache), old(visiting), name);
              suites == r.suites && cache == r.cache && issues == old(issues) + r.issues
      decreases profiles.Keys - visiting, 0
    {
      visiting := visiting + {name};
      suites := {};
      var base := profiles[name].value.base;
      if base != "" { suites := Resolve(base); }
      suites := suites + set s | s in profiles[name].value.suites;
      visiting := visiting - {name};
      cache := cache[name := suites];
    }
  }

  // ---------- what resolution keeps

  /** Cached sets never hold too much, and are exact unless the chain runs into a cycle. What
      they may lack is in `covered`, and what broke their chains is in `issues`, all of which are true. */
  ghost predicate Sound(ps: Profiles, roots: set<string>, cache: map<string, set<string>>, covered: set<string>, issues: seq<Issue>) {
    && (forall x :: x in cache ==> Stored(ps, x, cache[x], covered, issues))
    && forall issue :: issue in issues ==> True(ps, roots, issue)
  }

  ghost predicate Stored(ps: Profiles, x: string, suites: set<string>, covered: set<string>, issues: seq<Issue>) {
    && Present(ps, x)
    && suites <= ChainSuites(ps, x) <= covered
    && (!ReachesCycle(ps, x) ==> suites == ChainSuites(ps, x))
    && Reported(ps, x, issues)
  }

  /** The names being resolved, outermost first, form a walk that the next name continues. */
  ghost predicate PathTo(ps: Profiles, roots: set<string>, path: seq<string>, name: string) {
    && (path != [] ==> Walk(ExtendsGraph(ps), path) && Edge(ExtendsGraph(ps), path[|path| - 1], name))
    && (forall v :: v in path ==> Present(ps, v))
    && Reaches(ExtendsGraph(ps), roots, name)
  }

  ghost function PathSuites(ps: Profiles, path: seq<string>): set<string> {
    set v, s | v in path && s in OwnSuites(ps, v) :: s
  }

  /** The suites found for `name` are on its chain; what they lack belongs to a profile still being
      resolved, or was already covered; and they are exact unless there is a cycle. */
  ghost predicate Answers(ps: Profiles, name: string, path: seq<string>, covered: set<string>, suites: set<string>) {
    && suites <= ChainSuites(ps, name) <= suites + PathSuites(ps, path) + covered
    && (!ReachesCycle(ps, name) ==> suites == ChainSuites(ps, name))
  }

  lemma {:induction false} ReportedMore(ps: Profiles, name: string, found: seq<Issue>, more: seq<Issue>)
    requires Reported(ps, name, found)
    ensures Reported(ps, name, found + more)
  {
  }

  lemma {:induction false} SoundMore(ps: Profiles, roots: set<string>, cache: map<string, set<string>>, covered: set<string>,
                                     issues: seq<Issue>, wider: set<string>, more: seq<Issue>)
    requires Sound(ps, roots, cache, covered, issues) && covered <= wider
    requires forall issue :: issue in more ==> True(ps, roots, issue)
    ensures Sound(ps, roots, cache, wider, issues + more)
  {
    forall x | x in cache ensures Stored(ps, x, cache[x], wider, issues + more) {
      ReportedMore(ps, x, issues, more);
    }
  }

  /** The suites inherited from the base and the profile's own make up its chain. */
  lemma {:induction false} InheritedAndOwn(ps: Profiles, name: string, path: seq<string>, covered: set<string>, inherited: set<string>)
    requires Present(ps, name)
    requires var base := ps[name].value.base;
             if base == "" then inherited == {} else Answers(ps, base, path + [name], covered, inherited)
    ensures Answers(ps, name, path, covered, inherited + OwnSuites(ps, name))
  {
    ChainStep(ps, name);
    assert PathSuites(ps, path + [name]) == PathSuites(ps, path) + OwnSuites(ps, name);
    if ps[name].value.base != "" && ReachesCycle(ps, ps[name].value.base) {
      assert ReachesCycle(ps, name);
    }
  }

  lemma {:induction false} ExtendPath(ps: Profiles, roots: set<string>, path: seq<string>, name: string)
    requires PathTo(ps, roots, path, name) && Present(ps, name) && ps[name].value.base != ""
    ensures PathTo(ps, roots, path + [name], ps[name].value.base)
  {
    var g, longer := ExtendsGraph(ps), path + [name];
    forall i | 0 <= i < |longer| - 1 ensures Edge(g, longer[i], longer[i + 1]) {
      if i < |path| - 1 { assert Edge(g, path[i], path[i + 1]); }
    }
    EdgeReached(g, roots, name, ps[name].value.base);
  }

  /** A name met again while it is being resolved lies on a cycle, and its chain is part of the path. */
  lemma {:induction false} RepeatOnPath(ps: Profiles, roots: set<string>, path: seq<string>, name: string)
    requires PathTo(ps, roots, path, name) && name in path
    ensures True(ps, roots, CycleAt(name)) && ReachesCycle(ps, name)
    ensures ChainSuites(ps, name) <= PathSuites(ps, path)
    ensures Reported(ps, name, [CycleAt(name)])
  {
    var j :| 0 <= j < |path| && path[j] == name;
    CycleIsClosed(ps, path, j);
    RootReached(ExtendsGraph(ps), {name}, name);
    forall n | OnChain(ps, name, n) ensures n in path {
      assert n in path[j..];
    }
    forall s | s in ChainSuites(ps, name) ensures s in PathSuites(ps, path) {
      ChainSuitesMember(ps, name, s);
    }
  }

  lemma {:induction false} MissingHasNoCycle(ps: Profiles, name: string)
    requires !Present(ps, name)
    ensures !ReachesCycle(ps, name) && ChainSuites(ps, name) == {} && Reported(ps, name, [MissingProfile(name)])
  {
    ChainStep(ps, name);
    forall p | ClosedWalk(ExtendsGraph(ps), p) ensures p[0] != name {
      assert Edge(ExtendsGraph(ps), p[0], p[0 + 1]);
    }
  }

  /** What holds after resolving `name`. */
  ghost predicate Settled(ps: Profiles, roots: set<string>, path: seq<string>, covered: set<string>, found: seq<Issue>,
                          name: string, r: Resolution) {
    && Sound(ps, roots, r.cache, covered + ChainSuites(ps, name), found + r.issues)
    && Reported(ps, name, found + r.issues)
    && Answers(ps, name, path, covered, r.suites)
  }

  lemma {:induction false} ReportedBefore(ps: Profiles, name: string, found: seq<Issue>, more: seq<Issue>)
    requires Reported(ps, name, more)
    ensures Reported(ps, name, found + more)
  {
  }

  /** Resolving keeps the tables sound, answers within bounds and reports what is wrong. */
  lemma {:induction false} ResolvedIsSound(ps: Profiles, roots: set<string>, cache: map<string, set<string>>, path: seq<string>,
                                           covered: set<string>, found: seq<Issue>, name: string)
    requires Sound(ps, roots, cache, covered, found) && PathTo(ps, roots, path, name)
    ensures Settled(ps, roots, path, covered, found, name, Resolved(ps, cache, (set v | v in path), name))
    decreases ps.Keys - (set v | v in path), 1
  {
    var visiting := set v | v in path;
    var r := Resolved(ps, cache, visiting, name);
    if name in cache {
      assert Stored(ps, name, cache[name], covered, found);
      SoundMore(ps, roots, cache, covered, found, covered + ChainSuites(ps, name), []);
      assert found + [] == found;
    } else if name in visiting {
      RepeatOnPath(ps, roots, path, name);
      SoundMore(ps, roots, cache, covered, found, covered + ChainSuites(ps, name), r.issues);
      ReportedBefore(ps, name, found, r.issues);
    } else if !Present(ps, name) {
      MissingHasNoCycle(ps, name);
      SoundMore(ps, roots, cache, covered, found, covered + ChainSuites(ps, name), r.issues);
      ReportedBefore(ps, name, found, r.issues);
    } else {
      ExpandedIsSound(ps, roots, cache, path, covered, found, name);
    }
  }

  lemma {:induction false} ExpandedIsSound(ps: Profiles, roots: set<string>, cache: map<string, set<string>>, path: seq<string>,
                                           covered: set<string>, found: seq<Issue>, name: string)
    requires Sound(ps, roots, cache, covered, found) && PathTo(ps, roots, path, name)
    requires name !in cache && name !in path && Present(ps, name)
    ensures Settled(ps, roots, path, covered, found, name, Resolved(ps, cache, (set v | v in path), name))
    decreases ps.Keys - (set v | v in path), 0
  {
    var visiting, base := (set v | v in path), ps[name].value.base;
    var inherited := Resolution({}, cache, []);
    assert found + [] == found;
    if base != "" {
      assert (set v | v in path + [name]) == visiting + {name};
      ExtendPath(ps, roots, path, name);
      ResolvedIsSound(ps, roots, cache, path + [name], covered, found, base);
      inherited := Resolved(ps, cache, visiting + {name}, base);
    }
    ReportedStep(ps, name, found + inherited.issues);
    InheritedAndOwn(ps, name, path, covered, inherited.suites);
    ChainStep(ps, name);
    var suites := inherited.suites + OwnSuites(ps, name);
    StoreIsSound(ps, roots, inherited.cache, if base == "" then covered else covered + ChainSuites(ps, base),
                 covered + ChainSuites(ps, name), found + inherited.issues, name, suites);
  }

  lemma {:induction false} StoreIsSound(ps: Profiles, roots: set<string>, cache: map<string, set<string>>, covered: set<string>,
                                        wider: set<string>, issues: seq<Issue>, name: string, suites: set<string>)
    requires Sound(ps, roots, cache, covered, issues) && covered <= wider && Stored(ps, name, suites, wider, issues)
    ensures Sound(ps, roots, cache[name := suites], wider, issues)
  {
  }

  // ---------- the whole check

  datatype Registry = Registry(names: seq<string>, profiles: Profiles, suites: seq<Suite>)

  /** The names are the keys of the profile table, in their listed order. */
  ghost predicate WellFormed(r: Registry) {
    && r.profiles.Keys == (set n | n in r.names)
    && forall i, j :: 0 <= i < j < |r.names| ==> r.names[i] != r.names[j]
  }

  const PUBLIC_SUFFIX := "-public"

  predicate IsPublic(ps: Profiles, name: string) {
    && |PUBLIC_SUFFIX| <= |name| && name[|name| - |PUBLIC_SUFFIX|..] == PUBLIC_SUFFIX
    && name in ps && !(ps[name].Some? && ps[name].value.dynamic)
  }

  /** A profile is public exactly if it is declared, its name ends in -public and it is not a dynamic one. */
  lemma {:induction false} PublicExactly(ps: Profiles, name: string)
    ensures IsPublic(ps, name) <==>
            && name in ps && (exists front :: name == front + "-public")
            && forall profile :: ps[name] == Some(profile) ==> !profile.dynamic
  {
    if IsPublic(ps, name) {
      var front := name[..|name| - |PUBLIC_SUFFIX|];
      assert name == front + "-public";
    }
    if front :| name == front + "-public" {
      assert |PUBLIC_SUFFIX| == 7 && name[|front|..] == "-public";
    }
  }

  ghost function PublicNames(ps: Profiles): set<string> {
    set n | n in ps && IsPublic(ps, n)
  }

  /** The union of the suites on the chains of all public profiles. */
  ghost function PublicSuites(ps: Profiles): set<string> {
    set n, s | n in PublicNames(ps) && s in ChainSuites(ps, n) :: s
  }

  function CoverageIds(suites: seq<Suite>): (ids: seq<string>)
    ensures forall id :: id in ids <==> id != "" && Suite(id, true) in suites
  {
    if suites == [] then []
    else
      var front, last := CoverageIds(suites[..|suites| - 1]), suites[|suites| - 1];
      assert suites == suites[..|suites| - 1] + [last];
      if last.coverage && last.id != "" then front + [last.id] else front
  }

  function PublicOnly(ps: Profiles, names: seq<string>): (r: seq<string>)
    ensures forall n :: n in r <==> n in names && IsPublic(ps, n)
  {
    if names == [] then []
    else
      var front, last := PublicOnly(ps, names[..|names| - 1]), names[|names| - 1];
      assert names == names[..|names| - 1] + [last];
      if IsPublic(ps, last) then front + [last] else front
  }

  function PublicList(r: Registry): seq<string> {
    SortBy(PublicOnly(r.profiles, r.names), Itself())
  }

  lemma {:induction false} PublicListHolds(r: Registry)
    requires WellFormed(r)
    ensures forall n :: n in PublicList(r) <==> n in PublicNames(r.profiles)
  {
    PermutationMembers(PublicList(r), PublicOnly(r.profiles, r.names));
    forall n | n in r.profiles ensures n in r.names {
      assert n in set m | m in r.names;
    }
  }

  method PublicProfileNames(r: Registry) returns (names: seq<string>)
    requires WellFormed(r)
    ensures names == PublicList(r) && SortedBy(names, Itself())
    ensures forall n :: n in names <==> n in PublicNames(r.profiles)
  {
    names := [];
    for i := 0 to |r.names|
      invariant names == PublicOnly(r.profiles, r.names[..i])
    {
      assert r.names[..i + 1][..i] == r.names[..i];
      if IsPublic(r.profiles, r.names[i]) { names := names + [r.names[i]]; }
    }
    assert r.names[..|r.names|] == r.names;
    names := SortBy(names, Itself());
    PublicListHolds(r);
  }

  /** Resolving every public profile with one shared cache reaches exactly the union of their
      chains, whatever partial sets the cache holds. */
  method ReachablePublicSuites(ps: Profiles, names: seq<string>) returns (reachable: set<string>, issues: seq<Issue>)
    requires forall n :: n in names <==> n in PublicNames(ps)
    ensures reachable == PublicSuites(ps)
    ensures forall n :: n in PublicNames(ps) ==> Reported(ps, n, issues)
    ensures forall issue :: issue in issues ==> True(ps, PublicNames(ps), issue)
    ensures reachable == ResolvedAll(ps, names).suites && issues == ResolvedAll(ps, names).issues
  {
    var resolver := new Resolver(ps);
    reachable := {};
    for i := 0 to |names|
      invariant Resolution(reachable, resolver.cache, resolver.issues) == ResolvedAll(ps, names[..i])
    {
      assert names[..i + 1][..i] == names[..i];
      resolver.visiting := {};
      var found := resolver.Resolve(names[i]);
      reachable := reachable + found;
    }
    assert names[..|names|] == names;
    issues := resolver.issues;
    AllResolved(ps, PublicNames(ps), names);
    PublicSuitesListed(ps, names);
  }

  /** What holds once all of `names` are resolved: the union is exactly that of their chains. */
  ghost predicate AllSettled(ps: Profiles, roots: set<string>, names: seq<string>, r: Resolution) {
    && Sound(ps, roots, r.cache, r.suites, r.issues)
    && r.suites == SuitesOf(ps, names)
    && forall name :: name in names ==> Reported(ps, name, r.issues)
  }

  lemma {:induction false} OneMoreSettled(ps: Profiles, roots: set<string>, front: seq<string>, name: string,
                                          before: Resolution, last: Resolution)
    requires AllSettled(ps, roots, front, before)
    requires Settled(ps, roots, [], before.suites, before.issues, name, last)
    ensures AllSettled(ps, roots, front + [name], Resolution(before.suites + last.suites, last.cache, before.issues + last.issues))
  {
    assert PathSuites(ps, []) == {};
    assert before.suites + last.suites == before.suites + ChainSuites(ps, name);
    assert SuitesOf(ps, front + [name]) == SuitesOf(ps, front) + ChainSuites(ps, name);
    forall m | m in front ensures Reported(ps, m, before.issues + last.issues) {
      ReportedMore(ps, m, before.issues, last.issues);
    }
  }

  /** After resolving the names in turn, the union is exactly that of their chains, whatever the cache holds. */
  lemma {:induction false} AllResolved(ps: Profiles, roots: set<string>, names: seq<string>)
    requires forall name :: name in names ==> name in roots
    ensures AllSettled(ps, roots, names, ResolvedAll(ps, names))
  {
    if names != [] {
      var front, name := names[..|names| - 1], names[|names| - 1];
      AllResolved(ps, roots, front);
      var before, path: seq<string> := ResolvedAll(ps, front), [];
      RootReached(ExtendsGraph(ps), roots, name);
      ResolvedIsSound(ps, roots, before.cache, path, before.suites, before.issues, name);
      assert (set v | v in path) == {};
      OneMoreSettled(ps, roots, front, name, before, Resolved(ps, before.cache, {}, name));
      assert names == front + [name];
    }
  }

  ghost function SuitesOf(ps: Profiles, names: seq<string>): set<string> {
    set n, s | n in names && s in ChainSuites(ps, n) :: s
  }

  /** What the check may answer: each kind of issue occurs exactly when it is due, and none twice. */
  ghost predicate IssueReport(r: Registry, issues: seq<Issue>) {
    var ps, roots, coverage := r.profiles, PublicNames(r.profiles), CoverageIds(r.suites);
    && (forall i, j :: 0 <= i < j < |issues| ==> issues[i] != issues[j])
    && if roots == {} && coverage != [] then issues == [NoPublicProfile]
       else
         && NoPublicProfile !in issues
         && (forall n :: n in roots ==> Reported(ps, n, issues))
         && (forall issue :: issue in issues && !issue.Unreachable? ==> True(ps, roots, issue))
         && forall id :: Unreachable(id) in issues <==> id in coverage && id !in PublicSuites(ps)
  }

  function UnreachableOf(coverage: seq<string>, reachable: set<string>): (issues: seq<Issue>)
    ensures forall issue :: issue in issues <==>
              issue.Unreachable? && issue.suiteId in coverage && issue.suiteId !in reachable
  {
    if coverage == [] then []
    else
      var front, last := UnreachableOf(coverage[..|coverage| - 1], reachable), coverage[|coverage| - 1];
      assert coverage == coverage[..|coverage| - 1] + [last];
      if last !in reachable then front + [Unreachable(last)] else front
  }

  /** Each issue at its first place. */
  function Unique(issues: seq<Issue>): (unique: seq<Issue>)
    ensures forall issue :: issue in unique <==> issue in issues
    ensures forall i, j :: 0 <= i < j < |unique| ==> unique[i] != unique[j]
  {
    if issues == [] then []
    else
      var front, last := Unique(issues[..|issues| - 1]), issues[|issues| - 1];
      assert issues == issues[..|issues| - 1] + [last];
      if last in front then front else front + [last]
  }

  /** All issues in order: what resolving the sorted public profiles reports, then the unreachable suites by id. */
  function IssuesOf(r: Registry): seq<Issue> {
    var resolved := ResolvedAll(r.profiles, PublicList(r));
    var coverage := SortBy(CoverageIds(r.suites), Itself());
    if |coverage| > 0 && |PublicList(r)| == 0 then resolved.issues + [NoPublicProfile]
    else Unique(resolved.issues + UnreachableOf(coverage, resolved.suites))
  }

  method TestSuiteReachabilityIssues(r: Registry) returns (issues: seq<Issue>)
    requires WellFormed(r)
    ensures issues == IssuesOf(r)
    ensures IssueReport(r, issues)
  {
    var names := PublicProfileNames(r);
    var reachable, found := ReachablePublicSuites(r.profiles, names);
    var coverage := SortBy(CoverageIds(r.suites), Itself());
    IssuesMeetReport(r);
    if |coverage| > 0 && |names| == 0 {
      return found + [NoPublicProfile];
    }
    var unreachable := UnreachableIssues(coverage, reachable);
    issues := WithoutRepeats(found + unreachable);
  }

  lemma {:induction false} FoundAndUnreachable(r: Registry, found: seq<Issue>, unreachable: seq<Issue>, issues: seq<Issue>)
    requires PublicNames(r.profiles) != {} || CoverageIds(r.suites) == []
    requires forall n :: n in PublicNames(r.profiles) ==> Reported(r.profiles, n, found)
    requires forall issue :: issue in found ==> True(r.profiles, PublicNames(r.profiles), issue)
    requires forall issue :: issue in unreachable <==>
               issue.Unreachable? && issue.suiteId in CoverageIds(r.suites) && issue.suiteId !in PublicSuites(r.profiles)
    requires forall issue :: issue in issues <==> issue in found || issue in unreachable
    requires forall i, j :: 0 <= i < j < |issues| ==> issues[i] != issues[j]
    ensures IssueReport(r, issues)
  {
    SameReports(r.profiles, PublicNames(r.profiles), found, issues);
    forall id ensures Unreachable(id) in issues <==> id in CoverageIds(r.suites) && id !in PublicSuites(r.profiles) {
      assert Unreachable(id) !in found;
    }
  }

  lemma {:induction false} IssuesMeetReport(r: Registry)
    requires WellFormed(r)
    ensures IssueReport(r, IssuesOf(r))
  {
    var ps, roots, names := r.profiles, PublicNames(r.profiles), PublicList(r);
    var resolved, coverage := ResolvedAll(ps, names), SortBy(CoverageIds(r.suites), Itself());
    PublicListHolds(r);
    PermutationMembers(coverage, CoverageIds(r.suites));
    AllResolved(ps, roots, names);
    PublicSuitesListed(ps, names);
    NoNames(names, roots);
    assert coverage == [] <==> CoverageIds(r.suites) == [];
    if coverage != [] && names == [] {
      NothingFoundFromNowhere(ps, resolved.issues);
    } else {
      var unreachable := UnreachableOf(coverage, resolved.suites);
      FoundAndUnreachable(r, resolved.issues, unreachable, Unique(resolved.issues + unreachable));
    }
  }

  lemma {:induction false} NoNames(names: seq<string>, roots: set<string>)
    requires forall n :: n in names <==> n in roots
    ensures names == [] <==> roots == {}
  {
    if names != [] { assert names[0] in names; }
  }

  lemma {:induction false} PublicSuitesListed(ps: Profiles, names: seq<string>)
    requires forall n :: n in names <==> n in PublicNames(ps)
    ensures SuitesOf(ps, names) == PublicSuites(ps)
  {
  }

  lemma {:induction false} SameReports(ps: Profiles, roots: set<string>, found: seq<Issue>, issues: seq<Issue>)
    requires forall n :: n in roots ==> Reported(ps, n, found)
    requires forall issue :: issue in found ==> issue in issues
    ensures forall n :: n in roots ==> Reported(ps, n, issues)
  {
  }

  method UnreachableIssues(coverage: seq<string>, reachable: set<string>) returns (issues: seq<Issue>)
    ensures issues == UnreachableOf(coverage, reachable)
  {
    issues := [];
    for i := 0 to |coverage|
      invariant issues == UnreachableOf(coverage[..i], reachable)
    {
      assert coverage[..i + 1][..i] == coverage[..i];
      if coverage[i] !in reachable {
        issues := issues + [Unreachable(coverage[i])];
      }
    }
    assert coverage[..|coverage|] == coverage;
  }

  lemma {:induction false} NothingFoundFromNowhere(ps: Profiles, found: seq<Issue>)
    requires PublicNames(ps) == {} && forall issue :: issue in found ==> True(ps, PublicNames(ps), issue)
    ensures found == []
  {
    if found != [] {
      assert found[0] in found;
      NothingReachedFromNowhere(ps, found[0]);
    }
  }

  lemma {:induction false} NothingReachedFromNowhere(ps: Profiles, issue: Issue)
    ensures !True(ps, {}, issue)
  {
    assert forall n :: !Reaches(ExtendsGraph(ps), {}, n);
  }

  method WithoutRepeats(issues: seq<Issue>) returns (unique: seq<Issue>)
    ensures unique == Unique(issues)
  {
    unique := [];
    for i := 0 to |issues|
      invariant unique == Unique(issues[..i])
    {
      assert issues[..i + 1][..i] == issues[..i];
      if issues[i] !in unique { unique := unique + [issues[i]]; }
    }
    assert issues[..|issues|] == issues;
  }

  /** The check is clean exactly when every public chain ends, meets no missing profile and no
      cycle, and together the chains hold every coverage suite. */
  lemma {:induction false} CleanExactly(r: Registry, issues: seq<Issue>)
    requires IssueReport(r, issues)
    ensures issues == [] <==>
            && (PublicNames(r.profiles) == {} ==> CoverageIds(r.suites) == [])
            && (forall n :: n in PublicNames(r.profiles) ==>
                  !ReachesCycle(r.profiles, n) && forall m :: OnChain(r.profiles, n, m) ==> Present(r.profiles, m))
            && (forall id :: id in CoverageIds(r.suites) ==> id in PublicSuites(r.profiles))
  {
    var ps, roots, coverage := r.profiles, PublicNames(r.profiles), CoverageIds(r.suites);
    if issues == [] {
      forall id | id in coverage ensures id in PublicSuites(ps) {
        assert Unreachable(id) !in issues;
      }
    } else if !(roots == {} && coverage != []) {
      assert issues[0] in issues;
      if !issues[0].Unreachable? {
        TrueIssueIsOnPublicChain(ps, roots, issues[0]);
      }
    }
  }

  lemma {:induction false} TrueIssueIsOnPublicChain(ps: Profiles, roots: set<string>, issue: Issue)
    requires True(ps, roots, issue)
    ensures exists n :: n in roots &&
              (ReachesCycle(ps, n) || exists m :: OnChain(ps, n, m) && !Present(ps, m))
  {
    var p :| WalkFrom(ExtendsGraph(ps), roots, issue.name, p);
    assert WalkFrom(ExtendsGraph(ps), {p[0]}, issue.name, p);
    assert OnChain(ps, p[0], issue.name);
  }
}
