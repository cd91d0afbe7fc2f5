/** The CycloneDX 1.5 bill of materials made from a dependency inventory. */
module BillOfMaterials {
  import opened Wrappers
  import opened Graphs
  import opened ModuleResolution
  import opened Sorting
  import opened Text
  import opened SupplyChain
  import opened SupplyChainInventory

  datatype CdxComponent = CdxComponent(
    bomRef: string,
    group: Option<string>,
    name: string,
    version: string,
    optionalScope: bool,
    hash: Digest,
    license: string
  )

  datatype Dependency = Dependency(ref: string, dependsOn: seq<string>)

  datatype Sbom = Sbom(root: CdxRoot, components: seq<CdxComponent>, dependencies: seq<Dependency>)

  datatype CdxRoot = CdxRoot(bomRef: string, name: string, version: string, license: string)

  /** The group and the bare name of a package name. A scope without a slash is cut as the code cuts it: the
      group lacks the last letter, and the bare name is the whole. */
  function Coordinates(name: string): (Option<string>, string) {
    if !StartsWith(name, "@") then (None, name)
    else
      var parts := Split(name, '/');
      if |parts| == 1 then (Some(name[..|name| - 1]), name) else (Some(parts[0]), Join(parts[1..], '/'))
  }

  function Joined(coordinates: (Option<string>, string)): string {
    if coordinates.0.Some? then coordinates.0.value + "/" + coordinates.1 else coordinates.1
  }

  /** Coordinates put together give the name back exactly if a scoped name has its slash. */
  lemma {:induction false} CoordinatesRoundTrip(name: string)
    ensures Joined(Coordinates(name)) == name <==> !StartsWith(name, "@") || '/' in name
  {
    JoinSplit(name, '/');
    var parts := Split(name, '/');
    if StartsWith(name, "@") && '/' !in name {
      assert |Joined(Coordinates(name))| == 2 * |name|;
    }
  }

  /** The failing side: a scope alone. */
  lemma {:induction false} BareScope()
    ensures Coordinates("@x") == (Some("@"), "@x") && Joined(Coordinates("@x")) == "@/@x"
  {
    assert '/' !in "@x";
    assert |Split("@x", '/')| == 1;
  }

  function ToCdx(c: Component): CdxComponent {
    var (group, name) := Coordinates(c.facts.name);
    CdxComponent(c.purl, if group == Some("") then None else group, name, c.facts.version, c.optional, c.facts.digest, c.facts.license)
  }

  function RefKey(): Dependency -> string { (d: Dependency) => d.ref }

  // ---------- the sorted listing of a set

  lemma {:induction false} ListingExists(s: set<string>) returns (xs: seq<string>)
    ensures Lists(xs, s)
  {
    if s == {} {
      xs := [];
    } else {
      var x :| x in s;
      var rest := ListingExists(s - {x});
      xs := SortBy(rest + [x], Itself());
      PermutationMembers(xs, rest + [x]);
      forall i, j | 0 <= i < j < |rest + [x]| ensures (rest + [x])[i] != (rest + [x])[j] {
        if j < |rest| {
          assert Less(Itself()(rest[i]), Itself()(rest[j]));
          LessIrreflexive(rest[i]);
        } else {
          assert rest[i] in rest && rest[i] in s - {x};
        }
      }
      SortIsStrict(rest + [x], Itself());
    }
  }

  lemma {:induction false} SomeListing(s: set<string>)
    ensures exists xs :: Lists(xs, s)
  {
    var xs := ListingExists(s);
  }

  ghost function Listing(s: set<string>): (xs: seq<string>)
    ensures Lists(xs, s)
  {
    SomeListing(s);
    var ys :| Lists(ys, s);
    ys
  }

  method SortedListing(s: set<string>) returns (xs: seq<string>)
    ensures xs == Listing(s)
  {
    var any := AnyListing(s);
    xs := SortBy(any, Itself());
    SortIsStrict(any, Itself());
    PermutationMembers(xs, any);
    ListsUnique(xs, Listing(s), s);
  }

  // ---------- the bill of materials

  ghost function DependencyRecords(components: seq<Component>, n: nat): (r: seq<Dependency>)
    requires n <= |components|
    ensures |r| == n
    ensures forall i :: 0 <= i < n ==> r[i] == Dependency(components[i].purl, Listing(components[i].dependencies))
  {
    if n == 0 then []
    else
      DependencyRecords(components, n - 1) + [Dependency(components[n - 1].purl, Listing(components[n - 1].dependencies))]
  }

  function CdxComponents(components: seq<Component>, n: nat): (r: seq<CdxComponent>)
    requires n <= |components|
    ensures |r| == n && forall i :: 0 <= i < n ==> r[i] == ToCdx(components[i])
  {
    if n == 0 then [] else CdxComponents(components, n - 1) + [ToCdx(components[n - 1])]
  }

  ghost function Records(root: CdxRoot, inv: Inventory): (r: seq<Dependency>)
    ensures |r| == |inv.components| + 1
  {
    [Dependency(root.bomRef, Listing(inv.rootDependencies))] + DependencyRecords(inv.components, |inv.components|)
  }

  ghost function SbomOf(root: CdxRoot, inv: Inventory): Sbom {
    Sbom(root, CdxComponents(inv.components, |inv.components|), SortBy(Records(root, inv), RefKey()))
  }

  function FirstGiven(a: string, b: string): string {
    if a != "" then a else b
  }

  /** The root's name and version are the root package's own, or failing that the file's. */
  function RootOf(env: Env, lock: Lockfile): Option<CdxRoot> {
    if "" !in lock.packages then None
    else
      var own := lock.packages[""];
      var name, version := FirstGiven(own.name, lock.name), FirstGiven(own.version, lock.version);
      if !IsMetadata(name) || !IsMetadata(version) || !IsMetadata(own.license) then None
      else Some(CdxRoot(Purl(env, name, version), name, version, own.license))
  }

  method BuildSbom(env: Env, lock: Lockfile, inv: Inventory) returns (sbom: Option<Sbom>)
    ensures sbom.Some? <==> RootOf(env, lock).Some?
    ensures sbom.Some? ==> sbom.value == SbomOf(RootOf(env, lock).value, inv)
  {
    if "" !in lock.packages { return None; }
    var own := lock.packages[""];
    var name, version := FirstGiven(own.name, lock.name), FirstGiven(own.version, lock.version);
    if !IsMetadata(name) || !IsMetadata(version) || !IsMetadata(own.license) { return None; }
    var root := CdxRoot(Purl(env, name, version), name, version, own.license);
    var rootListing := SortedListing(inv.rootDependencies);
    var records: seq<Dependency>, components: seq<CdxComponent> := [], [];
    for i := 0 to |inv.components|
      invariant records == DependencyRecords(inv.components, i)
      invariant components == CdxComponents(inv.components, i)
    {
      var listing := SortedListing(inv.components[i].dependencies);
      records := records + [Dependency(inv.components[i].purl, listing)];
      components := components + [ToCdx(inv.components[i])];
    }
    sbom := Some(Sbom(root, components, SortBy([Dependency(root.bomRef, rootListing)] + records, RefKey())));
  }

  /** The bill of a lock file, given what normalizing it answered. */
  ghost function Bill(env: Env, lock: Lockfile, result: Result<Inventory, Error>): Option<Sbom> {
    if result.Err? || RootOf(env, lock).None? then None else Some(SbomOf(RootOf(env, lock).value, result.value))
  }

  /** Normalizes a lock file and builds its bill: there is one exactly if the lock file is acceptable and its
      root has usable metadata. */
  method GenerateBill(env: Env, lock: Lockfile) returns (sbom: Option<Sbom>)
    requires WellFormed(lock)
    ensures sbom.Some? <==> Acceptable(env, lock) && RootOf(env, lock).Some?
    ensures exists result :: Outcome(env, lock, result) && sbom == Bill(env, lock, result)
  {
    var result := NormalizeLockfile(env, lock);
    if result.Err? { return None; }
    sbom := BuildSbom(env, lock, result.value);
    assert sbom == Bill(env, lock, result);
  }

  lemma {:induction false} RecordReferences(root: CdxRoot, inv: Inventory, listed: set<string>, d: Dependency, x: string)
    requires inv.rootDependencies <= listed && forall c :: c in inv.components ==> c.dependencies <= listed
    requires d in Records(root, inv) && x in d.dependsOn
    ensures x in listed
  {
    var records := Records(root, inv);
    var i :| 0 <= i < |records| && records[i] == d;
    if i > 0 {
      assert d == DependencyRecords(inv.components, |inv.components|)[i - 1];
      assert inv.components[i - 1] in inv.components;
    }
  }

  lemma {:induction false} ListedIsBomRef(components: seq<Component>, x: string)
    requires x in set c | c in components :: c.purl
    ensures exists c :: c in CdxComponents(components, |components|) && c.bomRef == x
  {
    var c :| c in components && c.purl == x;
    var k :| 0 <= k < |components| && components[k] == c;
    assert ToCdx(c) == CdxComponents(components, |components|)[k];
  }

  lemma {:induction false} BomRefsIncrease(components: seq<Component>)
    requires StrictlySortedBy(components, PurlKey())
    ensures var cdx := CdxComponents(components, |components|);
            forall i, j :: 0 <= i < j < |cdx| ==> Less(cdx[i].bomRef, cdx[j].bomRef)
  {
    forall i, j | 0 <= i < j < |components| ensures Less(ToCdx(components[i]).bomRef, ToCdx(components[j]).bomRef) {
      assert Less(PurlKey()(components[i]), PurlKey()(components[j]));
    }
  }

  /** Every dependsOn entry of the bill, of the root as of a component, is the bom-ref of a
      listed component; bom-refs are strictly increasing. */
  lemma {:induction false} SbomReferencesResolve(env: Env, pk: Packages, facts: FactTable, root: CdxRoot, inv: Inventory)
    requires facts.Keys <= pk.Keys && IsInventory(env, pk, facts, inv)
    ensures var sbom := SbomOf(root, inv);
            && (forall d, x :: d in sbom.dependencies && x in d.dependsOn ==> exists c :: c in sbom.components && c.bomRef == x)
            && forall i, j :: 0 <= i < j < |sbom.components| ==> Less(sbom.components[i].bomRef, sbom.components[j].bomRef)
  {
    var sbom, listed := SbomOf(root, inv), set c | c in inv.components :: c.purl;
    ReferencesResolve(env, pk, facts, inv);
    PermutationMembers(sbom.dependencies, Records(root, inv));
    forall d, x | d in sbom.dependencies && x in d.dependsOn ensures exists c :: c in sbom.components && c.bomRef == x {
      RecordReferences(root, inv, listed, d, x);
      ListedIsBomRef(inv.components, x);
    }
    BomRefsIncrease(inv.components);
  }

  /** Lock files that differ only in the order of their entries have the same bill, or none alike. */
  lemma {:induction false} SbomOrderIndependent(env: Env, a: Lockfile, b: Lockfile, ra: Result<Inventory, Error>,
                                                rb: Result<Inventory, Error>)
    requires a.(order := []) == b.(order := [])
    requires Outcome(env, a, ra) && Outcome(env, b, rb)
    ensures Bill(env, a, ra) == Bill(env, b, rb)
  {
    OrderIndependent(env, a, b, ra, rb);
  }

  /** There is a bill, and it names some package twice. */
  ghost predicate NamesTwice(bill: Option<Sbom>) {
    bill.Some? && !DistinctRefs(bill.value.dependencies)
  }

  ghost predicate DistinctRefs(dependencies: seq<Dependency>) {
    DistinctKeys(dependencies, RefKey())
  }

  /** The dependency records name every package once exactly if the root is not also a component. */
  lemma {:induction false} DependencyRefsDistinct(root: CdxRoot, inv: Inventory)
    requires StrictlySortedBy(inv.components, PurlKey())
    ensures DistinctRefs(SbomOf(root, inv).dependencies) <==> forall c :: c in inv.components ==> c.purl != root.bomRef
  {
    var records := Records(root, inv);
    var sorted := SortBy(records, RefKey());
    if DistinctKeys(records, RefKey()) { DistinctPermutation(records, sorted, RefKey()); }
    if DistinctKeys(sorted, RefKey()) { DistinctPermutation(sorted, records, RefKey()); }
    RecordsDistinct(root, inv);
  }

  lemma {:induction false} RecordsDistinct(root: CdxRoot, inv: Inventory)
    requires StrictlySortedBy(inv.components, PurlKey())
    ensures DistinctKeys(Records(root, inv), RefKey()) <==> forall c :: c in inv.components ==> c.purl != root.bomRef
  {
    var records, purls := Records(root, inv), Purls(inv.components);
    assert records[1..] == DependencyRecords(inv.components, |inv.components|);
    assert forall k :: 0 <= k < |purls| ==> records[k + 1] == records[1..][k];
    forall i, j | 0 <= i < j < |purls| ensures purls[i] != purls[j] {
      assert Less(PurlKey()(inv.components[i]), PurlKey()(inv.components[j]));
      LessIrreflexive(purls[i]);
    }
    DistinctAfterFirst(records, purls);
    PurlsHold(inv.components, root.bomRef);
  }

  function Purls(components: seq<Component>): seq<string> {
    seq(|components|, i requires 0 <= i < |components| => components[i].purl)
  }

  lemma {:induction false} PurlsHold(components: seq<Component>, purl: string)
    ensures purl in Purls(components) <==> exists c :: c in components && c.purl == purl
  {
    if c :| c in components && c.purl == purl {
      var k :| 0 <= k < |components| && components[k] == c;
      assert Purls(components)[k] == purl;
    }
  }

  lemma {:induction false} DistinctAfterFirst(records: seq<Dependency>, refs: seq<string>)
    requires |records| == |refs| + 1 && forall k :: 0 <= k < |refs| ==> records[k + 1].ref == refs[k]
    requires forall i, j :: 0 <= i < j < |refs| ==> refs[i] != refs[j]
    ensures DistinctKeys(records, RefKey()) <==> records[0].ref !in refs
  {
    if k :| 0 <= k < |refs| && refs[k] == records[0].ref {
      assert RefKey()(records[0]) == RefKey()(records[k + 1]);
    } else {
      forall i, j | 0 <= i < j < |records| ensures RefKey()(records[i]) != RefKey()(records[j]) {
        assert records[j - 1 + 1].ref == refs[j - 1];
        if i > 0 { assert records[i - 1 + 1].ref == refs[i - 1]; }
      }
    }
  }

  // ---------- what the bill says

  /** A scoped name is told by its scope and its bare name, any other by itself; the rest is the component's own. */
  lemma {:induction false} ComponentDescribed(root: CdxRoot, inv: Inventory, i: nat, scope: string, plain: string)
    requires i < |inv.components|
    ensures |SbomOf(root, inv).components| == |inv.components|
    ensures var c, cdx := inv.components[i], SbomOf(root, inv).components[i];
            && cdx.bomRef == c.purl && cdx.version == c.facts.version && cdx.license == c.facts.license
            && cdx.hash == c.facts.digest && cdx.optionalScope == c.optional
            && (c.facts.name == scope + "/" + plain && StartsWith(scope, "@") && '/' !in scope ==>
                  cdx.group == Some(scope) && cdx.name == plain)
            && (!StartsWith(c.facts.name, "@") ==> cdx.group == None && cdx.name == c.facts.name)
  {
    var name := inv.components[i].facts.name;
    if name == scope + "/" + plain && StartsWith(scope, "@") && '/' !in scope { ScopedCoordinates(scope, plain); }
  }

  lemma {:induction false} ScopedCoordinates(scope: string, plain: string)
    requires StartsWith(scope, "@") && '/' !in scope
    ensures Coordinates(scope + "/" + plain) == (Some(scope), plain)
  {
    var name := scope + "/" + plain;
    assert name[0] == scope[0] && name[..1] == scope[..1];
    assert name == scope + ['/'] + plain;
    SplitAt(scope, plain, '/');
    JoinSplit(plain, '/');
    assert ([scope] + Split(plain, '/'))[1..] == Split(plain, '/');
  }

  lemma {:induction false} RecordAt(root: CdxRoot, inv: Inventory, i: nat)
    requires i < |inv.components|
    ensures Records(root, inv)[0] == Dependency(root.bomRef, Listing(inv.rootDependencies))
    ensures Records(root, inv)[i + 1] == Dependency(inv.components[i].purl, Listing(inv.components[i].dependencies))
  {
    assert Records(root, inv)[i + 1] == DependencyRecords(inv.components, |inv.components|)[i];
  }

  lemma {:induction false} ListedOnce(ref: string, s: set<string>, d: Dependency)
    ensures d == Dependency(ref, Listing(s)) <==> d.ref == ref && Lists(d.dependsOn, s)
  {
    if Lists(d.dependsOn, s) { ListsUnique(d.dependsOn, Listing(s), s); }
  }

  ghost predicate RecordOf(c: Component, d: Dependency) {
    d.ref == c.purl && Lists(d.dependsOn, c.dependencies)
  }

  ghost predicate RootRecord(root: CdxRoot, inv: Inventory, d: Dependency) {
    d.ref == root.bomRef && Lists(d.dependsOn, inv.rootDependencies)
  }

  lemma {:induction false} RecordIsDue(root: CdxRoot, inv: Inventory, d: Dependency)
    requires d in Records(root, inv)
    ensures RootRecord(root, inv, d) || exists c :: c in inv.components && RecordOf(c, d)
  {
    var k :| 0 <= k < |Records(root, inv)| && Records(root, inv)[k] == d;
    if k == 0 {
      ListedOnce(root.bomRef, inv.rootDependencies, d);
    } else {
      var c := inv.components[k - 1];
      RecordAt(root, inv, k - 1);
      assert d == Dependency(c.purl, Listing(c.dependencies));
      ListedOnce(c.purl, c.dependencies, d);
      assert c in inv.components && RecordOf(c, d);
    }
  }

  lemma {:induction false} DueIsRecord(root: CdxRoot, inv: Inventory, d: Dependency, c: Component)
    requires RootRecord(root, inv, d) || (c in inv.components && RecordOf(c, d))
    ensures d in Records(root, inv)
  {
    if RootRecord(root, inv, d) {
      ListedOnce(root.bomRef, inv.rootDependencies, d);
      assert Records(root, inv)[0] == d;
    } else {
      var i :| 0 <= i < |inv.components| && inv.components[i] == c;
      RecordAt(root, inv, i);
      ListedOnce(c.purl, c.dependencies, d);
    }
  }

  /** The dependency records are that of the root and one for each component, each with its references in order. */
  lemma {:induction false} DependenciesExactly(root: CdxRoot, inv: Inventory, d: Dependency)
    ensures d in SbomOf(root, inv).dependencies <==>
            RootRecord(root, inv, d) || exists c :: c in inv.components && RecordOf(c, d)
    ensures SortedBy(SbomOf(root, inv).dependencies, RefKey())
  {
    var records := Records(root, inv);
    PermutationMembers(SortBy(records, RefKey()), records);
    if d in records { RecordIsDue(root, inv, d); }
    if c :| c in inv.components && RecordOf(c, d) { DueIsRecord(root, inv, d, c); }
    if RootRecord(root, inv, d) { ListedOnce(root.bomRef, inv.rootDependencies, d); assert records[0] == d; }
  }

  /** The root is told by its own name and version or else the file's, and by its own licence; all have to be plain text. */
  lemma {:induction false} RootExactly(env: Env, lock: Lockfile, root: CdxRoot)
    requires "" in lock.packages
    ensures RootOf(env, lock) == Some(root) <==>
            && (root.name == lock.packages[""].name != "" || (lock.packages[""].name == "" && root.name == lock.name))
            && (root.version == lock.packages[""].version != "" || (lock.packages[""].version == "" && root.version == lock.version))
            && root.license == lock.packages[""].license && root.bomRef == Purl(env, root.name, root.version)
            && IsPlainText(root.name) && IsPlainText(root.version) && IsPlainText(root.license)
  {
    PlainText(root.name);
    PlainText(root.version);
    PlainText(root.license);
    var own := lock.packages[""];
    PlainText(FirstGiven(own.name, lock.name));
    PlainText(FirstGiven(own.version, lock.version));
    PlainText(own.license);
  }

  // ---------- a lock file whose root is also a component

  /** A root that lists its own name and version as an installed dependency. */
  ghost predicate RootDependsOnItself(env: Env, lock: Lockfile, name: string) {
    var path := NODE_MODULES + name;
    && lock.version3 && lock.packages.Keys == {"", path}
    && var root, own := lock.packages[""], lock.packages[path];
    && PackageName(path) == Some(name) && root.name == name && name != ""
    && root.version == own.version && name in root.dependencies
    && !root.dev && !root.link && !own.dev && !own.link
    && IsMetadata(name) && IsMetadata(own.version) && IsMetadata(own.license) && IsMetadata(root.license)
    && env.official(own.resolved) && env.digestOf(own.integrity).Some?
  }

  lemma {:induction false} ItselfAcceptable(env: Env, lock: Lockfile, name: string) returns (facts: FactTable)
    requires RootDependsOnItself(env, lock, name)
    ensures Acceptable(env, lock) && IsFactTable(env, lock.packages, facts)
    ensures NODE_MODULES + name in facts && Ref(env, facts[NODE_MODULES + name]) == Purl(env, name, lock.packages[""].version)
  {
    var path := NODE_MODULES + name;
    var own := lock.packages[path];
    assert StartsWith(path, NODE_MODULES) && !StartsWith("", NODE_MODULES);
    facts := map[path := FactsOf(env, path, own).value];
    assert IsFactTable(env, lock.packages, facts) && NoConflict(env, facts);
  }

  lemma {:induction false} RootResolves(env: Env, pk: Packages, facts: FactTable, name: string)
    requires NODE_MODULES + name in pk && !pk[NODE_MODULES + name].dev && !pk[NODE_MODULES + name].link && NODE_MODULES + name in facts
    ensures TargetRef(env, pk, facts, "", name) == Some(Ref(env, facts[NODE_MODULES + name]))
  {
    assert Scopes("") == [""] && Candidate("", name) == NODE_MODULES + name;
    assert Usable(pk)(NODE_MODULES + name);
  }

  lemma {:induction false} RootTarget(env: Env, pk: Packages, facts: FactTable, name: string, url: string)
    requires "" in pk && name in pk[""].dependencies && TargetRef(env, pk, facts, "", name) == Some(url)
    ensures url in RootRefs(env, pk, facts)
  {
    assert name in DependencyNames(pk[""]);
    assert url in TargetRefs(env, pk, facts, "");
    assert IsInternal(pk, "");
  }

  lemma {:induction false} RootTargetListed(env: Env, pk: Packages, facts: FactTable, inv: Inventory, url: string)
    requires facts.Keys <= pk.Keys && IsInventory(env, pk, facts, inv) && url in RootRefs(env, pk, facts)
    ensures exists c :: c in inv.components && c.purl == url
  {
    RootReached(RefGraph(env, pk, facts), inv.rootDependencies, url);
  }

  lemma {:induction false} ItselfRoot(env: Env, lock: Lockfile, name: string)
    requires RootDependsOnItself(env, lock, name)
    ensures RootOf(env, lock).Some? && RootOf(env, lock).value.bomRef == Purl(env, name, lock.packages[""].version)
  {
  }

  /** The inventory of a lock file, with the facts it was made from. */
  ghost predicate Inventoried(env: Env, lock: Lockfile, facts: FactTable, inv: Inventory) {
    IsFactTable(env, lock.packages, facts) && facts.Keys <= lock.packages.Keys && IsInventory(env, lock.packages, facts, inv)
  }

  lemma {:induction false} ItselfListed(env: Env, lock: Lockfile, name: string, facts: FactTable, inv: Inventory)
    requires RootDependsOnItself(env, lock, name) && Inventoried(env, lock, facts, inv)
    ensures exists c :: c in inv.components && c.purl == Purl(env, name, lock.packages[""].version)
  {
    var pk, url := lock.packages, Purl(env, name, lock.packages[""].version);
    var expected := ItselfAcceptable(env, lock, name);
    FactTableUnique(env, pk, facts, expected);
    RootResolves(env, pk, facts, name);
    RootTarget(env, pk, facts, name, url);
    RootTargetListed(env, pk, facts, inv, url);
  }

  lemma {:induction false} ItselfNamedTwice(env: Env, lock: Lockfile, name: string, facts: FactTable, inv: Inventory)
    requires RootDependsOnItself(env, lock, name) && Inventoried(env, lock, facts, inv)
    ensures RootOf(env, lock).Some? && NamesTwice(Some(SbomOf(RootOf(env, lock).value, inv)))
  {
    ItselfRoot(env, lock, name);
    ItselfListed(env, lock, name, facts, inv);
    DependencyRefsDistinct(RootOf(env, lock).value, inv);
  }

  lemma {:induction false} AcceptedInventory(env: Env, lock: Lockfile, result: Result<Inventory, Error>) returns (facts: FactTable)
    requires Outcome(env, lock, result) && Acceptable(env, lock)
    ensures result.Ok? && Inventoried(env, lock, facts, result.value)
  {
    facts :| IsFactTable(env, lock.packages, facts) && NoConflict(env, facts) && IsInventory(env, lock.packages, facts, result.value);
  }

  lemma {:induction false} ItselfInventory(env: Env, lock: Lockfile, name: string, result: Result<Inventory, Error>) returns (facts: FactTable)
    requires RootDependsOnItself(env, lock, name) && Outcome(env, lock, result)
    ensures result.Ok? && Inventoried(env, lock, facts, result.value)
  {
    var any := ItselfAcceptable(env, lock, name);
    facts := AcceptedInventory(env, lock, result);
  }

  /** The failing side: every such lock file is accepted, and its bill names the root's package twice. */
  lemma {:induction false} RootNamedTwice(env: Env, lock: Lockfile, name: string, result: Result<Inventory, Error>)
    requires RootDependsOnItself(env, lock, name) && Outcome(env, lock, result)
    ensures NamesTwice(Bill(env, lock, result))
  {
    var facts := ItselfInventory(env, lock, name, result);
    ItselfNamedTwice(env, lock, name, facts, result.value);
    assert Bill(env, lock, result) == Some(SbomOf(RootOf(env, lock).value, result.value));
  }

  /** Such a lock file exists, for any name and any world in which its one dependency can be read. */
  lemma {:induction false} ItselfExists(env: Env, name: string, version: string, integrity: string, resolved: string) returns (lock: Lockfile)
    requires ValidName(name) && !Contains(name, NODE_MODULES) && IsMetadata(name) && IsMetadata(version)
    requires env.official(resolved) && env.digestOf(integrity).Some?
    ensures RootDependsOnItself(env, lock, name) && WellFormed(lock)
  {
    var path := NODE_MODULES + name;
    assert Candidate("", name) == path;
    NameRoundTrip("", name);
    var own := Entry(name, false, false, false, version, "MIT", integrity, resolved, map[], map[]);
    var root := own.(dependencies := map[name := version]);
    lock := Lockfile(true, name, version, ["", path], map["" := root, path := own]);
    assert lock.order[0] == "" && lock.order[1] == path && path != "";
  }
}
