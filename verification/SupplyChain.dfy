/** The production dependency inventory read from a package lock, and the bill of materials
    built from it. Text fields hold the trimmed text of the raw values. */
module SupplyChain {
  import opened Wrappers
  import opened Graphs
  import opened Sorting
  import opened Text
  import opened ModuleResolution

  datatype Entry = Entry(
    name: string,
    dev: bool,
    link: bool,
    optional: bool,
    version: string,
    license: string,
    integrity: string,
    resolved: string,
    dependencies: map<string, string>,
    optionalDependencies: map<string, string>
  )

  type Packages = map<string, Entry>

  /** `order` lists the package paths as the file does. */
  datatype Lockfile = Lockfile(version3: bool, name: string, version: string, order: seq<string>, packages: Packages)

  ghost predicate WellFormed(lock: Lockfile) {
    (forall p :: p in lock.order <==> p in lock.packages)
    && forall i, j :: 0 <= i < j < |lock.order| ==> lock.order[i] != lock.order[j]
  }

  datatype Digest = Digest(algorithm: string, content: string)

  /** The coding of package urls, the reading of integrity strings and the registry check stay
      arbitrary: every result holds for any of them. */
  datatype Env = Env(
    coordinates: (string, string) -> string,
    digestOf: string -> Option<Digest>,
    official: string -> bool
  )

  datatype Error = NotVersion3 | NotOfficial | BadPath | BadVersion | BadLicense | BadIntegrity | Conflict

  /** What all lock paths that share a package url must agree on. */
  datatype Facts = Facts(name: string, version: string, license: string, digest: Digest)

  datatype Component = Component(
    facts: Facts,
    purl: string,
    optional: bool,
    lockPaths: seq<string>,
    dependencies: set<string>
  )

  datatype Inventory = Inventory(components: seq<Component>, rootDependencies: set<string>)

  // ---------- reading one entry

  predicate IsMetadata(text: string) {
    text != "" && |text| <= 512 && forall c :: c in text ==> c >= ' ' && c != '\U{7f}'
  }

  function FactsOf(env: Env, path: string, e: Entry): Result<Facts, Error> {
    var name := PackageName(path);
    if name.None? then Err(BadPath)
    else if !IsMetadata(e.version) then Err(BadVersion)
    else if !IsMetadata(e.license) then Err(BadLicense)
    else if env.digestOf(e.integrity).None? then Err(BadIntegrity)
    else Ok(Facts(name.value, e.version, e.license, env.digestOf(e.integrity).value))
  }

  function Purl(env: Env, name: string, version: string): string {
    "pkg:npm/" + env.coordinates(name, version)
  }

  function Ref(env: Env, f: Facts): string {
    Purl(env, f.name, f.version)
  }

  const VENDORED := "pactium"

  predicate IsAuthorizedVendored(pk: Packages, path: string, e: Entry) {
    && path == NODE_MODULES + VENDORED
    && e.version != "" && e.integrity != ""
    && e.resolved == "file:vendor/" + VENDORED + "-" + e.version + ".tgz"
    && "" in pk && VENDORED in pk[""].dependencies && pk[""].dependencies[VENDORED] == e.resolved
  }

  predicate FromAllowedSource(env: Env, pk: Packages, path: string)
    requires path in pk
  {
    || !StartsWith(path, NODE_MODULES) || pk[path].link
    || IsAuthorizedVendored(pk, path, pk[path])
    || env.official(pk[path].resolved)
  }

  predicate IsExternal(pk: Packages, path: string) {
    path in pk && StartsWith(path, NODE_MODULES) && !pk[path].dev && !pk[path].link
  }

  predicate IsInternal(pk: Packages, path: string) {
    path in pk && (path == "" || (!StartsWith(path, NODE_MODULES) && !pk[path].link))
  }

  function Usable(pk: Packages): string -> bool {
    (path: string) => path in pk && !pk[path].dev && !pk[path].link
  }

  function DependencyNames(e: Entry): set<string> {
    e.dependencies.Keys + e.optionalDependencies.Keys
  }

  // ---------- the inventory, said of the package table alone

  /** The facts of every external path. */
  type FactTable = map<string, Facts>

  ghost predicate IsFactTable(env: Env, pk: Packages, facts: FactTable) {
    && (forall p :: p in facts <==> IsExternal(pk, p))
    && forall p :: p in facts ==> FactsOf(env, p, pk[p]) == Ok(facts[p])
  }

  ghost predicate NoConflict(env: Env, facts: FactTable) {
    forall p, q :: p in facts && q in facts && Ref(env, facts[p]) == Ref(env, facts[q]) ==> facts[p] == facts[q]
  }

  /** The lock files the inventory accepts. */
  ghost predicate Acceptable(env: Env, lock: Lockfile) {
    && lock.version3 && "" in lock.packages
    && (forall p :: p in lock.packages ==> FromAllowedSource(env, lock.packages, p))
    && exists facts :: IsFactTable(env, lock.packages, facts) && NoConflict(env, facts)
  }

  /** The package url a dependency name leads to from a path, if it leads to an external path. */
  function TargetRef(env: Env, pk: Packages, facts: FactTable, from: string, name: string): Option<string> {
    var target := FirstUsable(Scopes(from), name, Usable(pk));
    if target.Some? && target.value in facts then Some(Ref(env, facts[target.value])) else None
  }

  ghost function TargetRefs(env: Env, pk: Packages, facts: FactTable, from: string): set<string>
    requires from in pk
  {
    set d | d in DependencyNames(pk[from]) && TargetRef(env, pk, facts, from, d).Some? :: TargetRef(env, pk, facts, from, d).value
  }

  predicate HasRef(env: Env, facts: FactTable, path: string, ref: string) {
    path in facts && Ref(env, facts[path]) == ref
  }

  ghost function PathsWithRef(env: Env, facts: FactTable, ref: string): set<string> {
    set p | p in facts && HasRef(env, facts, p, ref)
  }

  /** The union over all lock paths of a package url of what they depend on, minus itself. */
  ghost function DependencyRefs(env: Env, pk: Packages, facts: FactTable, paths: set<string>, ref: string): set<string>
    requires facts.Keys <= pk.Keys
  {
    (set p, t | p in paths && HasRef(env, facts, p, ref) && t in TargetRefs(env, pk, facts, p) :: t) - {ref}
  }

  ghost function RootRefs(env: Env, pk: Packages, facts: FactTable): set<string> {
    set p, t | p in pk && IsInternal(pk, p) && t in TargetRefs(env, pk, facts, p) :: t
  }

  ghost function Refs(env: Env, facts: FactTable): set<string> {
    set p | p in facts :: Ref(env, facts[p])
  }

  ghost function RefGraph(env: Env, pk: Packages, facts: FactTable): Graph
    requires facts.Keys <= pk.Keys
  {
    map r | r in Refs(env, facts) :: DependencyRefs(env, pk, facts, facts.Keys, r)
  }

  function PurlKey(): Component -> string { (c: Component) => c.purl }

  /** The one component of a package url: shared facts, the conjunction of the optional flags,
      all lock paths, and all dependencies. */
  ghost predicate IsComponent(env: Env, pk: Packages, facts: FactTable, c: Component)
    requires facts.Keys <= pk.Keys
  {
    && IsMerged(env, pk, facts, c)
    && c.dependencies == DependencyRefs(env, pk, facts, facts.Keys, c.purl)
  }

  ghost predicate IsMerged(env: Env, pk: Packages, facts: FactTable, c: Component)
    requires facts.Keys <= pk.Keys
  {
    && (exists p :: HasRef(env, facts, p, c.purl))
    && (forall p :: HasRef(env, facts, p, c.purl) ==> facts[p] == c.facts)
    && (c.optional <==> forall p :: HasRef(env, facts, p, c.purl) ==> pk[p].optional)
    && Lists(c.lockPaths, PathsWithRef(env, facts, c.purl))
  }

  /** The components are those whose url can be reached from the root dependencies. */
  ghost predicate IsInventory(env: Env, pk: Packages, facts: FactTable, inv: Inventory)
    requires facts.Keys <= pk.Keys
  {
    && inv.rootDependencies == RootRefs(env, pk, facts)
    && StrictlySortedBy(inv.components, PurlKey())
    && (forall c :: c in inv.components ==> IsComponent(env, pk, facts, c))
    && (forall c :: c in inv.components ==> Reaches(RefGraph(env, pk, facts), inv.rootDependencies, c.purl))
    && forall r :: Reaches(RefGraph(env, pk, facts), inv.rootDependencies, r) ==> exists c :: c in inv.components && c.purl == r
  }

  /** What normalizing a lock file may answer. The listing order plays no part. */
  ghost predicate Outcome(env: Env, lock: Lockfile, result: Result<Inventory, Error>) {
    && (result.Ok? <==> Acceptable(env, lock))
    && (result.Ok? ==> exists facts :: IsFactTable(env, lock.packages, facts) && NoConflict(env, facts)
                         && IsInventory(env, lock.packages, facts, result.value))
  }

  // ---------- acceptance, entry by entry

  /** Text of at most 512 printable characters. */
  predicate IsPlainText(text: string) {
    1 <= |text| <= 512 && forall i :: 0 <= i < |text| ==> 0x20 <= text[i] as int && text[i] as int != 0x7f
  }

  /** The one vendored archive that may be installed from the repository: the root depends on it under the very
      address of its version. */
  ghost predicate IsVendoredArchive(pk: Packages, path: string) {
    && path == "node_modules/pactium" && path in pk && pk[path].integrity != ""
    && exists version :: version != "" && pk[path].version == version
         && pk[path].resolved == "file:vendor/pactium-" + version + ".tgz"
         && "" in pk && "pactium" in pk[""].dependencies && pk[""].dependencies["pactium"] == pk[path].resolved
  }

  /** What an installed entry needs: an allowed source unless it is a link, and unless it is a link or for
      development only, a package name, plain version and licence texts and a readable digest. */
  ghost predicate InstalledWell(env: Env, pk: Packages, path: string)
    requires path in pk
  {
    var e := pk[path];
    e.link ||
    (&& (env.official(e.resolved) || IsVendoredArchive(pk, path))
     && (e.dev || (PackageName(path).Some? && IsPlainText(e.version) && IsPlainText(e.license) && env.digestOf(e.integrity).Some?)))
  }

  /** Two shipped entries of one package url do not say different things. */
  ghost predicate SameThings(env: Env, pk: Packages, p: string, q: string)
    requires p in pk && q in pk && PackageName(p).Some? && PackageName(q).Some?
  {
    Purl(env, PackageName(p).value, pk[p].version) == Purl(env, PackageName(q).value, pk[q].version) ==>
      && PackageName(p) == PackageName(q) && pk[p].version == pk[q].version && pk[p].license == pk[q].license
      && env.digestOf(pk[p].integrity) == env.digestOf(pk[q].integrity)
  }

  ghost predicate Shipped(pk: Packages, path: string) {
    path in pk && StartsWith(path, "node_modules/") && !pk[path].dev && !pk[path].link
  }

  lemma {:induction false} PlainText(text: string)
    ensures IsMetadata(text) <==> IsPlainText(text)
  {
    forall i | 0 <= i < |text| ensures text[i] in text {
    }
    if IsPlainText(text) {
      forall c | c in text ensures c >= ' ' && c != '\U{7f}' {
        var i :| 0 <= i < |text| && text[i] == c;
      }
    }
  }

  lemma {:induction false} VendoredArchive(pk: Packages, path: string)
    requires path in pk
    ensures IsAuthorizedVendored(pk, path, pk[path]) <==> IsVendoredArchive(pk, path)
  {
    assert NODE_MODULES + VENDORED == "node_modules/pactium" && "file:vendor/" + VENDORED + "-" == "file:vendor/pactium-";
    assert "file:vendor/pactium-" + pk[path].version + ".tgz" == "file:vendor/" + VENDORED + "-" + pk[path].version + ".tgz";
  }

  lemma {:induction false} FactsExactly(env: Env, path: string, e: Entry)
    ensures FactsOf(env, path, e).Ok? <==>
            PackageName(path).Some? && IsPlainText(e.version) && IsPlainText(e.license) && env.digestOf(e.integrity).Some?
    ensures FactsOf(env, path, e).Ok? ==>
            FactsOf(env, path, e).value == Facts(PackageName(path).value, e.version, e.license, env.digestOf(e.integrity).value)
  {
    PlainText(e.version);
    PlainText(e.license);
  }

  /** Each installed entry by itself is in order. */
  ghost predicate AllInstalledWell(env: Env, pk: Packages) {
    forall p :: p in pk && StartsWith(p, "node_modules/") ==> InstalledWell(env, pk, p)
  }

  lemma {:induction false} InstalledExactly(env: Env, pk: Packages, p: string)
    requires p in pk && StartsWith(p, "node_modules/")
    ensures InstalledWell(env, pk, p) <==> FromAllowedSource(env, pk, p) && (IsExternal(pk, p) ==> FactsOf(env, p, pk[p]).Ok?)
  {
    VendoredArchive(pk, p);
    FactsExactly(env, p, pk[p]);
  }

  ghost function TableOf(env: Env, pk: Packages): FactTable
    requires forall p :: IsExternal(pk, p) ==> FactsOf(env, p, pk[p]).Ok?
  {
    map p | p in pk && IsExternal(pk, p) :: FactsOf(env, p, pk[p]).value
  }

  lemma {:induction false} TableExactly(env: Env, pk: Packages)
    ensures (exists facts :: IsFactTable(env, pk, facts)) <==> forall p :: IsExternal(pk, p) ==> FactsOf(env, p, pk[p]).Ok?
  {
    if forall p :: IsExternal(pk, p) ==> FactsOf(env, p, pk[p]).Ok? {
      assert IsFactTable(env, pk, TableOf(env, pk));
    }
  }

  lemma {:induction false} FactAt(env: Env, pk: Packages, facts: FactTable, p: string)
    requires IsFactTable(env, pk, facts) && p in facts
    ensures p in pk && PackageName(p).Some?
    ensures facts[p].name == PackageName(p).value && facts[p].version == pk[p].version && facts[p].license == pk[p].license
    ensures env.digestOf(pk[p].integrity) == Some(facts[p].digest)
  {
    FactsExactly(env, p, pk[p]);
  }

  lemma {:induction false} SameFacts(env: Env, pk: Packages, facts: FactTable, p: string, q: string)
    requires IsFactTable(env, pk, facts) && p in facts && q in facts
    ensures p in pk && q in pk && PackageName(p).Some? && PackageName(q).Some?
    ensures SameThings(env, pk, p, q) <==> (Ref(env, facts[p]) == Ref(env, facts[q]) ==> facts[p] == facts[q])
  {
    FactAt(env, pk, facts, p);
    FactAt(env, pk, facts, q);
  }

  /** No two shipped entries of one package url say different things. */
  ghost predicate AllSameThings(env: Env, pk: Packages) {
    forall p, q :: Shipped(pk, p) && Shipped(pk, q) && PackageName(p).Some? && PackageName(q).Some? ==> SameThings(env, pk, p, q)
  }

  lemma {:induction false} ShippedIsExternal(pk: Packages, p: string)
    ensures Shipped(pk, p) <==> IsExternal(pk, p)
  {
  }

  lemma {:induction false} ConflictExactly(env: Env, pk: Packages, facts: FactTable)
    requires IsFactTable(env, pk, facts)
    ensures NoConflict(env, facts) <==> AllSameThings(env, pk)
  {
    forall p ensures Shipped(pk, p) <==> p in facts {
      ShippedIsExternal(pk, p);
    }
    forall p, q | p in facts && q in facts
      ensures p in pk && q in pk && PackageName(p).Some? && PackageName(q).Some?
      ensures SameThings(env, pk, p, q) <==> (Ref(env, facts[p]) == Ref(env, facts[q]) ==> facts[p] == facts[q])
    {
      SameFacts(env, pk, facts, p, q);
    }
    PairsAgree(env, pk, facts);
  }

  lemma {:induction false} PairsAgree(env: Env, pk: Packages, facts: FactTable)
    requires forall p :: Shipped(pk, p) <==> p in facts
    requires forall p, q :: p in facts && q in facts ==>
               && p in pk && q in pk && PackageName(p).Some? && PackageName(q).Some?
               && (SameThings(env, pk, p, q) <==> (Ref(env, facts[p]) == Ref(env, facts[q]) ==> facts[p] == facts[q]))
    ensures NoConflict(env, facts) <==> AllSameThings(env, pk)
  {
  }

  /** A lock file is acceptable exactly if it is of version 3 with a root package, each installed entry is in order,
      and no two shipped entries of one package url differ in name, version, licence or digest. */
  lemma {:induction false} AcceptedExactly(env: Env, lock: Lockfile)
    ensures Acceptable(env, lock) <==>
            && lock.version3 && "" in lock.packages
            && AllInstalledWell(env, lock.packages) && AllSameThings(env, lock.packages)
  {
    var pk := lock.packages;
    forall p | p in pk && StartsWith(p, "node_modules/")
      ensures InstalledWell(env, pk, p) <==> FromAllowedSource(env, pk, p) && (IsExternal(pk, p) ==> FactsOf(env, p, pk[p]).Ok?)
    {
      InstalledExactly(env, pk, p);
    }
    TableExactly(env, pk);
    forall facts | IsFactTable(env, pk, facts) ensures NoConflict(env, facts) <==> AllSameThings(env, pk) {
      ConflictExactly(env, pk, facts);
    }
  }

  /** Some lock path of the component names a dependency that leads to that url. */
  ghost predicate LeadsToRef(env: Env, pk: Packages, facts: FactTable, paths: seq<string>, ref: string) {
    exists path, name ::
      && path in paths && path in pk && (name in pk[path].dependencies || name in pk[path].optionalDependencies)
      && TargetRef(env, pk, facts, path, name) == Some(ref)
  }

  lemma {:induction false} LockPathsExactly(env: Env, pk: Packages, facts: FactTable, c: Component, path: string)
    requires facts.Keys <= pk.Keys && IsFactTable(env, pk, facts) && IsComponent(env, pk, facts, c)
    ensures path in c.lockPaths <==> HasRef(env, facts, path, c.purl)
    ensures path in c.lockPaths <==>
            Shipped(pk, path) && PackageName(path).Some? && Purl(env, PackageName(path).value, pk[path].version) == c.purl
    ensures path in c.lockPaths ==>
            && c.facts.name == PackageName(path).value && c.facts.version == pk[path].version
            && c.facts.license == pk[path].license && Some(c.facts.digest) == env.digestOf(pk[path].integrity)
  {
    ShippedIsExternal(pk, path);
    if path in facts { FactAt(env, pk, facts, path); }
  }

  /** A component of an inventory tells of all shipped entries with its url and of no others: it is optional exactly if
      all of them are, and depends on what any of them leads to, except on itself. */
  lemma {:induction false} ComponentExactly(env: Env, pk: Packages, facts: FactTable, c: Component, ref: string)
    requires facts.Keys <= pk.Keys && IsFactTable(env, pk, facts) && IsComponent(env, pk, facts, c)
    ensures c.lockPaths != [] && (forall path :: path in c.lockPaths ==> Shipped(pk, path))
    ensures c.optional <==> forall path :: path in c.lockPaths ==> pk[path].optional
    ensures ref in c.dependencies <==> ref != c.purl && LeadsToRef(env, pk, facts, c.lockPaths, ref)
  {
    forall path ensures path in c.lockPaths <==> HasRef(env, facts, path, c.purl)
      ensures path in c.lockPaths ==> Shipped(pk, path)
    {
      LockPathsExactly(env, pk, facts, c, path);
    }
    var p :| HasRef(env, facts, p, c.purl);
    assert p in c.lockPaths;
    DependenciesLead(env, pk, facts, c, ref);
  }

  lemma {:induction false} TargetListed(env: Env, pk: Packages, facts: FactTable, path: string, name: string, ref: string)
    requires path in pk && (name in pk[path].dependencies || name in pk[path].optionalDependencies)
    requires TargetRef(env, pk, facts, path, name) == Some(ref)
    ensures ref in TargetRefs(env, pk, facts, path)
  {
    assert name in DependencyNames(pk[path]);
  }

  lemma {:induction false} TargetCollected(env: Env, pk: Packages, facts: FactTable, path: string, own: string, ref: string)
    requires facts.Keys <= pk.Keys && HasRef(env, facts, path, own) && ref in TargetRefs(env, pk, facts, path) && ref != own
    ensures ref in DependencyRefs(env, pk, facts, facts.Keys, own)
  {
  }

  lemma {:induction false} LeadsIntoRefs(env: Env, pk: Packages, facts: FactTable, c: Component, ref: string)
    requires facts.Keys <= pk.Keys && forall path :: path in c.lockPaths <==> HasRef(env, facts, path, c.purl)
    requires ref != c.purl && LeadsToRef(env, pk, facts, c.lockPaths, ref)
    ensures ref in DependencyRefs(env, pk, facts, facts.Keys, c.purl)
  {
    var path, name :| path in c.lockPaths && path in pk && (name in pk[path].dependencies || name in pk[path].optionalDependencies)
                      && TargetRef(env, pk, facts, path, name) == Some(ref);
    TargetListed(env, pk, facts, path, name, ref);
    TargetCollected(env, pk, facts, path, c.purl, ref);
  }

  lemma {:induction false} RefsAreLed(env: Env, pk: Packages, facts: FactTable, c: Component, ref: string)
    requires facts.Keys <= pk.Keys && forall path :: path in c.lockPaths <==> HasRef(env, facts, path, c.purl)
    requires ref in DependencyRefs(env, pk, facts, facts.Keys, c.purl)
    ensures ref != c.purl && LeadsToRef(env, pk, facts, c.lockPaths, ref)
  {
    var path :| path in facts && HasRef(env, facts, path, c.purl) && ref in TargetRefs(env, pk, facts, path);
    var name :| name in DependencyNames(pk[path]) && TargetRef(env, pk, facts, path, name) == Some(ref);
    assert path in c.lockPaths;
  }

  lemma {:induction false} DependenciesLead(env: Env, pk: Packages, facts: FactTable, c: Component, ref: string)
    requires facts.Keys <= pk.Keys && forall path :: path in c.lockPaths <==> HasRef(env, facts, path, c.purl)
    ensures ref in DependencyRefs(env, pk, facts, facts.Keys, c.purl) <==>
            ref != c.purl && LeadsToRef(env, pk, facts, c.lockPaths, ref)
  {
    if ref in DependencyRefs(env, pk, facts, facts.Keys, c.purl) {
      RefsAreLed(env, pk, facts, c, ref);
    } else if ref != c.purl && LeadsToRef(env, pk, facts, c.lockPaths, ref) {
      LeadsIntoRefs(env, pk, facts, c, ref);
    }
  }

  // ---------- uniqueness and order independence

  lemma {:induction false} ListsUnique(xs: seq<string>, ys: seq<string>, s: set<string>)
    requires Lists(xs, s) && Lists(ys, s)
    ensures xs == ys
  {
    StrictlySortedUnique(xs, ys, Itself());
  }

  lemma {:induction false} FactTableUnique(env: Env, pk: Packages, a: FactTable, b: FactTable)
    requires IsFactTable(env, pk, a) && IsFactTable(env, pk, b)
    ensures a == b
  {
    assert forall p :: p in a <==> p in b;
  }

  lemma {:induction false} ComponentUnique(env: Env, pk: Packages, facts: FactTable, a: Component, b: Component)
    requires facts.Keys <= pk.Keys && IsComponent(env, pk, facts, a) && IsComponent(env, pk, facts, b) && a.purl == b.purl
    ensures a == b
  {
    ListsUnique(a.lockPaths, b.lockPaths, PathsWithRef(env, facts, a.purl));
    var p :| HasRef(env, facts, p, a.purl);
    assert facts[p] == a.facts && facts[p] == b.facts;
  }

  lemma {:induction false} ComponentsIncluded(env: Env, pk: Packages, facts: FactTable, a: Inventory, b: Inventory, c: Component)
    requires facts.Keys <= pk.Keys && IsInventory(env, pk, facts, a) && IsInventory(env, pk, facts, b) && c in a.components
    ensures c in b.components
  {
    assert Reaches(RefGraph(env, pk, facts), b.rootDependencies, c.purl);
    var d :| d in b.components && d.purl == c.purl;
    ComponentUnique(env, pk, facts, c, d);
  }

  lemma {:induction false} InventoryUnique(env: Env, pk: Packages, facts: FactTable, a: Inventory, b: Inventory)
    requires facts.Keys <= pk.Keys && IsInventory(env, pk, facts, a) && IsInventory(env, pk, facts, b)
    ensures a == b
  {
    forall c ensures c in a.components <==> c in b.components {
      if c in a.components { ComponentsIncluded(env, pk, facts, a, b, c); }
      if c in b.components { ComponentsIncluded(env, pk, facts, b, a, c); }
    }
    StrictlySortedUnique(a.components, b.components, PurlKey());
  }

  /** Any listing order of the same packages succeeds or fails alike and gives the same inventory. */
  lemma {:induction false} OrderIndependent(env: Env, a: Lockfile, b: Lockfile, ra: Result<Inventory, Error>, rb: Result<Inventory, Error>)
    requires a.packages == b.packages && a.version3 == b.version3
    requires Outcome(env, a, ra) && Outcome(env, b, rb)
    ensures ra.Ok? <==> rb.Ok?
    ensures ra.Ok? ==> ra.value == rb.value
  {
    if ra.Ok? {
      var pk := a.packages;
      var fa :| IsFactTable(env, pk, fa) && NoConflict(env, fa) && IsInventory(env, pk, fa, ra.value);
      var fb :| IsFactTable(env, pk, fb) && NoConflict(env, fb) && IsInventory(env, pk, fb, rb.value);
      FactTableUnique(env, pk, fa, fb);
      InventoryUnique(env, pk, fa, ra.value, rb.value);
    }
  }

  /** Whatever is resolved to is the url of an external path, so the urls are closed under dependencies. */
  lemma {:induction false} TargetsAreRefs(env: Env, pk: Packages, facts: FactTable, from: string)
    requires from in pk
    ensures TargetRefs(env, pk, facts, from) <= Refs(env, facts)
  {
  }

  lemma {:induction false} ComponentEdge(env: Env, pk: Packages, facts: FactTable, c: Component, r: string)
    requires facts.Keys <= pk.Keys && IsComponent(env, pk, facts, c) && r in c.dependencies
    ensures Edge(RefGraph(env, pk, facts), c.purl, r)
  {
    var p :| HasRef(env, facts, p, c.purl);
    assert c.purl in Refs(env, facts);
  }

  /** Every reference, from the root or from a component, names a listed component, and the
      listed urls are the least set that holds the root dependencies and is closed under dependencies. */
  lemma {:induction false} ReferencesResolve(env: Env, pk: Packages, facts: FactTable, inv: Inventory)
    requires facts.Keys <= pk.Keys && IsInventory(env, pk, facts, inv)
    ensures var listed := set c | c in inv.components :: c.purl;
            && inv.rootDependencies <= listed
            && (forall c :: c in inv.components ==> c.dependencies <= listed)
            && forall s :: inv.rootDependencies <= s && ClosedSet(RefGraph(env, pk, facts), s) ==> listed <= s
  {
    var g, roots, listed := RefGraph(env, pk, facts), inv.rootDependencies, (set c | c in inv.components :: c.purl);
    forall r ensures r in listed <==> r in ReachableSet(g, roots) {
      ReachableSetMember(g, roots, r);
    }
    ReachableSetIsLeast(g, roots);
    assert listed == ReachableSet(g, roots);
    forall c, r | c in inv.components && r in c.dependencies ensures r in listed {
      ComponentEdge(env, pk, facts, c, r);
    }
  }
}
