/** Inspecting a whole image layout against the release authority: which layouts are accepted, why
    manifests and attestations then pair off one to one, and why no other file is there. */
module OciInspection {
  import opened Wrappers
  import opened Sorting
  import opened BundleTree
  import opened OciLayout

  // ---------- what an accepted layout is

  predicate MarkerOk(fmt: Formats, content: Content) {
    && LAYOUT_FILE in content
    && |content[LAYOUT_FILE]| <= MAX_JSON_BYTES
    && fmt.marker(content[LAYOUT_FILE])
  }

  /** The manifests of the index, if the index is the one the authority names. */
  function IndexEntries(fmt: Formats, content: Content, authority: Authority): Option<seq<IndexEntry>> {
    if INDEX_FILE !in content then None
    else
      var bytes := content[INDEX_FILE];
      if |bytes| > MAX_JSON_BYTES || fmt.hash(bytes) != authority.imageDigest
         || fmt.textHash(bytes) != authority.manifestSha256 || fmt.index(bytes).None? then None
      else
        var index := fmt.index(bytes).value;
        if index.mediaType != INDEX_MEDIA_TYPE || index.schemaVersion != 2 then None
        else index.manifests
  }

  /** The manifest, attestation and evidence of one platform belong together. */
  ghost predicate Paired(fmt: Formats, content: Content, evidence: seq<Evidence>, p: string, r: IndexEntry, a: IndexEntry) {
    && r.IndexEntry? && a.IndexEntry?
    && KeyOf(r) == Runtime(p) && KeyOf(a) == Subject(r.descriptor.digest)
    && RuntimeOk(fmt, content, p, r) && AttestationOk(fmt, content, a, r.descriptor)
    && Evidence(p, r.descriptor.digest, a.descriptor.digest, true) in evidence
  }

  ghost predicate PlatformPaired(fmt: Formats, content: Content, evidence: seq<Evidence>, entries: seq<IndexEntry>, p: string) {
    exists r, a :: r in entries && a in entries && Paired(fmt, content, evidence, p, r, a)
  }

  ghost predicate EvidenceOk(evidence: seq<Evidence>) {
    && (forall i :: 0 <= i < |evidence| ==> evidence[i].Evidence? && evidence[i].platform in PLATFORMS)
    && forall i, j :: 0 <= i < j < |evidence| ==> evidence[i].platform != evidence[j].platform
  }

  ghost predicate ReachedFrom(fmt: Formats, content: Content, entries: seq<IndexEntry>, path: string) {
    exists e :: e in entries && e.IndexEntry? && path in Reached(fmt, content, e.descriptor.digest)
  }

  /** The files are the two markers and whatever the entries of the index reach. */
  ghost predicate ExactFiles(fmt: Formats, content: Content, entries: seq<IndexEntry>) {
    forall path :: path in content <==> path == LAYOUT_FILE || path == INDEX_FILE || ReachedFrom(fmt, content, entries, path)
  }

  ghost predicate LayoutOk(fmt: Formats, content: Content, collected: Option<seq<FileRecord>>, authority: Authority) {
    && MarkerOk(fmt, content)
    && IndexEntries(fmt, content, authority).Some?
    && var entries := IndexEntries(fmt, content, authority).value;
    && IndexPaired(fmt, content, authority.platformEvidence, entries)
    && collected.Some?
    && ExactFiles(fmt, content, entries)
  }

  /** The index and the evidence agree, and every platform has its pair. */
  ghost predicate IndexPaired(fmt: Formats, content: Content, evidence: seq<Evidence>, entries: seq<IndexEntry>) {
    && IndexOk(entries)
    && EvidenceOk(evidence)
    && forall p :: p in PLATFORMS ==> PlatformPaired(fmt, content, evidence, entries, p)
  }

  // ---------- manifests and attestations pair off

  /** One blob cannot be the runtime manifest of two platforms: its config names one architecture. */
  lemma {:induction false} RuntimeDigestsDiffer(fmt: Formats, content: Content, p: string, r: IndexEntry, q: string, s: IndexEntry)
    requires RuntimeOk(fmt, content, p, r) && RuntimeOk(fmt, content, q, s) && p != q
    ensures r.descriptor.digest != s.descriptor.digest
  {
    ArchitecturesDiffer(p, q);
    var m :| LeadsTo(fmt, content, r.descriptor, m) && RuntimeManifest(fmt, content, p, m);
    var n :| LeadsTo(fmt, content, s.descriptor, n) && RuntimeManifest(fmt, content, q, n);
    ConfigNamesPlatform(fmt, content, p, m);
    ConfigNamesPlatform(fmt, content, q, n);
    assert r.descriptor.digest == s.descriptor.digest ==> m == n;
  }

  lemma {:induction false} ConfigNamesPlatform(fmt: Formats, content: Content, p: string, m: Manifest)
    requires ManifestShapeOk(m) && ConfigFits(fmt, content, p, m)
    ensures var config := fmt.config(content[BlobPath(m.config.value.digest)]);
            config.Some? && config.value.architecture == Expected(p).1
  {
  }

  lemma {:induction false} SameEntry(entries: seq<IndexEntry>, e: IndexEntry, f: IndexEntry)
    requires AllWellFormed(entries) && KeysApart(entries) && e in entries && f in entries
    requires e.IndexEntry? && f.IndexEntry? && KeyOf(e) == KeyOf(f)
    ensures e == f
  {
    var i :| 0 <= i < |entries| && entries[i] == e;
    var j :| 0 <= j < |entries| && entries[j] == f;
  }

  /** Two pairs that share a runtime digest or an attestation digest are the same pair. */
  lemma {:induction false} OneToOne(fmt: Formats, content: Content, evidence: seq<Evidence>, entries: seq<IndexEntry>,
      p: string, r: IndexEntry, a: IndexEntry, q: string, s: IndexEntry, b: IndexEntry)
    requires AllWellFormed(entries) && KeysApart(entries) && r in entries && a in entries && s in entries && b in entries
    requires Paired(fmt, content, evidence, p, r, a) && Paired(fmt, content, evidence, q, s, b)
    requires r.descriptor.digest == s.descriptor.digest || a.descriptor.digest == b.descriptor.digest
    ensures p == q && r == s && a == b
  {
    assert r.descriptor.digest == s.descriptor.digest;
    if p != q { RuntimeDigestsDiffer(fmt, content, p, r, q, s); }
    SameEntry(entries, r, s);
    SameEntry(entries, a, b);
  }

  lemma {:induction false} FourOfFour(i: nat, j: nat, k: nat, l: nat, m: nat)
    requires i < 4 && j < 4 && k < 4 && l < 4 && m < 4
    requires i != j && i != k && i != l && j != k && j != l && k != l
    ensures m == i || m == j || m == k || m == l
  {
  }

  /** Two platforms take up two manifests and two attestations, so every entry of the index is in a pair. */
  lemma {:induction false} EveryEntryPaired(fmt: Formats, content: Content, evidence: seq<Evidence>, entries: seq<IndexEntry>, e: IndexEntry)
    requires IndexOk(entries) && e in entries
    requires forall p :: p in PLATFORMS ==> PlatformPaired(fmt, content, evidence, entries, p)
    ensures exists p, r, a :: p in PLATFORMS && r in entries && a in entries
                              && Paired(fmt, content, evidence, p, r, a) && (e == r || e == a)
  {
    var p, q := PLATFORMS[0], PLATFORMS[1];
    assert p in PLATFORMS && q in PLATFORMS;
    TwoPlatforms();
    var r, a :| r in entries && a in entries && Paired(fmt, content, evidence, p, r, a);
    var s, b :| s in entries && b in entries && Paired(fmt, content, evidence, q, s, b);
    RuntimeDigestsDiffer(fmt, content, p, r, q, s);
    FourKeys(entries, p, r, a, q, s, b, e);
  }

  /** Two manifests of different platforms and digests and their two attestations are all the entries there are. */
  lemma {:induction false} FourKeys(entries: seq<IndexEntry>, p: string, r: IndexEntry, a: IndexEntry,
                                    q: string, s: IndexEntry, b: IndexEntry, e: IndexEntry)
    requires |entries| == 4 && e in entries && r in entries && a in entries && s in entries && b in entries
    requires r.IndexEntry? && a.IndexEntry? && s.IndexEntry? && b.IndexEntry?
    requires KeyOf(r) == Runtime(p) && KeyOf(a) == Subject(r.descriptor.digest)
    requires KeyOf(s) == Runtime(q) && KeyOf(b) == Subject(s.descriptor.digest)
    requires p != q && r.descriptor.digest != s.descriptor.digest
    ensures e == r || e == a || e == s || e == b
  {
    DifferentKeys(entries, [r, a, s, b], e);
  }

  lemma {:induction false} DifferentKeys(entries: seq<IndexEntry>, four: seq<IndexEntry>, e: IndexEntry)
    requires |entries| == 4 && |four| == 4 && e in entries
    requires forall x :: x in four ==> x in entries && x.IndexEntry?
    requires forall i, j :: 0 <= i < j < |four| ==> KeyOf(four[i]) != KeyOf(four[j])
    ensures e in four
  {
    assert four[0] in four && four[1] in four && four[2] in four && four[3] in four;
    var i :| 0 <= i < 4 && entries[i] == four[0];
    var j :| 0 <= j < 4 && entries[j] == four[1];
    var k :| 0 <= k < 4 && entries[k] == four[2];
    var l :| 0 <= l < 4 && entries[l] == four[3];
    var m :| 0 <= m < 4 && entries[m] == e;
    FourOfFour(i, j, k, l, m);
  }

  lemma {:induction false} AttestationHasPair(fmt: Formats, content: Content, evidence: seq<Evidence>, entries: seq<IndexEntry>, a: IndexEntry)
    returns (p: string, r: IndexEntry)
    requires IndexPaired(fmt, content, evidence, entries) && a in entries && IsAttestation(a)
    ensures p in PLATFORMS && r in entries && Paired(fmt, content, evidence, p, r, a)
  {
    EveryEntryPaired(fmt, content, evidence, entries, a);
    var q, s, b :| q in PLATFORMS && s in entries && b in entries && Paired(fmt, content, evidence, q, s, b) && (a == s || a == b);
    assert KeyOf(s) != KeyOf(a) by { assert KeyOf(s) == Runtime(q); }
    p, r := q, s;
  }

  /** Every attestation of the index attests the manifest of exactly one platform. */
  lemma {:induction false} AttestationsMatchManifests(fmt: Formats, content: Content, evidence: seq<Evidence>, entries: seq<IndexEntry>,
                                                      a: IndexEntry)
    requires IndexPaired(fmt, content, evidence, entries) && a in entries && IsAttestation(a)
    ensures exists p, r :: p in PLATFORMS && r in entries && OnlyPair(fmt, content, evidence, entries, p, r, a)
  {
    var p, r := AttestationHasPair(fmt, content, evidence, entries, a);
    forall q, s | s in entries && Paired(fmt, content, evidence, q, s, a) ensures q == p && s == r {
      OneToOne(fmt, content, evidence, entries, p, r, a, q, s, a);
    }
    assert OnlyPair(fmt, content, evidence, entries, p, r, a);
  }

  ghost predicate OnlyPair(fmt: Formats, content: Content, evidence: seq<Evidence>, entries: seq<IndexEntry>,
                           p: string, r: IndexEntry, a: IndexEntry) {
    && Paired(fmt, content, evidence, p, r, a)
    && forall q, s :: s in entries && Paired(fmt, content, evidence, q, s, a) ==> q == p && s == r
  }

  // ---------- every file is named by its own hash

  predicate Genuine(fmt: Formats, content: Content, digest: string) {
    BlobPath(digest) in content && fmt.hash(content[BlobPath(digest)]) == digest
  }

  ghost predicate AllGenuine(fmt: Formats, content: Content, digest: string, m: Manifest)
    requires ManifestShapeOk(m)
  {
    && Genuine(fmt, content, digest) && Genuine(fmt, content, m.config.value.digest)
    && forall i :: 0 <= i < |m.layers.value| ==> Genuine(fmt, content, m.layers.value[i].digest)
  }

  lemma {:induction false} GenuineRuntime(fmt: Formats, content: Content, p: string, r: IndexEntry) returns (m: Manifest)
    requires RuntimeOk(fmt, content, p, r)
    ensures ManifestShapeOk(m) && AllGenuine(fmt, content, r.descriptor.digest, m)
    ensures Reached(fmt, content, r.descriptor.digest) == ManifestPaths(r.descriptor.digest, m)
  {
    m :| LeadsTo(fmt, content, r.descriptor, m) && RuntimeManifest(fmt, content, p, m);
    OneManifest(fmt, content, r.descriptor, m);
    GenuineLayers(fmt, content, m.layers.value, Some(LAYER_MEDIA_TYPES));
  }

  lemma {:induction false} GenuineAttestation(fmt: Formats, content: Content, a: IndexEntry, d: Descriptor) returns (m: Manifest)
    requires AttestationOk(fmt, content, a, d)
    ensures ManifestShapeOk(m) && AllGenuine(fmt, content, a.descriptor.digest, m)
    ensures Reached(fmt, content, a.descriptor.digest) == ManifestPaths(a.descriptor.digest, m)
  {
    m :| LeadsTo(fmt, content, a.descriptor, m) && AttestationManifest(fmt, content, m, d);
    OneManifest(fmt, content, a.descriptor, m);
    GenuineLayers(fmt, content, m.layers.value, None);
  }

  lemma {:induction false} GenuineLayers(fmt: Formats, content: Content, ds: seq<Descriptor>, allowed: Option<set<string>>)
    requires BlobsOk(fmt, content, ds, allowed)
    ensures forall i :: 0 <= i < |ds| ==> Genuine(fmt, content, ds[i].digest)
  {
    forall i | 0 <= i < |ds| ensures Genuine(fmt, content, ds[i].digest) {
      assert BlobGenuine(fmt, content, ds[i], allowed, false);
    }
  }

  lemma {:induction false} ReachedBlob(fmt: Formats, content: Content, digest: string, m: Manifest, path: string)
    requires ManifestShapeOk(m) && AllGenuine(fmt, content, digest, m) && path in ManifestPaths(digest, m)
    ensures path in content && path == BlobPath(fmt.hash(content[path]))
  {
    if path in BlobPaths(m.layers.value) {
      var i :| 0 <= i < |m.layers.value| && path == BlobPath(m.layers.value[i].digest);
    }
  }

  /** Apart from the two markers, an accepted layout holds only blobs, each under its own digest. */
  lemma {:induction false} ContentAddressed(fmt: Formats, content: Content, collected: Option<seq<FileRecord>>, authority: Authority, path: string)
    requires LayoutOk(fmt, content, collected, authority)
    requires path in content && path != LAYOUT_FILE && path != INDEX_FILE
    ensures path == BlobPath(fmt.hash(content[path]))
  {
    var entries := IndexEntries(fmt, content, authority).value;
    var e :| e in entries && e.IndexEntry? && path in Reached(fmt, content, e.descriptor.digest);
    EveryEntryPaired(fmt, content, authority.platformEvidence, entries, e);
    var p, r, a :| p in PLATFORMS && r in entries && a in entries
                   && Paired(fmt, content, authority.platformEvidence, p, r, a) && (e == r || e == a);
    var m;
    if e == r { m := GenuineRuntime(fmt, content, p, r); } else { m := GenuineAttestation(fmt, content, a, r.descriptor); }
    ReachedBlob(fmt, content, e.descriptor.digest, m, path);
  }

  // ---------- the inspection

  ghost predicate EvidenceFiled(evidence: seq<Evidence>, byPlatform: map<string, Evidence>) {
    && (forall p :: p in byPlatform ==> byPlatform[p] in evidence && byPlatform[p].Evidence? && byPlatform[p].platform == p)
    && forall i :: 0 <= i < |evidence| ==> evidence[i].Evidence? && evidence[i].platform in byPlatform
                                           && byPlatform[evidence[i].platform] == evidence[i]
  }

  method EvidenceByPlatform(evidence: seq<Evidence>) returns (byPlatform: Option<map<string, Evidence>>)
    ensures byPlatform.Some? <==> EvidenceOk(evidence)
    ensures byPlatform.Some? ==> EvidenceFiled(evidence, byPlatform.value) && forall p :: p in byPlatform.value ==> p in PLATFORMS
  {
    var filed: map<string, Evidence> := map[];
    for i := 0 to |evidence|
      invariant EvidenceFiled(evidence[..i], filed) && EvidenceOk(evidence[..i])
      invariant forall p :: p in filed ==> p in PLATFORMS
    {
      var e := evidence[i];
      assert evidence[..i + 1] == evidence[..i] + [e];
      if !e.Evidence? || e.platform !in PLATFORMS {
        return None;
      }
      if e.platform in filed {
        var k :| 0 <= k < i && evidence[k] == filed[e.platform];
        return None;
      }
      filed := filed[e.platform := e];
    }
    assert evidence[..|evidence|] == evidence;
    byPlatform := Some(filed);
  }

  datatype Maps = Maps(runtime: map<string, IndexEntry>, attestations: map<string, IndexEntry>)

  ghost function PairPaths(fmt: Formats, content: Content, maps: Maps, p: string): set<string> {
    if p in maps.runtime && maps.runtime[p].IndexEntry? then
      var digest := maps.runtime[p].descriptor.digest;
      if digest in maps.attestations && maps.attestations[digest].IndexEntry? then
        Reached(fmt, content, digest) + Reached(fmt, content, maps.attestations[digest].descriptor.digest)
      else {}
    else {}
  }

  /** The pair of a platform, once it is known to be there, is what the two maps say. */
  lemma {:induction false} PairInMaps(fmt: Formats, content: Content, evidence: seq<Evidence>, entries: seq<IndexEntry>, maps: Maps,
                                      p: string, r: IndexEntry, a: IndexEntry)
    requires Filed(entries, maps.runtime, maps.attestations) && r in entries && a in entries
    requires Paired(fmt, content, evidence, p, r, a)
    ensures p in maps.runtime && maps.runtime[p] == r
    ensures r.descriptor.digest in maps.attestations && maps.attestations[r.descriptor.digest] == a
  {
    var i :| 0 <= i < |entries| && entries[i] == r;
    var j :| 0 <= j < |entries| && entries[j] == a;
    assert KeyOf(entries[i]) == Runtime(p) && KeyOf(entries[j]) == Subject(r.descriptor.digest);
  }

  lemma {:induction false} PlatformPairedExactly(fmt: Formats, content: Content, evidence: seq<Evidence>, byPlatform: map<string, Evidence>,
                                                 entries: seq<IndexEntry>, maps: Maps, p: string)
    requires Filed(entries, maps.runtime, maps.attestations) && EvidenceFiled(evidence, byPlatform)
    ensures PlatformPaired(fmt, content, evidence, entries, p) <==> MapsPair(fmt, content, byPlatform, maps, p)
  {
    if PlatformPaired(fmt, content, evidence, entries, p) {
      var r, a :| r in entries && a in entries && Paired(fmt, content, evidence, p, r, a);
      PairInMaps(fmt, content, evidence, entries, maps, p, r, a);
      var wanted := Evidence(p, r.descriptor.digest, a.descriptor.digest, true);
      var i :| 0 <= i < |evidence| && evidence[i] == wanted;
      assert byPlatform[evidence[i].platform] == evidence[i];
    }
    if MapsPair(fmt, content, byPlatform, maps, p) {
      var r := maps.runtime[p];
      var a := maps.attestations[r.descriptor.digest];
      assert byPlatform[p] in evidence;
      assert Paired(fmt, content, evidence, p, r, a);
    }
  }

  /** What is checked of one platform, read off the maps. */
  ghost predicate MapsPair(fmt: Formats, content: Content, byPlatform: map<string, Evidence>, maps: Maps, p: string) {
    && p in maps.runtime
    && var r := maps.runtime[p];
    && RuntimeOk(fmt, content, p, r)
    && r.descriptor.digest in maps.attestations
    && var a := maps.attestations[r.descriptor.digest];
    && AttestationOk(fmt, content, a, r.descriptor)
    && p in byPlatform && byPlatform[p] == Evidence(p, r.descriptor.digest, a.descriptor.digest, true)
  }

  /** Inspects the manifest, attestation and evidence of one platform. */
  method InspectPlatform(fmt: Formats, content: Content, ghost evidence: seq<Evidence>, byPlatform: map<string, Evidence>,
                         ghost entries: seq<IndexEntry>, maps: Maps, p: string, reached: seq<string>, ghost before: set<string>)
    returns (ok: bool, paths: seq<string>, descriptor: Option<Descriptor>)
    requires Filed(entries, maps.runtime, maps.attestations) && EvidenceFiled(evidence, byPlatform)
    requires Collects(reached, before)
    ensures ok <==> PlatformPaired(fmt, content, evidence, entries, p)
    ensures ok ==>
            && MapsPair(fmt, content, byPlatform, maps, p)
            && descriptor == Some(maps.runtime[p].descriptor)
            && Collects(paths, before + PairPaths(fmt, content, maps, p))
  {
    ok, paths, descriptor := false, reached, None;
    PlatformPairedExactly(fmt, content, evidence, byPlatform, entries, maps, p);
    if p !in maps.runtime { return; }
    var r := maps.runtime[p];
    ok, paths := AssertManifestForPlatform(fmt, content, p, r, reached, before);
    if !ok { return; }
    ghost var here := before + Reached(fmt, content, r.descriptor.digest);
    if r.descriptor.digest !in maps.attestations { return false, paths, None; }
    var a := maps.attestations[r.descriptor.digest];
    ok, paths := AssertAttestationManifest(fmt, content, a, r.descriptor, paths, here);
    if !ok { return; }
    if p !in byPlatform || byPlatform[p] != Evidence(p, r.descriptor.digest, a.descriptor.digest, true) {
      return false, paths, None;
    }
    descriptor := Some(r.descriptor);
    assert here + Reached(fmt, content, a.descriptor.digest) == before + PairPaths(fmt, content, maps, p);
  }

  // ---------- the whole layout

  /** The paths reached through the first `k` platforms. */
  ghost function FirstPaths(fmt: Formats, content: Content, maps: Maps, k: nat): set<string>
    requires k <= |PLATFORMS|
  {
    if k == 0 then {LAYOUT_FILE, INDEX_FILE}
    else FirstPaths(fmt, content, maps, k - 1) + PairPaths(fmt, content, maps, PLATFORMS[k - 1])
  }

  lemma {:induction false} PairPathsReached(fmt: Formats, content: Content, entries: seq<IndexEntry>, maps: Maps, p: string, path: string)
    requires Filed(entries, maps.runtime, maps.attestations) && path in PairPaths(fmt, content, maps, p)
    ensures ReachedFrom(fmt, content, entries, path)
  {
    var r := maps.runtime[p];
    var a := maps.attestations[r.descriptor.digest];
    assert r in entries && a in entries;
  }

  lemma {:induction false} ReachedThroughPair(fmt: Formats, content: Content, evidence: seq<Evidence>, entries: seq<IndexEntry>,
                                              maps: Maps, path: string) returns (p: string)
    requires IndexOk(entries) && Filed(entries, maps.runtime, maps.attestations)
    requires forall p :: p in PLATFORMS ==> PlatformPaired(fmt, content, evidence, entries, p)
    requires ReachedFrom(fmt, content, entries, path)
    ensures p in PLATFORMS && path in PairPaths(fmt, content, maps, p)
  {
    var e :| e in entries && e.IndexEntry? && path in Reached(fmt, content, e.descriptor.digest);
    EveryEntryPaired(fmt, content, evidence, entries, e);
    var q, r, a :| q in PLATFORMS && r in entries && a in entries && Paired(fmt, content, evidence, q, r, a) && (e == r || e == a);
    PairInMaps(fmt, content, evidence, entries, maps, q, r, a);
    p := q;
  }

  lemma {:induction false} FirstPathsUnrolled(fmt: Formats, content: Content, maps: Maps)
    ensures |PLATFORMS| == 2
    ensures FirstPaths(fmt, content, maps, 2) ==
            {LAYOUT_FILE, INDEX_FILE} + PairPaths(fmt, content, maps, PLATFORMS[0]) + PairPaths(fmt, content, maps, PLATFORMS[1])
  {
    assert FirstPaths(fmt, content, maps, 1) == FirstPaths(fmt, content, maps, 0) + PairPaths(fmt, content, maps, PLATFORMS[0]);
  }

  lemma {:induction false} PairsReach(fmt: Formats, content: Content, evidence: seq<Evidence>, entries: seq<IndexEntry>, maps: Maps, path: string)
    requires IndexOk(entries) && Filed(entries, maps.runtime, maps.attestations) && |PLATFORMS| == 2
    requires forall p :: p in PLATFORMS ==> PlatformPaired(fmt, content, evidence, entries, p)
    ensures path in PairPaths(fmt, content, maps, PLATFORMS[0]) + PairPaths(fmt, content, maps, PLATFORMS[1]) <==>
            ReachedFrom(fmt, content, entries, path)
  {
    if path in PairPaths(fmt, content, maps, PLATFORMS[0]) {
      PairPathsReached(fmt, content, entries, maps, PLATFORMS[0], path);
    } else if path in PairPaths(fmt, content, maps, PLATFORMS[1]) {
      PairPathsReached(fmt, content, entries, maps, PLATFORMS[1], path);
    } else if ReachedFrom(fmt, content, entries, path) {
      var p := ReachedThroughPair(fmt, content, evidence, entries, maps, path);
    }
  }

  lemma {:induction false} CoveredWithMarkers(fmt: Formats, content: Content, entries: seq<IndexEntry>, pairs: set<string>, all: set<string>)
    requires all == {LAYOUT_FILE, INDEX_FILE} + pairs && forall path :: path in pairs <==> ReachedFrom(fmt, content, entries, path)
    ensures forall path :: path in all <==> path == LAYOUT_FILE || path == INDEX_FILE || ReachedFrom(fmt, content, entries, path)
  {
  }

  /** Going through the two platforms reaches what the whole index reaches. */
  lemma {:induction false} PairsCoverIndex(fmt: Formats, content: Content, evidence: seq<Evidence>, entries: seq<IndexEntry>, maps: Maps)
    requires IndexOk(entries) && Filed(entries, maps.runtime, maps.attestations)
    requires forall p :: p in PLATFORMS ==> PlatformPaired(fmt, content, evidence, entries, p)
    ensures forall path :: path in FirstPaths(fmt, content, maps, |PLATFORMS|) <==>
                           path == LAYOUT_FILE || path == INDEX_FILE || ReachedFrom(fmt, content, entries, path)
  {
    FirstPathsUnrolled(fmt, content, maps);
    var pairs := PairPaths(fmt, content, maps, PLATFORMS[0]) + PairPaths(fmt, content, maps, PLATFORMS[1]);
    forall path ensures path in pairs <==> ReachedFrom(fmt, content, entries, path) {
      PairsReach(fmt, content, evidence, entries, maps, path);
    }
    CoveredWithMarkers(fmt, content, entries, pairs, FirstPaths(fmt, content, maps, |PLATFORMS|));
  }

  /** The collected files are those of the layout. */
  ghost predicate FilesAgree(content: Content, files: seq<FileRecord>) {
    && StrictlySortedBy(files, PathKey())
    && forall p, b :: p in content && content[p] == b <==> FileRecord(p, b) in files
  }

  function PathsOf(files: seq<FileRecord>): (paths: seq<string>)
    ensures |paths| == |files| && forall i :: 0 <= i < |files| ==> paths[i] == files[i].path
  {
    seq(|files|, i requires 0 <= i < |files| => files[i].path)
  }

  /** Comparing the sorted lists compares the sets of paths. */
  lemma {:induction false} SamePaths(content: Content, files: seq<FileRecord>, reached: seq<string>, paths: set<string>)
    requires FilesAgree(content, files) && Collects(reached, paths)
    ensures PathsOf(files) == SortBy(reached, Itself()) <==> forall path :: path in content <==> path in paths
  {
    var actual, expected := PathsOf(files), SortBy(reached, Itself());
    SortIsStrict(reached, Itself());
    PermutationMembers(expected, reached);
    forall i, j | 0 <= i < j < |actual| ensures Less(Itself()(actual[i]), Itself()(actual[j])) {
      assert Less(PathKey()(files[i]), PathKey()(files[j]));
    }
    forall path ensures path in actual <==> path in content {
      if path in content {
        assert FileRecord(path, content[path]) in files;
        var i :| 0 <= i < |files| && files[i] == FileRecord(path, content[path]);
        assert actual[i] == path;
      }
      if path in actual {
        var i :| 0 <= i < |actual| && actual[i] == path;
        assert files[i] == FileRecord(path, files[i].bytes);
      }
    }
    if forall path :: path in content <==> path in paths {
      StrictlySortedUnique(actual, expected, Itself());
    }
  }

  /** The closure names each platform's manifest, in platform order. */
  ghost predicate ClosureOf(fmt: Formats, content: Content, evidence: seq<Evidence>, entries: seq<IndexEntry>,
                            closure: seq<(string, Descriptor)>, n: nat) {
    && |closure| == n <= |PLATFORMS|
    && forall k :: 0 <= k < n ==>
         && closure[k].0 == PLATFORMS[k]
         && PairedAs(fmt, content, evidence, entries, PLATFORMS[k], closure[k].1)
  }

  ghost predicate PairedAs(fmt: Formats, content: Content, evidence: seq<Evidence>, entries: seq<IndexEntry>, p: string, d: Descriptor) {
    exists r, a :: r in entries && a in entries && Paired(fmt, content, evidence, p, r, a) && r.descriptor == d
  }

  lemma {:induction false} ClosureGrows(fmt: Formats, content: Content, evidence: seq<Evidence>, entries: seq<IndexEntry>,
                                        closure: seq<(string, Descriptor)>, k: nat, d: Descriptor)
    requires k < |PLATFORMS| && ClosureOf(fmt, content, evidence, entries, closure, k)
    requires PairedAs(fmt, content, evidence, entries, PLATFORMS[k], d)
    ensures ClosureOf(fmt, content, evidence, entries, closure + [(PLATFORMS[k], d)], k + 1)
  {
  }

  ghost predicate FirstPaired(fmt: Formats, content: Content, evidence: seq<Evidence>, entries: seq<IndexEntry>, k: nat) {
    forall j :: 0 <= j < k <= |PLATFORMS| ==> PlatformPaired(fmt, content, evidence, entries, PLATFORMS[j])
  }

  lemma {:induction false} AllPaired(fmt: Formats, content: Content, evidence: seq<Evidence>, entries: seq<IndexEntry>)
    requires FirstPaired(fmt, content, evidence, entries, |PLATFORMS|)
    ensures forall p :: p in PLATFORMS ==> PlatformPaired(fmt, content, evidence, entries, p)
  {
    forall p | p in PLATFORMS ensures PlatformPaired(fmt, content, evidence, entries, p) {
      var j :| 0 <= j < |PLATFORMS| && PLATFORMS[j] == p;
    }
  }

  /** Goes through the platforms in order. */
  method InspectPlatforms(fmt: Formats, content: Content, ghost evidence: seq<Evidence>, byPlatform: map<string, Evidence>,
                          ghost entries: seq<IndexEntry>, maps: Maps)
    returns (ok: bool, reached: seq<string>, closure: seq<(string, Descriptor)>)
    requires Filed(entries, maps.runtime, maps.attestations) && EvidenceFiled(evidence, byPlatform)
    ensures ok <==> forall p :: p in PLATFORMS ==> PlatformPaired(fmt, content, evidence, entries, p)
    ensures ok ==> Collects(reached, FirstPaths(fmt, content, maps, |PLATFORMS|))
                   && ClosureOf(fmt, content, evidence, entries, closure, |PLATFORMS|)
  {
    reached, closure := [LAYOUT_FILE, INDEX_FILE], [];
    MarkersDiffer();
    for k := 0 to |PLATFORMS|
      invariant Collects(reached, FirstPaths(fmt, content, maps, k))
      invariant ClosureOf(fmt, content, evidence, entries, closure, k)
      invariant FirstPaired(fmt, content, evidence, entries, k)
    {
      var descriptor;
      ok, reached, descriptor := InspectPlatform(fmt, content, evidence, byPlatform, entries, maps, PLATFORMS[k], reached,
                                                 FirstPaths(fmt, content, maps, k));
      if !ok {
        assert PLATFORMS[k] in PLATFORMS;
        return;
      }
      assert FirstPaired(fmt, content, evidence, entries, k + 1);
      PairedAsMaps(fmt, content, evidence, byPlatform, entries, maps, PLATFORMS[k]);
      ClosureGrows(fmt, content, evidence, entries, closure, k, descriptor.value);
      closure := closure + [(PLATFORMS[k], descriptor.value)];
    }
    AllPaired(fmt, content, evidence, entries);
    ok := true;
  }

  lemma {:induction false} MarkersDiffer()
    ensures Collects([LAYOUT_FILE, INDEX_FILE], {LAYOUT_FILE, INDEX_FILE})
  {
    assert LAYOUT_FILE[0] != INDEX_FILE[0];
  }

  lemma {:induction false} PairedAsMaps(fmt: Formats, content: Content, evidence: seq<Evidence>, byPlatform: map<string, Evidence>,
                                        entries: seq<IndexEntry>, maps: Maps, p: string)
    requires Filed(entries, maps.runtime, maps.attestations) && EvidenceFiled(evidence, byPlatform)
    requires MapsPair(fmt, content, byPlatform, maps, p)
    ensures PairedAs(fmt, content, evidence, entries, p, maps.runtime[p].descriptor)
  {
    var r := maps.runtime[p];
    var a := maps.attestations[r.descriptor.digest];
    assert byPlatform[p] in evidence;
    assert Paired(fmt, content, evidence, p, r, a);
  }

  /** Accepts exactly the indexes whose platforms all pair off, and collects what they reach. */
  method InspectIndex(fmt: Formats, content: Content, evidence: seq<Evidence>, manifests: Option<seq<IndexEntry>>)
    returns (ok: bool, reached: seq<string>, closure: seq<(string, Descriptor)>, ghost paths: set<string>)
    ensures ok <==> manifests.Some? && IndexPaired(fmt, content, evidence, manifests.value)
    ensures ok ==> && Collects(reached, paths)
                   && (forall path :: path in paths <==>
                         path == LAYOUT_FILE || path == INDEX_FILE || ReachedFrom(fmt, content, manifests.value, path))
                   && ClosureOf(fmt, content, evidence, manifests.value, closure, |PLATFORMS|)
  {
    ok, reached, closure, paths := false, [], [], {};
    var built := BuildDescriptorClosure(manifests);
    if built.None? { return; }
    ghost var entries := manifests.value;
    var maps := Maps(built.value.0, built.value.1);
    var byPlatform := EvidenceByPlatform(evidence);
    if byPlatform.None? { return; }
    ok, reached, closure := InspectPlatforms(fmt, content, evidence, byPlatform.value, entries, maps);
    if !ok { return; }
    EvidenceComplete(fmt, content, evidence, entries, byPlatform.value, maps);
    if |byPlatform.value| != |PLATFORMS| { return false, reached, closure, paths; }
    PairsCoverIndex(fmt, content, evidence, entries, maps);
    paths := FirstPaths(fmt, content, maps, |PLATFORMS|);
  }

  method ReadMarker(fmt: Formats, content: Content) returns (ok: bool)
    ensures ok <==> MarkerOk(fmt, content)
  {
    if LAYOUT_FILE !in content { return false; }
    var bytes := content[LAYOUT_FILE];
    if |bytes| > MAX_JSON_BYTES { return false; }
    ok := fmt.marker(bytes);
  }

  /** Reads the index and compares it with the authority, in the order of the checks. */
  method ReadIndex(fmt: Formats, content: Content, authority: Authority) returns (manifests: Option<seq<IndexEntry>>)
    ensures manifests == IndexEntries(fmt, content, authority)
  {
    if INDEX_FILE !in content { return None; }
    var bytes := content[INDEX_FILE];
    if |bytes| > MAX_JSON_BYTES { return None; }
    if fmt.hash(bytes) != authority.imageDigest { return None; }
    if fmt.textHash(bytes) != authority.manifestSha256 { return None; }
    var index := fmt.index(bytes);
    if index.None? { return None; }
    if index.value.mediaType != INDEX_MEDIA_TYPE || index.value.schemaVersion != 2 { return None; }
    manifests := index.value.manifests;
  }

  /** Accepts exactly the layouts described by `LayoutOk`, and then names each platform's manifest. */
  method InspectLayout(fmt: Formats, content: Content, collected: Option<seq<FileRecord>>, authority: Authority)
    returns (closure: Option<seq<(string, Descriptor)>>)
    requires collected.Some? ==> FilesAgree(content, collected.value)
    ensures closure.Some? <==> LayoutOk(fmt, content, collected, authority)
    ensures closure.Some? ==> ClosureOf(fmt, content, authority.platformEvidence,
                                        IndexEntries(fmt, content, authority).value, closure.value, |PLATFORMS|)
  {
    var ok := ReadMarker(fmt, content);
    if !ok { return None; }
    var entries := ReadIndex(fmt, content, authority);
    ghost var paths;
    var reached, found;
    ok, reached, found, paths := InspectIndex(fmt, content, authority.platformEvidence, entries);
    if !ok || collected.None? { return None; }
    SamePaths(content, collected.value, reached, paths);
    closure := if PathsOf(collected.value) == SortBy(reached, Itself()) then Some(found) else None;
  }

  /** The count of evidence is right once every platform has its own. */
  lemma {:induction false} EvidenceComplete(fmt: Formats, content: Content, evidence: seq<Evidence>, entries: seq<IndexEntry>,
                                            byPlatform: map<string, Evidence>, maps: Maps)
    requires Filed(entries, maps.runtime, maps.attestations) && EvidenceFiled(evidence, byPlatform)
    requires forall p :: p in PLATFORMS ==> PlatformPaired(fmt, content, evidence, entries, p)
    requires forall p :: p in byPlatform ==> p in PLATFORMS
    ensures |byPlatform| == |PLATFORMS|
  {
    forall p | p in PLATFORMS ensures p in byPlatform {
      PlatformPairedExactly(fmt, content, evidence, byPlatform, entries, maps, p);
    }
    AllPlatforms(byPlatform);
  }
}
