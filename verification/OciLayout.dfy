/** An authoritative image layout on disk: an index of runtime manifests and their attestations,
    blobs named by their digests, and nothing else. */
module OciLayout {
  import opened Wrappers
  import opened Text
  import opened Sorting
  import opened BundleCollector

  const PLATFORMS: seq<string> := ["linux/amd64", "linux/arm64"]
  const MAX_JSON_BYTES: nat := 16777216
  const INDEX_MEDIA_TYPE := "application/vnd.oci.image.index.v1+json"
  const MANIFEST_MEDIA_TYPE := "application/vnd.oci.image.manifest.v1+json"
  const CONFIG_MEDIA_TYPE := "application/vnd.oci.image.config.v1+json"
  const LAYER_MEDIA_TYPES: set<string> := {
    "application/vnd.oci.image.layer.v1.tar+gzip",
    "application/vnd.oci.image.layer.v1.tar",
    "application/vnd.oci.image.layer.v1.tar+zstd"
  }
  const LAYOUT_FILE := "oci-layout"
  const INDEX_FILE := "index.json"

  type Bytes = seq<int>

  /** What every descriptor carries; a value of the wrong shape reads as an empty media type. */
  datatype Descriptor = Descriptor(mediaType: string, digest: string, size: int)

  datatype IndexEntry =
    | Malformed
    | IndexEntry(descriptor: Descriptor, os: string, architecture: string, referenceType: string, referenceDigest: string)

  datatype Index = Index(mediaType: string, schemaVersion: int, manifests: Option<seq<IndexEntry>>)

  datatype Manifest = Manifest(schemaVersion: int, mediaType: string, config: Option<Descriptor>,
                               layers: Option<seq<Descriptor>>, subject: Option<Descriptor>)

  datatype Config = Config(os: string, architecture: string, diffIds: Option<seq<string>>)

  datatype Evidence = NoEvidence | Evidence(platform: string, subjectDigest: string, attestationDigest: string, exactKeys: bool)

  datatype Authority = Authority(imageDigest: string, manifestSha256: string, platformEvidence: seq<Evidence>)

  /** Hashing and reading the four kinds of document stay arbitrary. */
  datatype Formats = Formats(hash: Bytes -> string, textHash: Bytes -> string, marker: Bytes -> bool,
                             index: Bytes -> Option<Index>, manifest: Bytes -> Option<Manifest>, config: Bytes -> Option<Config>)

  type Content = map<string, Bytes>

  // ---------- descriptors

  predicate IsDigest(d: string) {
    && |d| == 71 && d[..7] == "sha256:"
    && forall i :: 7 <= i < 71 ==> ('0' <= d[i] <= '9') || ('a' <= d[i] <= 'f')
  }

  function BlobPath(digest: string): string {
    "blobs/sha256/" + if |digest| >= 7 then digest[7..] else ""
  }

  predicate ShapeOk(d: Descriptor, allowed: Option<set<string>>) {
    && 0 < |d.mediaType| <= 255 && (forall c :: c in d.mediaType ==> c > ' ' && c != '\U{7f}')
    && (allowed.Some? ==> d.mediaType in allowed.value)
    && IsDigest(d.digest)
    && 0 <= d.size <= MAX_SINGLE_FILE_BYTES
  }

  /** The descriptor is well formed and its blob is there, small enough to be read into memory if it has to be,
      and of the size and hash that the descriptor says. */
  predicate BlobGenuine(fmt: Formats, content: Content, d: Descriptor, allowed: Option<set<string>>, capture: bool) {
    && ShapeOk(d, allowed)
    && BlobPath(d.digest) in content
    && var bytes := content[BlobPath(d.digest)];
    && (capture ==> |bytes| <= MAX_JSON_BYTES)
    && |bytes| == d.size && fmt.hash(bytes) == d.digest
  }

  /** Reads the blob of a descriptor, in the order of the checks. */
  method ReadBlob(fmt: Formats, content: Content, d: Descriptor, allowed: Option<set<string>>, capture: bool)
    returns (r: Option<Bytes>)
    ensures r.Some? <==> BlobGenuine(fmt, content, d, allowed, capture)
    ensures r.Some? ==> r.value == content[BlobPath(d.digest)]
  {
    if !ShapeOk(d, allowed) || BlobPath(d.digest) !in content { return None; }
    var bytes := content[BlobPath(d.digest)];
    if capture && |bytes| > MAX_JSON_BYTES { return None; }
    if |bytes| != d.size { return None; }
    if fmt.hash(bytes) != d.digest { return None; }
    r := Some(bytes);
  }

  // ---------- the index

  datatype Key = Runtime(platform: string) | Subject(digest: string)

  function PlatformName(e: IndexEntry): string
    requires e.IndexEntry?
  {
    e.os + "/" + e.architecture
  }

  predicate IsAttestation(e: IndexEntry) {
    e.IndexEntry? && PlatformName(e) == "unknown/unknown"
  }

  /** What one index entry is an entry for. */
  function KeyOf(e: IndexEntry): Key
    requires e.IndexEntry?
  {
    if IsAttestation(e) then Subject(e.referenceDigest) else Runtime(PlatformName(e))
  }

  predicate EntryWellFormed(e: IndexEntry) {
    && e.IndexEntry? && e.os != "" && e.architecture != ""
    && e.descriptor.mediaType != "" && e.descriptor.size > 0 && IsDigest(e.descriptor.digest)
    && if IsAttestation(e) then e.referenceType == "attestation-manifest" && IsDigest(e.referenceDigest)
       else PlatformName(e) in PLATFORMS
  }

  ghost predicate AllWellFormed(entries: seq<IndexEntry>) {
    forall i :: 0 <= i < |entries| ==> EntryWellFormed(entries[i])
  }

  ghost predicate KeysApart(entries: seq<IndexEntry>)
    requires AllWellFormed(entries)
  {
    forall i, j :: 0 <= i < j < |entries| ==> KeyOf(entries[i]) != KeyOf(entries[j])
  }

  /** Two entries for each platform: no two entries for the same thing, and a manifest for every platform. */
  ghost predicate IndexOk(entries: seq<IndexEntry>) {
    && |entries| == |PLATFORMS| * 2
    && AllWellFormed(entries) && KeysApart(entries)
    && forall p :: p in PLATFORMS ==> HasKey(entries, Runtime(p))
  }

  ghost predicate HasKey(entries: seq<IndexEntry>, key: Key) {
    exists e :: e in entries && e.IndexEntry? && KeyOf(e) == key
  }

  /** The two maps hold every entry seen so far under its key, and nothing else. */
  ghost predicate Filed(entries: seq<IndexEntry>, runtime: map<string, IndexEntry>, attestations: map<string, IndexEntry>) {
    && (forall p :: p in runtime ==> runtime[p] in entries && runtime[p].IndexEntry? && KeyOf(runtime[p]) == Runtime(p))
    && (forall s :: s in attestations ==> attestations[s] in entries && attestations[s].IndexEntry? && KeyOf(attestations[s]) == Subject(s))
    && (forall i :: 0 <= i < |entries| ==>
          && entries[i].IndexEntry?
          && match KeyOf(entries[i])
             case Runtime(p) => p in runtime && runtime[p] == entries[i]
             case Subject(s) => s in attestations && attestations[s] == entries[i])
  }

  /** Filed without a clash, and each entry well formed. */
  ghost predicate FiledApart(entries: seq<IndexEntry>, runtime: map<string, IndexEntry>, attestations: map<string, IndexEntry>) {
    && Filed(entries, runtime, attestations)
    && |runtime| + |attestations| == |entries|
    && (forall p :: p in runtime ==> p in PLATFORMS)
    && AllWellFormed(entries) && KeysApart(entries)
  }

  lemma {:induction false} FileOne(entries: seq<IndexEntry>, runtime: map<string, IndexEntry>,
                                   attestations: map<string, IndexEntry>, e: IndexEntry)
    requires Filed(entries, runtime, attestations) && e.IndexEntry?
    requires IsAttestation(e) ==> e.referenceDigest !in attestations
    requires !IsAttestation(e) ==> PlatformName(e) !in runtime
    ensures IsAttestation(e) ==> Filed(entries + [e], runtime, attestations[e.referenceDigest := e])
    ensures !IsAttestation(e) ==> Filed(entries + [e], runtime[PlatformName(e) := e], attestations)
    ensures forall i :: 0 <= i < |entries| ==> KeyOf(entries[i]) != KeyOf(e)
  {
  }

  lemma {:induction false} FileEntry(entries: seq<IndexEntry>, runtime: map<string, IndexEntry>,
                                     attestations: map<string, IndexEntry>, e: IndexEntry)
    requires FiledApart(entries, runtime, attestations) && EntryWellFormed(e)
    requires IsAttestation(e) ==> e.referenceDigest !in attestations
    requires !IsAttestation(e) ==> PlatformName(e) !in runtime
    ensures IsAttestation(e) ==> FiledApart(entries + [e], runtime, attestations[e.referenceDigest := e])
    ensures !IsAttestation(e) ==> FiledApart(entries + [e], runtime[PlatformName(e) := e], attestations)
  {
    FileOne(entries, runtime, attestations, e);
    OneMoreEntry(entries, e);
  }

  lemma {:induction false} OneMoreEntry(entries: seq<IndexEntry>, e: IndexEntry)
    requires AllWellFormed(entries) && KeysApart(entries) && EntryWellFormed(e)
    requires forall i :: 0 <= i < |entries| ==> KeyOf(entries[i]) != KeyOf(e)
    ensures AllWellFormed(entries + [e]) && KeysApart(entries + [e])
  {
  }

  /** Once every entry is filed, full maps mean that every platform is there. */
  lemma {:induction false} FullMaps(entries: seq<IndexEntry>, runtime: map<string, IndexEntry>, attestations: map<string, IndexEntry>)
    requires FiledApart(entries, runtime, attestations) && |entries| == |PLATFORMS| * 2
    ensures |runtime| == |PLATFORMS| && |attestations| == |PLATFORMS| <==> IndexOk(entries)
  {
    AllPlatforms(runtime);
    forall p | p in PLATFORMS ensures p in runtime <==> HasKey(entries, Runtime(p)) {
      if p in runtime { assert KeyOf(runtime[p]) == Runtime(p); }
      if HasKey(entries, Runtime(p)) {
        var e :| e in entries && e.IndexEntry? && KeyOf(e) == Runtime(p);
        var i :| 0 <= i < |entries| && entries[i] == e;
        assert KeyOf(entries[i]) == Runtime(p);
      }
    }
  }

  lemma {:induction false} AllPlatforms<T>(runtime: map<string, T>)
    requires forall p :: p in runtime ==> p in PLATFORMS
    ensures |runtime| <= |PLATFORMS|
    ensures |runtime| == |PLATFORMS| <==> forall p :: p in PLATFORMS ==> p in runtime
  {
    var both := {PLATFORMS[0], PLATFORMS[1]};
    assert PLATFORMS[0] != PLATFORMS[1] by { assert PLATFORMS[0][7] == 'm' && PLATFORMS[1][7] == 'r'; }
    assert |both| == 2;
    assert runtime.Keys <= both;
    SubsetSize(runtime.Keys, both);
    assert |runtime.Keys| == |runtime|;
  }

  lemma {:induction false} SubsetSize(a: set<string>, b: set<string>)
    requires a <= b
    ensures |a| <= |b| && (|a| == |b| <==> a == b)
  {
    assert b == a + (b - a);
    assert a !! (b - a);
  }

  method BuildDescriptorClosure(manifests: Option<seq<IndexEntry>>)
    returns (maps: Option<(map<string, IndexEntry>, map<string, IndexEntry>)>)
    ensures maps.Some? <==> manifests.Some? && IndexOk(manifests.value)
    ensures maps.Some? ==>
            && Filed(manifests.value, maps.value.0, maps.value.1)
            && |maps.value.0| == |PLATFORMS| && |maps.value.1| == |PLATFORMS|
  {
    if manifests.None? || |manifests.value| != |PLATFORMS| * 2 {
      return None;
    }
    var entries := manifests.value;
    var runtime: map<string, IndexEntry>, attestations: map<string, IndexEntry> := map[], map[];
    for i := 0 to |entries|
      invariant FiledApart(entries[..i], runtime, attestations)
    {
      var e := entries[i];
      assert entries[..i + 1] == entries[..i] + [e];
      if !EntryWellFormed(e) {
        return None;
      }
      if IsAttestation(e) {
        if e.referenceDigest in attestations {
          SeenBefore(entries, i, attestations[e.referenceDigest]);
          return None;
        }
        FileEntry(entries[..i], runtime, attestations, e);
        attestations := attestations[e.referenceDigest := e];
      } else {
        if PlatformName(e) in runtime {
          SeenBefore(entries, i, runtime[PlatformName(e)]);
          return None;
        }
        FileEntry(entries[..i], runtime, attestations, e);
        runtime := runtime[PlatformName(e) := e];
      }
    }
    assert entries[..|entries|] == entries;
    FullMaps(entries, runtime, attestations);
    if |runtime| != |PLATFORMS| || |attestations| != |PLATFORMS| {
      return None;
    }
    maps := Some((runtime, attestations));
  }

  lemma {:induction false} SeenBefore(entries: seq<IndexEntry>, i: nat, other: IndexEntry)
    requires i < |entries| && entries[i].IndexEntry? && other in entries[..i]
    requires other.IndexEntry? && KeyOf(other) == KeyOf(entries[i])
    ensures !IndexOk(entries)
  {
    var k :| 0 <= k < i && entries[k] == other;
  }

  // ---------- manifests

  /** The operating system and architecture that a platform name stands for. */
  function Expected(platform: string): (string, string) {
    var parts := Split(platform, '/');
    (parts[0], if |parts| > 1 then parts[1] else "")
  }

  function ManifestAt(fmt: Formats, content: Content, digest: string): Option<Manifest> {
    if BlobPath(digest) in content then fmt.manifest(content[BlobPath(digest)]) else None
  }

  ghost predicate BlobsOk(fmt: Formats, content: Content, ds: seq<Descriptor>, allowed: Option<set<string>>) {
    forall i :: 0 <= i < |ds| ==> BlobGenuine(fmt, content, ds[i], allowed, false)
  }

  predicate ManifestShapeOk(m: Manifest) {
    && m.schemaVersion == 2 && m.mediaType == MANIFEST_MEDIA_TYPE
    && m.config.Some? && m.layers.Some? && m.layers.value != []
  }

  predicate ConfigOk(c: Config, platform: string, layers: nat) {
    && (c.os, c.architecture) == Expected(platform)
    && c.diffIds.Some? && |c.diffIds.value| == layers
    && forall d :: d in c.diffIds.value ==> IsDigest(d)
  }

  /** The descriptor's blob is a well-shaped manifest. */
  ghost predicate LeadsTo(fmt: Formats, content: Content, d: Descriptor, m: Manifest) {
    && BlobGenuine(fmt, content, d, Some({MANIFEST_MEDIA_TYPE}), true)
    && ManifestAt(fmt, content, d.digest) == Some(m) && ManifestShapeOk(m)
  }

  /** The manifest's config is genuine and describes the platform. */
  ghost predicate ConfigFits(fmt: Formats, content: Content, platform: string, m: Manifest)
    requires ManifestShapeOk(m)
  {
    && m.config.value.mediaType == CONFIG_MEDIA_TYPE
    && BlobGenuine(fmt, content, m.config.value, Some({CONFIG_MEDIA_TYPE}), true)
    && var config := fmt.config(content[BlobPath(m.config.value.digest)]);
    && config.Some? && ConfigOk(config.value, platform, |m.layers.value|)
  }

  /** The manifest is that of a runnable image of the platform, with every blob present and genuine. */
  ghost predicate RuntimeManifest(fmt: Formats, content: Content, platform: string, m: Manifest) {
    && ManifestShapeOk(m) && ConfigFits(fmt, content, platform, m)
    && BlobsOk(fmt, content, m.layers.value, Some(LAYER_MEDIA_TYPES))
  }

  /** The entry leads to a runnable image of the platform. */
  ghost predicate RuntimeOk(fmt: Formats, content: Content, platform: string, e: IndexEntry) {
    && e.IndexEntry? && platform in PLATFORMS && (e.os, e.architecture) == Expected(platform)
    && exists m :: LeadsTo(fmt, content, e.descriptor, m) && RuntimeManifest(fmt, content, platform, m)
  }

  /** The manifest attests exactly that runtime descriptor, with every blob present and genuine. */
  ghost predicate AttestationManifest(fmt: Formats, content: Content, m: Manifest, runtime: Descriptor) {
    && ManifestShapeOk(m) && m.subject == Some(runtime)
    && BlobGenuine(fmt, content, m.config.value, None, false)
    && BlobsOk(fmt, content, m.layers.value, None)
  }

  /** The entry leads to an attestation of exactly that runtime descriptor. */
  ghost predicate AttestationOk(fmt: Formats, content: Content, e: IndexEntry, runtime: Descriptor) {
    && e.IndexEntry?
    && exists m :: LeadsTo(fmt, content, e.descriptor, m) && AttestationManifest(fmt, content, m, runtime)
  }

  ghost function BlobPaths(ds: seq<Descriptor>): set<string> {
    set i | 0 <= i < |ds| :: BlobPath(ds[i].digest)
  }

  ghost function ManifestPaths(digest: string, m: Manifest): set<string>
    requires ManifestShapeOk(m)
  {
    {BlobPath(digest), BlobPath(m.config.value.digest)} + BlobPaths(m.layers.value)
  }

  /** The files that a descriptor in the index reaches. */
  ghost function Reached(fmt: Formats, content: Content, digest: string): set<string> {
    var m := ManifestAt(fmt, content, digest);
    if m.Some? && ManifestShapeOk(m.value) then ManifestPaths(digest, m.value) else {BlobPath(digest)}
  }

  /** The paths collected so far, each once, in the order they were first reached. */
  ghost predicate Collects(paths: seq<string>, s: set<string>) {
    DistinctKeys(paths, Itself()) && forall p :: p in paths <==> p in s
  }

  function AddPath(paths: seq<string>, path: string): seq<string> {
    if path in paths then paths else paths + [path]
  }

  lemma {:induction false} AddCollects(paths: seq<string>, s: set<string>, path: string)
    requires Collects(paths, s)
    ensures Collects(AddPath(paths, path), s + {path})
  {
  }

  /** Reads every descriptor's blob and adds its path. */
  method ReadBlobs(fmt: Formats, content: Content, ds: seq<Descriptor>, allowed: Option<set<string>>,
                   reached: seq<string>, ghost before: set<string>) returns (ok: bool, paths: seq<string>)
    requires Collects(reached, before)
    ensures ok <==> BlobsOk(fmt, content, ds, allowed)
    ensures ok ==> Collects(paths, before + BlobPaths(ds))
  {
    paths := reached;
    assert before + BlobPaths(ds[..0]) == before;
    for i := 0 to |ds|
      invariant forall k :: 0 <= k < i ==> BlobGenuine(fmt, content, ds[k], allowed, false)
      invariant Collects(paths, before + BlobPaths(ds[..i]))
    {
      var blob := ReadBlob(fmt, content, ds[i], allowed, false);
      if blob.None? {
        return false, paths;
      }
      AddCollects(paths, before + BlobPaths(ds[..i]), BlobPath(ds[i].digest));
      paths := AddPath(paths, BlobPath(ds[i].digest));
      BlobPathsStep(ds, i);
      assert before + BlobPaths(ds[..i]) + {BlobPath(ds[i].digest)} == before + BlobPaths(ds[..i + 1]);
    }
    assert ds[..|ds|] == ds;
    ok := true;
  }

  lemma {:induction false} BlobPathsStep(ds: seq<Descriptor>, i: nat)
    requires i < |ds|
    ensures BlobPaths(ds[..i + 1]) == BlobPaths(ds[..i]) + {BlobPath(ds[i].digest)}
  {
    forall p | p in BlobPaths(ds[..i]) + {BlobPath(ds[i].digest)} ensures p in BlobPaths(ds[..i + 1]) {
      if p in BlobPaths(ds[..i]) {
        var k :| 0 <= k < |ds[..i]| && p == BlobPath(ds[..i][k].digest);
        assert p == BlobPath(ds[..i + 1][k].digest);
      } else {
        assert p == BlobPath(ds[..i + 1][i].digest);
      }
    }
    forall p | p in BlobPaths(ds[..i + 1]) ensures p in BlobPaths(ds[..i]) + {BlobPath(ds[i].digest)} {
      var k :| 0 <= k < |ds[..i + 1]| && p == BlobPath(ds[..i + 1][k].digest);
      if k < i { assert p == BlobPath(ds[..i][k].digest); }
    }
  }

  /** The manifest that a descriptor leads to, if it leads to one. */
  method ReadManifest(fmt: Formats, content: Content, d: Descriptor) returns (m: Option<Manifest>)
    ensures m.Some? ==> LeadsTo(fmt, content, d, m.value)
    ensures m.None? ==> forall any :: !LeadsTo(fmt, content, d, any)
  {
    var blob := ReadBlob(fmt, content, d, Some({MANIFEST_MEDIA_TYPE}), true);
    if blob.None? { return None; }
    m := fmt.manifest(blob.value);
    if m.Some? && !ManifestShapeOk(m.value) { m := None; }
  }

  /** Reads the config of a manifest and compares it with the platform. */
  method CheckConfig(fmt: Formats, content: Content, platform: string, m: Manifest) returns (ok: bool)
    requires ManifestShapeOk(m)
    ensures ok <==> ConfigFits(fmt, content, platform, m)
  {
    if m.config.value.mediaType != CONFIG_MEDIA_TYPE { return false; }
    var blob := ReadBlob(fmt, content, m.config.value, Some({CONFIG_MEDIA_TYPE}), true);
    if blob.None? { return false; }
    var config := fmt.config(blob.value);
    ok := config.Some? && ConfigOk(config.value, platform, |m.layers.value|);
  }

  /** Adds the paths of a manifest, its config and its layers, reading the layers. */
  method ReadLayers(fmt: Formats, content: Content, digest: string, m: Manifest, allowed: Option<set<string>>,
                    reached: seq<string>, ghost before: set<string>) returns (ok: bool, paths: seq<string>)
    requires ManifestShapeOk(m) && Collects(reached, before)
    ensures ok <==> BlobsOk(fmt, content, m.layers.value, allowed)
    ensures ok ==> Collects(paths, before + ManifestPaths(digest, m))
  {
    var manifestPath, configPath := BlobPath(digest), BlobPath(m.config.value.digest);
    AddCollects(reached, before, manifestPath);
    paths := AddPath(reached, manifestPath);
    AddCollects(paths, before + {manifestPath}, configPath);
    paths := AddPath(paths, configPath);
    ghost var here := before + {manifestPath} + {configPath};
    ok, paths := ReadBlobs(fmt, content, m.layers.value, allowed, paths, here);
    assert here + BlobPaths(m.layers.value) == before + ManifestPaths(digest, m);
  }

  method AssertManifestForPlatform(fmt: Formats, content: Content, platform: string, e: IndexEntry,
                                   reached: seq<string>, ghost before: set<string>) returns (ok: bool, paths: seq<string>)
    requires e.IndexEntry? && Collects(reached, before)
    ensures ok <==> RuntimeOk(fmt, content, platform, e)
    ensures ok ==> Collects(paths, before + Reached(fmt, content, e.descriptor.digest))
  {
    var expected := Expected(platform);
    if platform in PLATFORMS { KnownPlatform(platform); }
    if expected.0 != "linux" || platform !in PLATFORMS || e.os != expected.0 || e.architecture != expected.1 {
      return false, reached;
    }
    var m := ReadManifest(fmt, content, e.descriptor);
    if m.None? { return false, reached; }
    OneManifest(fmt, content, e.descriptor, m.value);
    ok := CheckConfig(fmt, content, platform, m.value);
    if !ok { return false, reached; }
    ok, paths := ReadLayers(fmt, content, e.descriptor.digest, m.value, Some(LAYER_MEDIA_TYPES), reached, before);
    assert ok <==> RuntimeManifest(fmt, content, platform, m.value);
  }

  method AssertAttestationManifest(fmt: Formats, content: Content, e: IndexEntry, runtime: Descriptor,
                                   reached: seq<string>, ghost before: set<string>) returns (ok: bool, paths: seq<string>)
    requires e.IndexEntry? && Collects(reached, before)
    ensures ok <==> AttestationOk(fmt, content, e, runtime)
    ensures ok ==> Collects(paths, before + Reached(fmt, content, e.descriptor.digest))
  {
    var m := ReadManifest(fmt, content, e.descriptor);
    if m.None? { return false, reached; }
    OneManifest(fmt, content, e.descriptor, m.value);
    if m.value.subject != Some(runtime) { return false, reached; }
    var config := ReadBlob(fmt, content, m.value.config.value, None, false);
    if config.None? { return false, reached; }
    ok, paths := ReadLayers(fmt, content, e.descriptor.digest, m.value, None, reached, before);
    assert ok <==> AttestationManifest(fmt, content, m.value, runtime);
  }

  /** A descriptor leads to at most one manifest, and reaches its paths. */
  lemma {:induction false} OneManifest(fmt: Formats, content: Content, d: Descriptor, m: Manifest)
    requires LeadsTo(fmt, content, d, m)
    ensures forall any :: LeadsTo(fmt, content, d, any) ==> any == m
    ensures Reached(fmt, content, d.digest) == ManifestPaths(d.digest, m)
  {
  }

  lemma {:induction false} PlatformParts(platform: string, os: string, architecture: string)
    requires '/' !in os && '/' !in architecture && platform == os + ['/'] + architecture
    ensures Expected(platform) == (os, architecture)
  {
    SplitAt(os, architecture, '/');
  }

  lemma {:induction false} NamedApart(platform: string)
    requires platform in PLATFORMS
    ensures |platform| == 11 && platform[..5] == "linux" && platform[5] == '/'
    ensures '/' !in platform[6..] && platform[7] == if platform == PLATFORMS[0] then 'm' else 'r'
    ensures platform == PLATFORMS[0] || platform == PLATFORMS[1]
  {
  }

  lemma {:induction false} KnownPlatform(platform: string)
    requires platform in PLATFORMS
    ensures |platform| == 11 && Expected(platform) == (platform[..5], platform[6..]) && platform[..5] == "linux"
  {
    NamedApart(platform);
    PlatformParts(platform, platform[..5], platform[6..]);
  }

  lemma {:induction false} TwoPlatforms()
    ensures |PLATFORMS| == 2 && PLATFORMS[0] != PLATFORMS[1]
  {
    assert PLATFORMS[0][7] != PLATFORMS[1][7];
  }

  /** Different platforms differ in architecture. */
  lemma {:induction false} ArchitecturesDiffer(p: string, q: string)
    requires p in PLATFORMS && q in PLATFORMS && p != q
    ensures Expected(p).1 != Expected(q).1
  {
    NamedApart(p);
    NamedApart(q);
    KnownPlatform(p);
    KnownPlatform(q);
    assert Expected(p).1[1] == p[7] && Expected(q).1[1] == q[7];
  }
}
