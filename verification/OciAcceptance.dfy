/** What an accepted image layout is, said without the checks that accept it: a marker, an authoritative index,
    and for each platform an image and its attestation, all stored under their digests, and no other file. */
module OciAcceptance {
  import opened Wrappers
  import opened BundleCollector
  import opened BundleTree
  import opened OciLayout
  import opened OciInspection

  // ---------- stored documents

  /** A digest by its form. */
  ghost predicate IsSha256(digest: string) {
    exists hex: string :: |hex| == 64 && digest == "sha256:" + hex && forall c :: c in hex ==> '0' <= c <= '9' || 'a' <= c <= 'f'
  }

  lemma {:induction false} DigestForm(digest: string)
    ensures IsDigest(digest) <==> IsSha256(digest)
  {
    if IsDigest(digest) {
      var hex := digest[7..];
      assert digest == "sha256:" + hex;
      assert |hex| == 64 && forall c :: c in hex ==> '0' <= c <= '9' || 'a' <= c <= 'f';
    }
    if hex: string :| |hex| == 64 && digest == "sha256:" + hex && forall c :: c in hex ==> '0' <= c <= '9' || 'a' <= c <= 'f' {
      assert |digest| == 71 && digest[..7] == "sha256:";
      forall i | 7 <= i < 71 ensures ('0' <= digest[i] <= '9') || ('a' <= digest[i] <= 'f') {
        assert digest[i] == hex[i - 7] && hex[i - 7] in hex;
      }
    }
  }

  /** The layout holds these bytes under the digest and of the size that a well-formed descriptor names. */
  ghost predicate Stores(fmt: Formats, content: Content, d: Descriptor, bytes: Bytes) {
    && 1 <= |d.mediaType| <= 255 && (forall c :: c in d.mediaType ==> c > ' ' && c != '\U{7f}')
    && IsSha256(d.digest) && |bytes| == d.size <= MAX_SINGLE_FILE_BYTES && fmt.hash(bytes) == d.digest
    && ("blobs/sha256/" + d.digest[7..]) in content && content["blobs/sha256/" + d.digest[7..]] == bytes
  }

  /** The same for a document, which is small enough to be read. */
  ghost predicate StoresDocument(fmt: Formats, content: Content, d: Descriptor, mediaType: string, bytes: Bytes) {
    d.mediaType == mediaType && Stores(fmt, content, d, bytes) && |bytes| <= MAX_JSON_BYTES
  }

  lemma {:induction false} StoredExactly(fmt: Formats, content: Content, d: Descriptor, allowed: Option<set<string>>, capture: bool)
    ensures BlobGenuine(fmt, content, d, allowed, capture) <==>
            && (allowed.Some? ==> d.mediaType in allowed.value)
            && exists bytes :: Stores(fmt, content, d, bytes) && (capture ==> |bytes| <= MAX_JSON_BYTES)
    ensures forall bytes :: Stores(fmt, content, d, bytes) ==> BlobPath(d.digest) in content && bytes == content[BlobPath(d.digest)]
  {
    DigestForm(d.digest);
    if BlobGenuine(fmt, content, d, allowed, capture) {
      assert Stores(fmt, content, d, content[BlobPath(d.digest)]);
    }
  }

  /** A manifest of the form every manifest has. */
  predicate HasForm(m: Manifest) {
    && m.schemaVersion == 2 && m.mediaType == MANIFEST_MEDIA_TYPE
    && m.config.Some? && m.layers.Some? && |m.layers.value| >= 1
  }

  ghost predicate StoresManifest(fmt: Formats, content: Content, d: Descriptor, m: Manifest) {
    HasForm(m) && exists bytes :: StoresDocument(fmt, content, d, MANIFEST_MEDIA_TYPE, bytes) && fmt.manifest(bytes) == Some(m)
  }

  lemma {:induction false} ManifestStored(fmt: Formats, content: Content, d: Descriptor, m: Manifest)
    ensures LeadsTo(fmt, content, d, m) <==> StoresManifest(fmt, content, d, m)
  {
    StoredExactly(fmt, content, d, Some({MANIFEST_MEDIA_TYPE}), true);
    if LeadsTo(fmt, content, d, m) {
      var bytes :| Stores(fmt, content, d, bytes) && |bytes| <= MAX_JSON_BYTES;
      assert StoresDocument(fmt, content, d, MANIFEST_MEDIA_TYPE, bytes);
    }
  }

  /** The config names the system and one digest for each layer. */
  ghost predicate Describes(c: Config, os: string, architecture: string, layers: nat) {
    && c.os == os && c.architecture == architecture
    && c.diffIds.Some? && |c.diffIds.value| == layers
    && forall i :: 0 <= i < layers ==> IsSha256(c.diffIds.value[i])
  }

  ghost predicate StoresConfig(fmt: Formats, content: Content, d: Descriptor, os: string, architecture: string, layers: nat) {
    exists bytes, c :: && StoresDocument(fmt, content, d, CONFIG_MEDIA_TYPE, bytes) && fmt.config(bytes) == Some(c)
                       && Describes(c, os, architecture, layers)
  }

  lemma {:induction false} ConfigDescribes(c: Config, platform: string, os: string, architecture: string, layers: nat)
    requires Expected(platform) == (os, architecture)
    ensures ConfigOk(c, platform, layers) <==> Describes(c, os, architecture, layers)
  {
    if c.diffIds.Some? {
      forall d | d in c.diffIds.value ensures IsDigest(d) <==> IsSha256(d) {
        DigestForm(d);
      }
      forall i | 0 <= i < |c.diffIds.value| ensures c.diffIds.value[i] in c.diffIds.value {
      }
    }
  }

  lemma {:induction false} ConfigStored(fmt: Formats, content: Content, platform: string, os: string, architecture: string, m: Manifest)
    requires ManifestShapeOk(m) && Expected(platform) == (os, architecture)
    ensures ConfigFits(fmt, content, platform, m) <==> StoresConfig(fmt, content, m.config.value, os, architecture, |m.layers.value|)
  {
    var d := m.config.value;
    StoredExactly(fmt, content, d, Some({CONFIG_MEDIA_TYPE}), true);
    if ConfigFits(fmt, content, platform, m) {
      var bytes :| Stores(fmt, content, d, bytes) && |bytes| <= MAX_JSON_BYTES;
      var c := fmt.config(bytes).value;
      ConfigDescribes(c, platform, os, architecture, |m.layers.value|);
      assert StoresDocument(fmt, content, d, CONFIG_MEDIA_TYPE, bytes);
    }
    if StoresConfig(fmt, content, d, os, architecture, |m.layers.value|) {
      var bytes, c :| StoresDocument(fmt, content, d, CONFIG_MEDIA_TYPE, bytes) && fmt.config(bytes) == Some(c)
                      && Describes(c, os, architecture, |m.layers.value|);
      ConfigDescribes(c, platform, os, architecture, |m.layers.value|);
    }
  }

  /** A layer is stored; one of an image is an archive. */
  ghost predicate StoresLayer(fmt: Formats, content: Content, layer: Descriptor, archive: bool) {
    && (archive ==> || layer.mediaType == "application/vnd.oci.image.layer.v1.tar"
                    || layer.mediaType == "application/vnd.oci.image.layer.v1.tar+gzip"
                    || layer.mediaType == "application/vnd.oci.image.layer.v1.tar+zstd")
    && exists bytes :: Stores(fmt, content, layer, bytes)
  }

  ghost predicate StoresLayers(fmt: Formats, content: Content, layers: seq<Descriptor>, archives: bool) {
    forall i :: 0 <= i < |layers| ==> StoresLayer(fmt, content, layers[i], archives)
  }

  function Archives(archives: bool): Option<set<string>> {
    if archives then Some(LAYER_MEDIA_TYPES) else None
  }

  lemma {:induction false} LayerStored(fmt: Formats, content: Content, layer: Descriptor, archive: bool)
    ensures BlobGenuine(fmt, content, layer, Archives(archive), false) <==> StoresLayer(fmt, content, layer, archive)
  {
    StoredExactly(fmt, content, layer, Archives(archive), false);
  }

  lemma {:induction false} LayersStored(fmt: Formats, content: Content, layers: seq<Descriptor>, archives: bool)
    ensures BlobsOk(fmt, content, layers, Archives(archives)) <==> StoresLayers(fmt, content, layers, archives)
  {
    forall i | 0 <= i < |layers|
      ensures BlobGenuine(fmt, content, layers[i], Archives(archives), false) <==> StoresLayer(fmt, content, layers[i], archives)
    {
      LayerStored(fmt, content, layers[i], archives);
    }
  }

  // ---------- images and attestations

  /** The entry of a runtime image with its manifest, and the entry of its attestation with its own. */
  datatype Image = Image(entry: IndexEntry, manifest: Manifest, attestationEntry: IndexEntry, attestation: Manifest)

  ghost predicate StoresImage(fmt: Formats, content: Content, os: string, architecture: string, e: IndexEntry, m: Manifest) {
    && e.IndexEntry? && e.os == os && e.architecture == architecture && e.descriptor.size >= 1
    && StoresManifest(fmt, content, e.descriptor, m)
    && StoresConfig(fmt, content, m.config.value, os, architecture, |m.layers.value|)
    && StoresLayers(fmt, content, m.layers.value, true)
  }

  ghost predicate StoresAttestation(fmt: Formats, content: Content, e: IndexEntry, n: Manifest, image: Descriptor) {
    && e.IndexEntry? && e.os == "unknown" && e.architecture == "unknown" && e.descriptor.size >= 1
    && e.referenceType == "attestation-manifest" && e.referenceDigest == image.digest
    && StoresManifest(fmt, content, e.descriptor, n) && n.subject == Some(image)
    && (exists bytes :: Stores(fmt, content, n.config.value, bytes))
    && StoresLayers(fmt, content, n.layers.value, false)
  }

  /** An image of the system with its attestation, both stored whole, and evidence that names the two. */
  ghost predicate StoresBoth(fmt: Formats, content: Content, evidence: seq<Evidence>, os: string, architecture: string, w: Image) {
    && StoresImage(fmt, content, os, architecture, w.entry, w.manifest)
    && StoresAttestation(fmt, content, w.attestationEntry, w.attestation, w.entry.descriptor)
    && Evidence(os + "/" + architecture, w.entry.descriptor.digest, w.attestationEntry.descriptor.digest, true) in evidence
  }

  lemma {:induction false} ImageStored(fmt: Formats, content: Content, p: string, os: string, architecture: string, e: IndexEntry, m: Manifest)
    requires p in PLATFORMS && Expected(p) == (os, architecture) && e.IndexEntry? && e.descriptor.size >= 1
    ensures (e.os, e.architecture) == Expected(p) && LeadsTo(fmt, content, e.descriptor, m) && RuntimeManifest(fmt, content, p, m)
            <==> StoresImage(fmt, content, os, architecture, e, m)
  {
    ManifestStored(fmt, content, e.descriptor, m);
    if HasForm(m) {
      ConfigStored(fmt, content, p, os, architecture, m);
      LayersStored(fmt, content, m.layers.value, true);
    }
  }

  lemma {:induction false} AttestationStored(fmt: Formats, content: Content, e: IndexEntry, n: Manifest, image: Descriptor)
    requires e.IndexEntry?
    ensures LeadsTo(fmt, content, e.descriptor, n) && AttestationManifest(fmt, content, n, image) <==>
            && StoresManifest(fmt, content, e.descriptor, n) && n.subject == Some(image)
            && (exists bytes :: Stores(fmt, content, n.config.value, bytes))
            && StoresLayers(fmt, content, n.layers.value, false)
  {
    ManifestStored(fmt, content, e.descriptor, n);
    if HasForm(n) {
      StoredExactly(fmt, content, n.config.value, None, false);
      LayersStored(fmt, content, n.layers.value, false);
    }
  }

  lemma {:induction false} UnknownApart(os: string, architecture: string)
    requires os != "" && architecture != ""
    ensures os + "/" + architecture == "unknown/unknown" <==> os == "unknown" && architecture == "unknown"
  {
    var name, unknown := os + "/" + architecture, "unknown/unknown";
    if name == unknown {
      assert name[|os|] == '/' && unknown[|os|] == '/';
      assert |os| == 7;
      assert os == name[..7] && architecture == name[8..];
    }
  }

  const LINUX := "linux"
  const AMD64 := "amd64"
  const ARM64 := "arm64"

  function On(architecture: string): string { LINUX + "/" + architecture }

  /** The two systems. */
  lemma {:induction false} Systems()
    ensures PLATFORMS == [On(AMD64), On(ARM64)] && AMD64 != ARM64 && AMD64 != "" && ARM64 != "" && LINUX != ""
    ensures '/' !in AMD64 && '/' !in ARM64
  {
    assert On(AMD64) == "linux/amd64" && On(ARM64) == "linux/arm64";
    assert AMD64[1] != ARM64[1];
  }

  lemma {:induction false} SystemParts(architecture: string)
    requires '/' !in architecture
    ensures Expected(On(architecture)) == (LINUX, architecture)
  {
    PlatformParts(On(architecture), LINUX, architecture);
  }

  lemma {:induction false} KnownApart(p: string)
    requires p in PLATFORMS
    ensures p != "unknown/unknown"
  {
    NamedApart(p);
  }

  /** What a stored image and attestation say of their entries. */
  lemma {:induction false} EntriesOfBoth(fmt: Formats, content: Content, evidence: seq<Evidence>, p: string, os: string, architecture: string, w: Image)
    requires p in PLATFORMS && p == os + "/" + architecture && os != "" && architecture != ""
    requires StoresBoth(fmt, content, evidence, os, architecture, w)
    ensures EntryWellFormed(w.entry) && KeyOf(w.entry) == Runtime(p)
    ensures EntryWellFormed(w.attestationEntry) && KeyOf(w.attestationEntry) == Subject(w.entry.descriptor.digest)
  {
    KnownApart(p);
    UnknownApart("unknown", "unknown");
    DigestForm(w.entry.descriptor.digest);
    DigestForm(w.attestationEntry.descriptor.digest);
  }

  lemma {:induction false} PairStored(fmt: Formats, content: Content, evidence: seq<Evidence>, p: string, os: string, architecture: string,
                                      r: IndexEntry, a: IndexEntry) returns (w: Image)
    requires p in PLATFORMS && Expected(p) == (os, architecture) && p == os + "/" + architecture
    requires EntryWellFormed(r) && EntryWellFormed(a) && Paired(fmt, content, evidence, p, r, a)
    ensures w.entry == r && w.attestationEntry == a && StoresBoth(fmt, content, evidence, os, architecture, w)
  {
    var m :| LeadsTo(fmt, content, r.descriptor, m) && RuntimeManifest(fmt, content, p, m);
    var n :| LeadsTo(fmt, content, a.descriptor, n) && AttestationManifest(fmt, content, n, r.descriptor);
    ImageStored(fmt, content, p, os, architecture, r, m);
    AttestationStored(fmt, content, a, n, r.descriptor);
    UnknownApart(a.os, a.architecture);
    w := Image(r, m, a, n);
  }

  lemma {:induction false} BothPaired(fmt: Formats, content: Content, evidence: seq<Evidence>, p: string, os: string, architecture: string, w: Image)
    requires p in PLATFORMS && Expected(p) == (os, architecture) && p == os + "/" + architecture && os != "" && architecture != ""
    requires StoresBoth(fmt, content, evidence, os, architecture, w)
    ensures Paired(fmt, content, evidence, p, w.entry, w.attestationEntry)
  {
    EntriesOfBoth(fmt, content, evidence, p, os, architecture, w);
    ImageStored(fmt, content, p, os, architecture, w.entry, w.manifest);
    AttestationStored(fmt, content, w.attestationEntry, w.attestation, w.entry.descriptor);
  }

  // ---------- the whole layout

  function PathOf(d: Descriptor): string {
    "blobs/sha256/" + if |d.digest| >= 7 then d.digest[7..] else ""
  }

  ghost function LayerPaths(layers: seq<Descriptor>): set<string> {
    set d | d in layers :: PathOf(d)
  }

  /** The files that an image and its attestation take up. */
  ghost function ImagePaths(w: Image): set<string>
    requires w.entry.IndexEntry? && w.attestationEntry.IndexEntry? && HasForm(w.manifest) && HasForm(w.attestation)
  {
    {PathOf(w.entry.descriptor), PathOf(w.manifest.config.value), PathOf(w.attestationEntry.descriptor), PathOf(w.attestation.config.value)}
    + LayerPaths(w.manifest.layers.value) + LayerPaths(w.attestation.layers.value)
  }

  ghost predicate HasMarker(fmt: Formats, content: Content) {
    exists bytes :: LAYOUT_FILE in content && content[LAYOUT_FILE] == bytes && |bytes| <= MAX_JSON_BYTES && fmt.marker(bytes)
  }

  /** The index file is the one that the authority names by both its hashes. */
  ghost predicate HasIndex(fmt: Formats, content: Content, authority: Authority, entries: seq<IndexEntry>) {
    exists bytes ::
      && INDEX_FILE in content && content[INDEX_FILE] == bytes && |bytes| <= MAX_JSON_BYTES
      && fmt.hash(bytes) == authority.imageDigest && fmt.textHash(bytes) == authority.manifestSha256
      && fmt.index(bytes) == Some(Index(INDEX_MEDIA_TYPE, 2, Some(entries)))
  }

  function EvidenceOf(platform: string, w: Image): Evidence
    requires w.entry.IndexEntry? && w.attestationEntry.IndexEntry?
  {
    Evidence(platform, w.entry.descriptor.digest, w.attestationEntry.descriptor.digest, true)
  }

  /** The index and the evidence list exactly two images with their attestations, both stored whole. */
  ghost predicate TwoImages(fmt: Formats, content: Content, evidence: seq<Evidence>, entries: seq<IndexEntry>, x: Image, y: Image) {
    && StoresBoth(fmt, content, evidence, LINUX, AMD64, x)
    && StoresBoth(fmt, content, evidence, LINUX, ARM64, y)
    && multiset(entries) == multiset{x.entry, x.attestationEntry, y.entry, y.attestationEntry}
    && multiset(evidence) == multiset{EvidenceOf(On(AMD64), x), EvidenceOf(On(ARM64), y)}
  }

  /** The files are the two markers and what the images take up. */
  ghost predicate NoOtherFile(content: Content, x: Image, y: Image)
    requires x.entry.IndexEntry? && x.attestationEntry.IndexEntry? && HasForm(x.manifest) && HasForm(x.attestation)
    requires y.entry.IndexEntry? && y.attestationEntry.IndexEntry? && HasForm(y.manifest) && HasForm(y.attestation)
  {
    content.Keys == {LAYOUT_FILE, INDEX_FILE} + ImagePaths(x) + ImagePaths(y)
  }

  /** Everything that makes a layout acceptable, for the entries of its index and its two images. */
  ghost predicate Acceptable(fmt: Formats, content: Content, authority: Authority, entries: seq<IndexEntry>, x: Image, y: Image) {
    && HasMarker(fmt, content)
    && HasIndex(fmt, content, authority, entries)
    && TwoImages(fmt, content, authority.platformEvidence, entries, x, y)
    && NoOtherFile(content, x, y)
  }

  lemma {:induction false} IndexExactly(fmt: Formats, content: Content, authority: Authority, entries: seq<IndexEntry>)
    ensures IndexEntries(fmt, content, authority) == Some(entries) <==> HasIndex(fmt, content, authority, entries)
  {
    if IndexEntries(fmt, content, authority) == Some(entries) {
      var bytes := content[INDEX_FILE];
      assert fmt.index(bytes) == Some(Index(INDEX_MEDIA_TYPE, 2, Some(entries)));
    }
  }

  lemma {:induction false} MarkerExactly(fmt: Formats, content: Content)
    ensures MarkerOk(fmt, content) <==> HasMarker(fmt, content)
  {
  }

  // ---------- exactly four entries and two pieces of evidence

  lemma {:induction false} WholeMultiset<T>(part: multiset<T>, all: multiset<T>)
    requires part <= all && |part| == |all|
    ensures part == all
  {
    assert all == part + (all - part);
    assert |all - part| == 0;
  }

  lemma {:induction false} FourAll<T>(xs: seq<T>, a: T, b: T, c: T, d: T)
    requires |xs| == 4 && a in xs && b in xs && c in xs && d in xs
    requires a != b && a != c && a != d && b != c && b != d && c != d
    ensures multiset(xs) == multiset{a, b, c, d}
  {
    WholeMultiset(multiset{a, b, c, d}, multiset(xs));
  }

  lemma {:induction false} TwoAll<T>(xs: seq<T>, a: T, b: T)
    requires |xs| == 2 && a in xs && b in xs && a != b
    ensures multiset(xs) == multiset{a, b}
  {
    WholeMultiset(multiset{a, b}, multiset(xs));
  }

  lemma {:induction false} DistinctPlaces<T>(xs: seq<T>, i: nat, j: nat)
    requires i < j < |xs| && multiset(xs)[xs[i]] == 1
    ensures xs[i] != xs[j]
  {
    assert xs == xs[..i] + [xs[i]] + xs[i + 1..];
    assert multiset(xs) == multiset(xs[..i]) + multiset{xs[i]} + multiset(xs[i + 1..]);
    assert xs[j] == xs[i + 1..][j - i - 1];
  }

  /** All evidence there can be: one piece for each platform. */
  lemma {:induction false} TwoPieces(evidence: seq<Evidence>, e: Evidence, f: Evidence)
    requires e.Evidence? && e.platform == PLATFORMS[0] && f.Evidence? && f.platform == PLATFORMS[1]
    ensures EvidenceOk(evidence) && e in evidence && f in evidence <==> multiset(evidence) == multiset{e, f}
  {
    TwoPlatforms();
    if EvidenceOk(evidence) && e in evidence && f in evidence {
      AtMostTwo(evidence);
      BothOfTwo(evidence, e, f);
    }
    if multiset(evidence) == multiset{e, f} {
      assert |evidence| == |multiset(evidence)| == 2;
      assert e in multiset(evidence) && f in multiset(evidence);
      forall i | 0 <= i < |evidence| ensures evidence[i] == e || evidence[i] == f {
        assert evidence[i] in multiset(evidence);
      }
      DistinctPlaces(evidence, 0, 1);
    }
  }

  lemma {:induction false} BothOfTwo(evidence: seq<Evidence>, e: Evidence, f: Evidence)
    requires |evidence| <= 2 && e in evidence && f in evidence && e != f
    ensures multiset(evidence) == multiset{e, f}
  {
    var i :| 0 <= i < |evidence| && evidence[i] == e;
    var j :| 0 <= j < |evidence| && evidence[j] == f;
    TwoAll(evidence, e, f);
  }

  lemma {:induction false} AtMostTwo(evidence: seq<Evidence>)
    requires EvidenceOk(evidence)
    ensures |evidence| <= 2
  {
    if |evidence| > 2 {
      NamedApart(evidence[0].platform);
      NamedApart(evidence[1].platform);
      NamedApart(evidence[2].platform);
    }
  }

  // ---------- acceptance

  /** The entries of two images are for four different things. */
  ghost predicate ApartOn(p: string, q: string, x: Image, y: Image) {
    && EntryWellFormed(x.entry) && EntryWellFormed(x.attestationEntry) && EntryWellFormed(y.entry) && EntryWellFormed(y.attestationEntry)
    && KeyOf(x.entry) == Runtime(p) && KeyOf(x.attestationEntry) == Subject(x.entry.descriptor.digest)
    && KeyOf(y.entry) == Runtime(q) && KeyOf(y.attestationEntry) == Subject(y.entry.descriptor.digest)
    && p != q && x.entry.descriptor.digest != y.entry.descriptor.digest
  }

  lemma {:induction false} DifferentImages(fmt: Formats, content: Content, evidence: seq<Evidence>, x: Image, y: Image)
    requires StoresBoth(fmt, content, evidence, LINUX, AMD64, x) && StoresBoth(fmt, content, evidence, LINUX, ARM64, y)
    ensures ApartOn(On(AMD64), On(ARM64), x, y)
  {
    Systems();
    TwoPlatforms();
    SystemParts(AMD64);
    SystemParts(ARM64);
    EntriesOfBoth(fmt, content, evidence, On(AMD64), LINUX, AMD64, x);
    EntriesOfBoth(fmt, content, evidence, On(ARM64), LINUX, ARM64, y);
    BothPaired(fmt, content, evidence, On(AMD64), LINUX, AMD64, x);
    BothPaired(fmt, content, evidence, On(ARM64), LINUX, ARM64, y);
    RuntimeDigestsDiffer(fmt, content, On(AMD64), x.entry, On(ARM64), y.entry);
  }

  /** Four entries for four different things, well formed. */
  ghost predicate FourEntries(entries: seq<IndexEntry>, four: seq<IndexEntry>, p: string, q: string) {
    && |four| == 4 && (forall i :: 0 <= i < 4 ==> EntryWellFormed(four[i]))
    && (forall i, j :: 0 <= i < j < 4 ==> KeyOf(four[i]) != KeyOf(four[j]))
    && KeyOf(four[0]) == Runtime(p) && KeyOf(four[2]) == Runtime(q)
    && multiset(entries) == multiset(four)
  }

  lemma {:induction false} FourMakeIndex(entries: seq<IndexEntry>, four: seq<IndexEntry>, p: string, q: string)
    requires FourEntries(entries, four, p, q) && PLATFORMS == [p, q]
    ensures IndexOk(entries) && four[0] in entries && four[1] in entries && four[2] in entries && four[3] in entries
  {
    assert |entries| == |multiset(entries)| == |multiset(four)| == 4;
    forall i | 0 <= i < |entries| ensures EntryWellFormed(entries[i]) {
      assert entries[i] in multiset(entries) && entries[i] in multiset(four);
      assert entries[i] in four;
    }
    forall i, j | 0 <= i < j < |entries| ensures KeyOf(entries[i]) != KeyOf(entries[j]) {
      KeysOnce(entries, four, i, j);
    }
    forall k | 0 <= k < 4 ensures four[k] in entries {
      assert four[k] in multiset(four);
    }
  }

  lemma {:induction false} KeysOnce(entries: seq<IndexEntry>, four: seq<IndexEntry>, i: nat, j: nat)
    requires |four| == 4 && (forall k :: 0 <= k < 4 ==> four[k].IndexEntry?) && multiset(entries) == multiset(four)
    requires forall k, l :: 0 <= k < l < 4 ==> KeyOf(four[k]) != KeyOf(four[l])
    requires i < j < |entries| && entries[i].IndexEntry? && entries[j].IndexEntry?
    ensures KeyOf(entries[i]) != KeyOf(entries[j])
  {
    assert entries[i] in multiset(four) && entries[j] in multiset(four);
    var k :| 0 <= k < 4 && four[k] == entries[i];
    var l :| 0 <= l < 4 && four[l] == entries[j];
    if k == l {
      OnceInFour(four, k);
      DistinctPlaces(entries, i, j);
    }
  }

  lemma {:induction false} OnceInFour(four: seq<IndexEntry>, k: nat)
    requires |four| == 4 && (forall i :: 0 <= i < 4 ==> four[i].IndexEntry?) && k < 4
    requires forall i, j :: 0 <= i < j < 4 ==> KeyOf(four[i]) != KeyOf(four[j])
    ensures multiset(four)[four[k]] == 1
  {
    assert four == [four[0], four[1], four[2], four[3]];
  }

  lemma {:induction false} FourOf(entries: seq<IndexEntry>, x: Image, y: Image, p: string, q: string)
    requires ApartOn(p, q, x, y) && multiset(entries) == multiset{x.entry, x.attestationEntry, y.entry, y.attestationEntry}
    ensures FourEntries(entries, [x.entry, x.attestationEntry, y.entry, y.attestationEntry], p, q)
  {
  }

  lemma {:induction false} FourInIndex(entries: seq<IndexEntry>, x: Image, y: Image, p: string, q: string)
    requires ApartOn(p, q, x, y) && multiset(entries) == multiset{x.entry, x.attestationEntry, y.entry, y.attestationEntry}
    requires PLATFORMS == [p, q]
    ensures IndexOk(entries) && x.entry in entries && x.attestationEntry in entries && y.entry in entries && y.attestationEntry in entries
  {
    FourOf(entries, x, y, p, q);
    FourMakeIndex(entries, [x.entry, x.attestationEntry, y.entry, y.attestationEntry], p, q);
  }

  lemma {:induction false} ImagePairs(fmt: Formats, content: Content, evidence: seq<Evidence>, entries: seq<IndexEntry>, architecture: string, w: Image)
    requires On(architecture) in PLATFORMS && '/' !in architecture && architecture != ""
    requires StoresBoth(fmt, content, evidence, LINUX, architecture, w) && w.entry in entries && w.attestationEntry in entries
    ensures PlatformPaired(fmt, content, evidence, entries, On(architecture))
  {
    SystemParts(architecture);
    BothPaired(fmt, content, evidence, On(architecture), LINUX, architecture, w);
  }

  lemma {:induction false} EvidenceMakes(fmt: Formats, content: Content, evidence: seq<Evidence>, entries: seq<IndexEntry>, x: Image, y: Image)
    requires TwoImages(fmt, content, evidence, entries, x, y)
    ensures EvidenceOk(evidence)
  {
    Systems();
    TwoPieces(evidence, EvidenceOf(On(AMD64), x), EvidenceOf(On(ARM64), y));
  }

  lemma {:induction false} ImagesMakeIndex(fmt: Formats, content: Content, evidence: seq<Evidence>, entries: seq<IndexEntry>, x: Image, y: Image)
    requires TwoImages(fmt, content, evidence, entries, x, y)
    ensures IndexPaired(fmt, content, evidence, entries) && x.entry in entries && y.entry in entries
  {
    Systems();
    DifferentImages(fmt, content, evidence, x, y);
    FourInIndex(entries, x, y, On(AMD64), On(ARM64));
    EvidenceMakes(fmt, content, evidence, entries, x, y);
    ImagePairs(fmt, content, evidence, entries, AMD64, x);
    ImagePairs(fmt, content, evidence, entries, ARM64, y);
    BothPlatforms(fmt, content, evidence, entries);
  }

  lemma {:induction false} BothPlatforms(fmt: Formats, content: Content, evidence: seq<Evidence>, entries: seq<IndexEntry>)
    requires PLATFORMS == [On(AMD64), On(ARM64)]
    requires PlatformPaired(fmt, content, evidence, entries, On(AMD64)) && PlatformPaired(fmt, content, evidence, entries, On(ARM64))
    ensures forall p :: p in PLATFORMS ==> PlatformPaired(fmt, content, evidence, entries, p)
  {
  }

  lemma {:induction false} ImageOf(fmt: Formats, content: Content, evidence: seq<Evidence>, entries: seq<IndexEntry>, architecture: string)
    returns (w: Image)
    requires On(architecture) in PLATFORMS && '/' !in architecture && architecture != ""
    requires AllWellFormed(entries) && PlatformPaired(fmt, content, evidence, entries, On(architecture))
    ensures StoresBoth(fmt, content, evidence, LINUX, architecture, w) && w.entry in entries && w.attestationEntry in entries
  {
    SystemParts(architecture);
    var r, a :| r in entries && a in entries && Paired(fmt, content, evidence, On(architecture), r, a);
    w := PairStored(fmt, content, evidence, On(architecture), LINUX, architecture, r, a);
  }

  lemma {:induction false} IndexMakesImages(fmt: Formats, content: Content, evidence: seq<Evidence>, entries: seq<IndexEntry>)
    returns (x: Image, y: Image)
    requires IndexPaired(fmt, content, evidence, entries)
    ensures TwoImages(fmt, content, evidence, entries, x, y)
  {
    Systems();
    assert On(AMD64) in PLATFORMS && On(ARM64) in PLATFORMS;
    x := ImageOf(fmt, content, evidence, entries, AMD64);
    y := ImageOf(fmt, content, evidence, entries, ARM64);
    DifferentImages(fmt, content, evidence, x, y);
    FourAll(entries, x.entry, x.attestationEntry, y.entry, y.attestationEntry);
    TwoPieces(evidence, EvidenceOf(On(AMD64), x), EvidenceOf(On(ARM64), y));
  }

  lemma {:induction false} BothReach(fmt: Formats, content: Content, evidence: seq<Evidence>, architecture: string, w: Image)
    requires StoresBoth(fmt, content, evidence, LINUX, architecture, w)
    ensures Reached(fmt, content, w.entry.descriptor.digest) + Reached(fmt, content, w.attestationEntry.descriptor.digest) == ImagePaths(w)
  {
    ManifestStored(fmt, content, w.entry.descriptor, w.manifest);
    ManifestStored(fmt, content, w.attestationEntry.descriptor, w.attestation);
    OneManifest(fmt, content, w.entry.descriptor, w.manifest);
    OneManifest(fmt, content, w.attestationEntry.descriptor, w.attestation);
    SameLayerPaths(w.manifest.layers.value);
    SameLayerPaths(w.attestation.layers.value);
  }

  lemma {:induction false} SameLayerPaths(layers: seq<Descriptor>)
    ensures BlobPaths(layers) == LayerPaths(layers)
  {
    forall path | path in LayerPaths(layers) ensures path in BlobPaths(layers) {
      var d :| d in layers && path == PathOf(d);
      var i :| 0 <= i < |layers| && layers[i] == d;
      assert path == BlobPath(layers[i].digest);
    }
    forall path | path in BlobPaths(layers) ensures path in LayerPaths(layers) {
      var i :| 0 <= i < |layers| && path == BlobPath(layers[i].digest);
      assert layers[i] in layers && path == PathOf(layers[i]);
    }
  }

  /** Four entries reach what each of them reaches. */
  lemma {:induction false} ReachedByFour(fmt: Formats, content: Content, entries: seq<IndexEntry>, a: IndexEntry, b: IndexEntry,
                                         c: IndexEntry, d: IndexEntry, path: string)
    requires multiset(entries) == multiset{a, b, c, d} && a.IndexEntry? && b.IndexEntry? && c.IndexEntry? && d.IndexEntry?
    ensures ReachedFrom(fmt, content, entries, path) <==>
            || path in Reached(fmt, content, a.descriptor.digest) || path in Reached(fmt, content, b.descriptor.digest)
            || path in Reached(fmt, content, c.descriptor.digest) || path in Reached(fmt, content, d.descriptor.digest)
  {
    forall e ensures e in entries <==> e == a || e == b || e == c || e == d {
      assert e in entries <==> e in multiset(entries);
    }
  }

  lemma {:induction false} ImagesReach(fmt: Formats, content: Content, evidence: seq<Evidence>, entries: seq<IndexEntry>, x: Image, y: Image, path: string)
    requires TwoImages(fmt, content, evidence, entries, x, y)
    ensures ReachedFrom(fmt, content, entries, path) <==> path in ImagePaths(x) + ImagePaths(y)
  {
    BothReach(fmt, content, evidence, AMD64, x);
    BothReach(fmt, content, evidence, ARM64, y);
    ReachedByFour(fmt, content, entries, x.entry, x.attestationEntry, y.entry, y.attestationEntry, path);
  }

  lemma {:induction false} FilesExactly(fmt: Formats, content: Content, evidence: seq<Evidence>, entries: seq<IndexEntry>, x: Image, y: Image)
    requires TwoImages(fmt, content, evidence, entries, x, y)
    ensures ExactFiles(fmt, content, entries) <==> NoOtherFile(content, x, y)
  {
    var paths := ImagePaths(x) + ImagePaths(y);
    forall path ensures ReachedFrom(fmt, content, entries, path) <==> path in paths {
      ImagesReach(fmt, content, evidence, entries, x, y, path);
    }
    SameKeys(fmt, content, entries, paths);
    assert {LAYOUT_FILE, INDEX_FILE} + ImagePaths(x) + ImagePaths(y) == {LAYOUT_FILE, INDEX_FILE} + paths;
  }

  lemma {:induction false} SameKeys(fmt: Formats, content: Content, entries: seq<IndexEntry>, paths: set<string>)
    requires forall path :: ReachedFrom(fmt, content, entries, path) <==> path in paths
    ensures ExactFiles(fmt, content, entries) <==> content.Keys == {LAYOUT_FILE, INDEX_FILE} + paths
  {
  }

  lemma {:induction false} AcceptedImages(fmt: Formats, content: Content, collected: Option<seq<FileRecord>>, authority: Authority)
    returns (entries: seq<IndexEntry>, x: Image, y: Image)
    requires LayoutOk(fmt, content, collected, authority)
    ensures Acceptable(fmt, content, authority, entries, x, y)
  {
    MarkerExactly(fmt, content);
    entries := IndexEntries(fmt, content, authority).value;
    IndexExactly(fmt, content, authority, entries);
    x, y := IndexMakesImages(fmt, content, authority.platformEvidence, entries);
    FilesExactly(fmt, content, authority.platformEvidence, entries, x, y);
  }

  lemma {:induction false} ImagesAccepted(fmt: Formats, content: Content, collected: Option<seq<FileRecord>>, authority: Authority,
                                          entries: seq<IndexEntry>, x: Image, y: Image)
    requires collected.Some? && Acceptable(fmt, content, authority, entries, x, y)
    ensures LayoutOk(fmt, content, collected, authority)
  {
    MarkerExactly(fmt, content);
    IndexExactly(fmt, content, authority, entries);
    ImagesMakeIndex(fmt, content, authority.platformEvidence, entries, x, y);
    FilesExactly(fmt, content, authority.platformEvidence, entries, x, y);
  }

  ghost predicate SomeAcceptable(fmt: Formats, content: Content, authority: Authority) {
    exists entries, x, y :: Acceptable(fmt, content, authority, entries, x, y)
  }

  /** A layout is accepted exactly if it has a marker, the index that the authority names by both hashes, and whole
      images with their attestations for the two platforms, which the index and the evidence list and nothing else,
      and if there is no other file. */
  lemma {:induction false} AcceptedExactly(fmt: Formats, content: Content, collected: Option<seq<FileRecord>>, authority: Authority)
    ensures LayoutOk(fmt, content, collected, authority) <==> collected.Some? && SomeAcceptable(fmt, content, authority)
  {
    if LayoutOk(fmt, content, collected, authority) {
      var entries, x, y := AcceptedImages(fmt, content, collected, authority);
    } else if collected.Some? && SomeAcceptable(fmt, content, authority) {
      var entries, x, y :| Acceptable(fmt, content, authority, entries, x, y);
      ImagesAccepted(fmt, content, collected, authority, entries, x, y);
    }
  }

  /** An accepted layout's index is the one its authority names, both ways. */
  lemma {:induction false} IndexIsAuthoritative(fmt: Formats, content: Content, collected: Option<seq<FileRecord>>, authority: Authority)
    requires LayoutOk(fmt, content, collected, authority)
    ensures INDEX_FILE in content && fmt.hash(content[INDEX_FILE]) == authority.imageDigest
    ensures fmt.textHash(content[INDEX_FILE]) == authority.manifestSha256
  {
    var entries, x, y := AcceptedImages(fmt, content, collected, authority);
  }

  lemma {:induction false} ClosureAt(fmt: Formats, content: Content, evidence: seq<Evidence>, entries: seq<IndexEntry>,
                                     closure: seq<(string, Descriptor)>, k: nat, e: IndexEntry)
    requires k < |PLATFORMS| && ClosureOf(fmt, content, evidence, entries, closure, |PLATFORMS|)
    requires AllWellFormed(entries) && KeysApart(entries) && e in entries && e.IndexEntry? && KeyOf(e) == Runtime(PLATFORMS[k])
    ensures |closure| == |PLATFORMS| && closure[k] == (PLATFORMS[k], e.descriptor)
  {
    assert PairedAs(fmt, content, evidence, entries, PLATFORMS[k], closure[k].1);
    var r, a :| r in entries && a in entries && Paired(fmt, content, evidence, PLATFORMS[k], r, a) && r.descriptor == closure[k].1;
    SameEntry(entries, r, e);
  }

  lemma {:induction false} ClosureApart(fmt: Formats, content: Content, evidence: seq<Evidence>, entries: seq<IndexEntry>, x: Image, y: Image,
                                        closure: seq<(string, Descriptor)>)
    requires PLATFORMS == [On(AMD64), On(ARM64)] && ApartOn(On(AMD64), On(ARM64), x, y)
    requires IndexOk(entries) && x.entry in entries && y.entry in entries
    requires ClosureOf(fmt, content, evidence, entries, closure, |PLATFORMS|)
    ensures closure == [(On(AMD64), x.entry.descriptor), (On(ARM64), y.entry.descriptor)]
  {
    ClosureAt(fmt, content, evidence, entries, closure, 0, x.entry);
    ClosureAt(fmt, content, evidence, entries, closure, 1, y.entry);
  }

  /** What the inspection returns for an accepted layout: the two images' descriptors. */
  lemma {:induction false} ClosureExactly(fmt: Formats, content: Content, authority: Authority, entries: seq<IndexEntry>, x: Image, y: Image,
                                          closure: seq<(string, Descriptor)>)
    requires Acceptable(fmt, content, authority, entries, x, y)
    requires ClosureOf(fmt, content, authority.platformEvidence, entries, closure, |PLATFORMS|)
    ensures closure == [(On(AMD64), x.entry.descriptor), (On(ARM64), y.entry.descriptor)]
  {
    Systems();
    DifferentImages(fmt, content, authority.platformEvidence, x, y);
    FourInIndex(entries, x, y, On(AMD64), On(ARM64));
    ClosureApart(fmt, content, authority.platformEvidence, entries, x, y, closure);
  }

  // ---------- the index digest fixes every file

  ghost predicate Injective(hash: Bytes -> string) {
    forall a, b :: hash(a) == hash(b) ==> a == b
  }

  ghost predicate StoredIn(fmt: Formats, content: Content, d: Descriptor) {
    exists bytes :: Stores(fmt, content, d, bytes)
  }

  lemma {:induction false} StoredSame(fmt: Formats, one: Content, other: Content, d: Descriptor)
    requires Injective(fmt.hash) && StoredIn(fmt, one, d) && StoredIn(fmt, other, d)
    ensures PathOf(d) in one && PathOf(d) in other && one[PathOf(d)] == other[PathOf(d)]
  {
    var a :| Stores(fmt, one, d, a);
    var b :| Stores(fmt, other, d, b);
  }

  lemma {:induction false} ManifestSame(fmt: Formats, one: Content, other: Content, d: Descriptor, m: Manifest, n: Manifest)
    requires Injective(fmt.hash) && StoresManifest(fmt, one, d, m) && StoresManifest(fmt, other, d, n)
    ensures m == n && StoredIn(fmt, one, d) && StoredIn(fmt, other, d)
  {
    var a :| StoresDocument(fmt, one, d, MANIFEST_MEDIA_TYPE, a) && fmt.manifest(a) == Some(m);
    var b :| StoresDocument(fmt, other, d, MANIFEST_MEDIA_TYPE, b) && fmt.manifest(b) == Some(n);
  }

  /** The descriptors of everything that an image and its attestation consist of. */
  ghost predicate PartOf(w: Image, d: Descriptor)
    requires w.entry.IndexEntry? && w.attestationEntry.IndexEntry? && HasForm(w.manifest) && HasForm(w.attestation)
  {
    || d == w.entry.descriptor || d == w.manifest.config.value || d in w.manifest.layers.value
    || d == w.attestationEntry.descriptor || d == w.attestation.config.value || d in w.attestation.layers.value
  }

  lemma {:induction false} ManifestIsStored(fmt: Formats, content: Content, d: Descriptor, m: Manifest)
    requires StoresManifest(fmt, content, d, m)
    ensures StoredIn(fmt, content, d)
  {
    var bytes :| StoresDocument(fmt, content, d, MANIFEST_MEDIA_TYPE, bytes) && fmt.manifest(bytes) == Some(m);
    assert Stores(fmt, content, d, bytes);
  }

  lemma {:induction false} ConfigIsStored(fmt: Formats, content: Content, d: Descriptor, os: string, architecture: string, layers: nat)
    requires StoresConfig(fmt, content, d, os, architecture, layers)
    ensures StoredIn(fmt, content, d)
  {
    var bytes, c :| StoresDocument(fmt, content, d, CONFIG_MEDIA_TYPE, bytes) && fmt.config(bytes) == Some(c)
                    && Describes(c, os, architecture, layers);
    assert Stores(fmt, content, d, bytes);
  }

  lemma {:induction false} LayerIsStored(fmt: Formats, content: Content, layers: seq<Descriptor>, archives: bool, d: Descriptor)
    requires StoresLayers(fmt, content, layers, archives) && d in layers
    ensures StoredIn(fmt, content, d)
  {
    var i :| 0 <= i < |layers| && layers[i] == d;
    assert StoresLayer(fmt, content, layers[i], archives);
  }

  lemma {:induction false} PartStored(fmt: Formats, content: Content, evidence: seq<Evidence>, architecture: string, w: Image, d: Descriptor)
    requires StoresBoth(fmt, content, evidence, LINUX, architecture, w) && PartOf(w, d)
    ensures StoredIn(fmt, content, d)
  {
    if d == w.entry.descriptor {
      ManifestIsStored(fmt, content, d, w.manifest);
    } else if d == w.manifest.config.value {
      ConfigIsStored(fmt, content, d, LINUX, architecture, |w.manifest.layers.value|);
    } else if d in w.manifest.layers.value {
      LayerIsStored(fmt, content, w.manifest.layers.value, true, d);
    } else if d == w.attestationEntry.descriptor {
      ManifestIsStored(fmt, content, d, w.attestation);
    } else if d in w.attestation.layers.value {
      LayerIsStored(fmt, content, w.attestation.layers.value, false, d);
    }
  }

  lemma {:induction false} PathHasPart(w: Image, path: string) returns (d: Descriptor)
    requires w.entry.IndexEntry? && w.attestationEntry.IndexEntry? && HasForm(w.manifest) && HasForm(w.attestation)
    requires path in ImagePaths(w)
    ensures PartOf(w, d) && path == PathOf(d)
  {
    if path in LayerPaths(w.manifest.layers.value) {
      d :| d in w.manifest.layers.value && path == PathOf(d);
    } else if path in LayerPaths(w.attestation.layers.value) {
      d :| d in w.attestation.layers.value && path == PathOf(d);
    } else {
      d :| d in {w.entry.descriptor, w.manifest.config.value, w.attestationEntry.descriptor, w.attestation.config.value} && path == PathOf(d);
    }
  }

  lemma {:induction false} PathSame(fmt: Formats, one: Content, other: Content, a: seq<Evidence>, b: seq<Evidence>, architecture: string,
                                    w: Image, path: string)
    requires Injective(fmt.hash) && StoresBoth(fmt, one, a, LINUX, architecture, w) && StoresBoth(fmt, other, b, LINUX, architecture, w)
    requires path in ImagePaths(w)
    ensures path in one && path in other && one[path] == other[path]
  {
    var d := PathHasPart(w, path);
    PartStored(fmt, one, a, architecture, w, d);
    PartStored(fmt, other, b, architecture, w, d);
    StoredSame(fmt, one, other, d);
  }

  /** The same index lists the same images, which have the same manifests. */
  lemma {:induction false} ImageSame(fmt: Formats, one: Content, other: Content, a: seq<Evidence>, b: seq<Evidence>, architecture: string,
                                     entries: seq<IndexEntry>, v: Image, w: Image)
    requires Injective(fmt.hash) && IndexOk(entries) && On(architecture) in PLATFORMS && architecture != ""
    requires StoresBoth(fmt, one, a, LINUX, architecture, v) && v.entry in entries && v.attestationEntry in entries
    requires StoresBoth(fmt, other, b, LINUX, architecture, w) && w.entry in entries && w.attestationEntry in entries
    ensures v == w
  {
    EntriesOfBoth(fmt, one, a, On(architecture), LINUX, architecture, v);
    EntriesOfBoth(fmt, other, b, On(architecture), LINUX, architecture, w);
    SameEntry(entries, v.entry, w.entry);
    SameEntry(entries, v.attestationEntry, w.attestationEntry);
    ManifestSame(fmt, one, other, v.entry.descriptor, v.manifest, w.manifest);
    ManifestSame(fmt, one, other, v.attestationEntry.descriptor, v.attestation, w.attestation);
  }

  lemma {:induction false} IndexSame(fmt: Formats, one: Content, other: Content, a: Authority, b: Authority,
                                     entries: seq<IndexEntry>, others: seq<IndexEntry>)
    requires Injective(fmt.hash) && a.imageDigest == b.imageDigest
    requires HasIndex(fmt, one, a, entries) && HasIndex(fmt, other, b, others)
    ensures entries == others && one[INDEX_FILE] == other[INDEX_FILE]
  {
  }

  lemma {:induction false} ImagesSame(fmt: Formats, one: Content, other: Content, a: seq<Evidence>, b: seq<Evidence>,
                                      entries: seq<IndexEntry>, x: Image, y: Image, v: Image, w: Image)
    requires Injective(fmt.hash) && TwoImages(fmt, one, a, entries, x, y) && TwoImages(fmt, other, b, entries, v, w)
    ensures x == v && y == w
  {
    Systems();
    DifferentImages(fmt, one, a, x, y);
    DifferentImages(fmt, other, b, v, w);
    FourInIndex(entries, x, y, On(AMD64), On(ARM64));
    FourInIndex(entries, v, w, On(AMD64), On(ARM64));
    ImageSame(fmt, one, other, a, b, AMD64, entries, x, v);
    ImageSame(fmt, one, other, a, b, ARM64, entries, y, w);
  }

  lemma {:induction false} FilesSame(fmt: Formats, one: Content, other: Content, a: seq<Evidence>, b: seq<Evidence>, x: Image, y: Image, path: string)
    requires Injective(fmt.hash)
    requires StoresBoth(fmt, one, a, LINUX, AMD64, x) && StoresBoth(fmt, other, b, LINUX, AMD64, x)
    requires StoresBoth(fmt, one, a, LINUX, ARM64, y) && StoresBoth(fmt, other, b, LINUX, ARM64, y)
    requires path in ImagePaths(x) + ImagePaths(y)
    ensures path in one && path in other && one[path] == other[path]
  {
    if path in ImagePaths(x) {
      PathSame(fmt, one, other, a, b, AMD64, x, path);
    } else {
      PathSame(fmt, one, other, a, b, ARM64, y, path);
    }
  }

  lemma {:induction false} AcceptableSame(fmt: Formats, one: Content, other: Content, a: Authority, b: Authority,
      entries: seq<IndexEntry>, x: Image, y: Image, listed: seq<IndexEntry>, v: Image, w: Image)
    requires Injective(fmt.hash) && a.imageDigest == b.imageDigest
    requires Acceptable(fmt, one, a, entries, x, y) && Acceptable(fmt, other, b, listed, v, w)
    ensures entries == listed && x == v && y == w
  {
    IndexSame(fmt, one, other, a, b, entries, listed);
    ImagesSame(fmt, one, other, a.platformEvidence, b.platformEvidence, entries, x, y, v, w);
  }

  lemma {:induction false} ContentSame(fmt: Formats, one: Content, other: Content, a: Authority, b: Authority,
                                       entries: seq<IndexEntry>, x: Image, y: Image, path: string)
    requires Injective(fmt.hash) && a.imageDigest == b.imageDigest
    requires HasIndex(fmt, one, a, entries) && TwoImages(fmt, one, a.platformEvidence, entries, x, y)
    requires HasIndex(fmt, other, b, entries) && TwoImages(fmt, other, b.platformEvidence, entries, x, y)
    requires path == INDEX_FILE || path in ImagePaths(x) + ImagePaths(y)
    ensures path in one && path in other && one[path] == other[path]
  {
    if path == INDEX_FILE {
      IndexSame(fmt, one, other, a, b, entries, entries);
    } else {
      FilesSame(fmt, one, other, a.platformEvidence, b.platformEvidence, x, y, path);
    }
  }

  lemma {:induction false} SamePathsHeld(one: Content, other: Content, x: Image, y: Image, path: string)
    requires x.entry.IndexEntry? && x.attestationEntry.IndexEntry? && HasForm(x.manifest) && HasForm(x.attestation)
    requires y.entry.IndexEntry? && y.attestationEntry.IndexEntry? && HasForm(y.manifest) && HasForm(y.attestation)
    requires NoOtherFile(one, x, y) && NoOtherFile(other, x, y)
    ensures one.Keys == other.Keys
    ensures path in one && path != LAYOUT_FILE ==> path == INDEX_FILE || path in ImagePaths(x) + ImagePaths(y)
  {
  }

  lemma {:induction false} SameFiles(fmt: Formats, one: Content, other: Content, a: Authority, b: Authority,
                                     entries: seq<IndexEntry>, x: Image, y: Image, path: string)
    requires Injective(fmt.hash) && a.imageDigest == b.imageDigest
    requires Acceptable(fmt, one, a, entries, x, y) && Acceptable(fmt, other, b, entries, x, y)
    ensures one.Keys == other.Keys && (path in one && path != LAYOUT_FILE ==> one[path] == other[path])
  {
    SamePathsHeld(one, other, x, y, path);
    if path in one && path != LAYOUT_FILE { ContentSame(fmt, one, other, a, b, entries, x, y, path); }
  }

  lemma {:induction false} AcceptableDigest(fmt: Formats, one: Content, other: Content, a: Authority, b: Authority, path: string)
    requires Injective(fmt.hash) && a.imageDigest == b.imageDigest
    requires SomeAcceptable(fmt, one, a) && SomeAcceptable(fmt, other, b)
    ensures one.Keys == other.Keys && (path in one && path != LAYOUT_FILE ==> one[path] == other[path])
  {
    var entries, x, y :| Acceptable(fmt, one, a, entries, x, y);
    var listed, v, w :| Acceptable(fmt, other, b, listed, v, w);
    AcceptableSame(fmt, one, other, a, b, entries, x, y, listed, v, w);
    SameFiles(fmt, one, other, a, b, entries, x, y, path);
  }

  /** With a hash that never collides, two accepted layouts whose authorities name the same image digest hold the same
      files, and apart from the marker the same bytes. */
  lemma {:induction false} DigestFixesContent(fmt: Formats, one: Content, other: Content, collected: Option<seq<FileRecord>>,
                                              others: Option<seq<FileRecord>>, a: Authority, b: Authority, path: string)
    requires Injective(fmt.hash) && a.imageDigest == b.imageDigest
    requires LayoutOk(fmt, one, collected, a) && LayoutOk(fmt, other, others, b)
    ensures one.Keys == other.Keys && (path in one && path != LAYOUT_FILE ==> one[path] == other[path])
  {
    AcceptedExactly(fmt, one, collected, a);
    AcceptedExactly(fmt, other, others, b);
    AcceptableDigest(fmt, one, other, a, b, path);
  }
}
