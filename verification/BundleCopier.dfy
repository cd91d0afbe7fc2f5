/** Copying a bundle tree exactly into an empty target, with a manifest of what was written. */
module BundleCopier {
  import opened Wrappers
  import opened Text
  import opened Sorting
  import opened BundlePaths
  import opened BundleTree

  datatype CopyError = SourceInvalid | TargetInvalid | TargetNotEmpty | SymlinkDenied | SpecialFile

  /** What the copier denies: links, and anything that is not a plain non-executable file. */
  predicate CopyOk(node: Node) {
    node.Directory? || (node.Regular? && node.permissions & 0x49 == 0)
  }

  /** An entry is copied exactly if it is a directory, or a regular file that nobody may execute; a link and anything
      else are denied differently. */
  lemma {:induction false} CopiedOrDenied(node: Node)
    ensures CopyOk(node) <==>
            node.Directory?
            || (node.Regular? && node.permissions & 0x40 == 0 && node.permissions & 0x08 == 0 && node.permissions & 0x01 == 0)
    ensures !CopyOk(node) ==> Denial(node) == if node.SymbolicLink? then SymlinkDenied else SpecialFile
  {
    if node.Regular? { ExecuteBits(node.permissions); }
  }

  const FILE_MODE: bv9 := 0x180
  const DIRECTORY_MODE: bv9 := 0x1c0

  datatype Written = Written(bytes: seq<int>, mode: bv9)

  /** What the manifest says of one file; how bytes are hashed stays arbitrary. */
  datatype ManifestEntry = ManifestEntry(path: string, digest: string, size: nat)

  type Hash = seq<int> -> string

  function EntryOf(hash: Hash, f: FileRecord): ManifestEntry {
    ManifestEntry(f.path, hash(f.bytes), |f.bytes|)
  }

  function EntryKey(): ManifestEntry -> string { (e: ManifestEntry) => e.path }

  ghost function ManifestOf(hash: Hash, files: seq<FileRecord>): (r: seq<ManifestEntry>)
    ensures |r| == |files| && forall i :: 0 <= i < |files| ==> r[i] == EntryOf(hash, files[i])
  {
    seq(|files|, i requires 0 <= i < |files| => EntryOf(hash, files[i]))
  }

  /** The target directory: whether it is there, and its files and directories by relative path. */
  class Target {
    var present: bool
    var realDirectory: bool
    var files: map<string, Written>
    var directories: map<string, bv9>

    constructor ()
      ensures !present && files == map[] && directories == map[]
    {
      present, realDirectory, files, directories := false, false, map[], map[];
    }

    /** Makes a directory unless it is there. */
    method MakeDirectory(path: string, mode: bv9)
      modifies this`directories
      ensures directories == if path in old(directories) then old(directories) else old(directories)[path := mode]
    {
      if path !in directories { directories := directories[path := mode]; }
    }

    /** Writes a file that must not exist yet. */
    method WriteNew(path: string, bytes: seq<int>, mode: bv9) returns (ok: bool)
      modifies this`files
      ensures ok <==> path !in old(files)
      ensures files == if ok then old(files)[path := Written(bytes, mode)] else old(files)
    {
      ok := path !in files;
      if ok { files := files[path := Written(bytes, mode)]; }
    }
  }

  /** The target holds exactly the files and directories among the visited entries. */
  ghost predicate Mirrors(files: map<string, Written>, directories: map<string, bv9>, visited: seq<Visit>) {
    && (forall p, w :: p in files && files[p] == w <==> w.mode == FILE_MODE && FileRecord(p, w.bytes) in RecordsOf(visited))
    && directories.Keys == VisitedDirectories(visited)
    && forall d :: d in directories ==> directories[d] == DIRECTORY_MODE
  }

  ghost function VisitedDirectories(visited: seq<Visit>): set<string> {
    set x: Visit | x in visited && x.1.Directory? :: Join(x.0, '/')
  }

  ghost function DirectoriesOf(bag: multiset<Visit>): set<string> {
    set x | x in bag && x.1.Directory? :: Join(x.0, '/')
  }

  ghost predicate Copied(root: seq<Entry>, visited: seq<Visit>, left: multiset<Visit>) {
    && multiset(visited) + left == NodeBag([], root)
    && forall x: Visit :: x in visited ==> CopyOk(x.1)
  }

  lemma {:induction false} RelativePath(at: seq<string>, name: string)
    requires PlainSegments(at)
    ensures Join(at + [name], '/') == if Join(at, '/') == "" then name else Join(at, '/') + "/" + name
  {
    if at != [] {
      assert at[0] in at;
      JoinHead(at);
      JoinAppend(at, name, '/');
    }
  }

  /** The next entry's path is not yet written. */
  lemma {:induction false} PathIsNew(root: seq<Entry>, visited: seq<Visit>, left: multiset<Visit>, x: Visit)
    requires WellNamed(root) && multiset(visited) + left == NodeBag([], root) && x in left && x.1.Regular?
    ensures forall f :: f in RecordsOf(visited) ==> f.path != Join(x.0, '/')
  {
    var more := visited + [x];
    assert multiset(more) == multiset(visited) + multiset{x};
    assert multiset(more) <= NodeBag([], root) by {
      assert forall y :: multiset(more)[y] <= (multiset(visited) + left)[y];
    }
    RecordsDistinct(root, more);
    RecordsAppend(visited, x);
    forall f | f in RecordsOf(visited) ensures f.path != Join(x.0, '/') {
      var i :| 0 <= i < |RecordsOf(visited)| && RecordsOf(visited)[i] == f;
      assert RecordsOf(more)[i] == f && RecordsOf(more)[|RecordsOf(visited)|].path == Join(x.0, '/');
      assert PathKey()(RecordsOf(more)[i]) != PathKey()(RecordsOf(more)[|RecordsOf(visited)|]);
    }
  }

  lemma {:induction false} MirrorFile(files: map<string, Written>, directories: map<string, bv9>, visited: seq<Visit>, x: Visit)
    requires Mirrors(files, directories, visited) && x.1.Regular?
    requires forall f :: f in RecordsOf(visited) ==> f.path != Join(x.0, '/')
    ensures Join(x.0, '/') !in files
    ensures Mirrors(files[Join(x.0, '/') := Written(x.1.bytes, FILE_MODE)], directories, visited + [x])
  {
    var path := Join(x.0, '/');
    RecordsAppend(visited, x);
    forall p | p in files ensures p != path {
      assert FileRecord(p, files[p].bytes) in RecordsOf(visited);
    }
    var grown := files[path := Written(x.1.bytes, FILE_MODE)];
    forall p, w ensures p in grown && grown[p] == w <==> w.mode == FILE_MODE && FileRecord(p, w.bytes) in RecordsOf(visited + [x]) {
      if p != path {
        assert p in files && files[p] == w <==> w.mode == FILE_MODE && FileRecord(p, w.bytes) in RecordsOf(visited);
      }
    }
    assert VisitedDirectories(visited + [x]) == VisitedDirectories(visited);
  }

  function Made(directories: map<string, bv9>, path: string): map<string, bv9> {
    if path in directories then directories else directories[path := DIRECTORY_MODE]
  }

  lemma {:induction false} MirrorDirectory(files: map<string, Written>, directories: map<string, bv9>, visited: seq<Visit>, x: Visit)
    requires Mirrors(files, directories, visited) && x.1.Directory?
    ensures Mirrors(files, Made(directories, Join(x.0, '/')), visited + [x])
  {
    RecordsAppend(visited, x);
    assert VisitedDirectories(visited + [x]) == VisitedDirectories(visited) + {Join(x.0, '/')};
  }

  lemma {:induction false} TakeEntry(root: seq<Entry>, visited: seq<Visit>, stacked: multiset<Visit>, at: seq<string>, rest: seq<Entry>)
    requires rest != [] && Copied(root, visited, stacked + NodeBag(at, rest))
    ensures var x: Visit := (at + [rest[0].name], rest[0].node);
            && x in NodeBag(at, rest) && x in NodeBag([], root)
            && (CopyOk(x.1) ==> Copied(root, visited + [x],
                  stacked + (if x.1.Directory? then NodeBag(x.0, x.1.entries) else multiset{}) + NodeBag(at, rest[1..])))
  {
    var x: Visit := (at + [rest[0].name], rest[0].node);
    assert multiset(visited + [x]) == multiset(visited) + multiset{x};
    assert NodeBag(at, rest) == OwnBag(at, rest[0]) + NodeBag(at, rest[1..]);
    assert (multiset(visited) + (stacked + NodeBag(at, rest)))[x] >= 1;
  }

  /** Where the walk stands: the target mirrors what was visited, and the stack and `left` hold the rest. */
  ghost predicate Copying(hash: Hash, root: seq<Entry>, files: map<string, Written>, directories: map<string, bv9>,
                          manifest: seq<ManifestEntry>, visited: seq<Visit>, left: multiset<Visit>) {
    && Copied(root, visited, left)
    && Mirrors(files, directories, visited)
    && manifest == ManifestOf(hash, RecordsOf(visited))
  }

  ghost predicate GoodFrames(stack: seq<Frame>) {
    forall k :: 0 <= k < |stack| ==> PlainSegments(stack[k].at) && WellNamed(stack[k].entries)
  }

  ghost predicate Denies(root: seq<Entry>) {
    exists x :: x in NodeBag([], root) && !CopyOk(x.1)
  }

  /** The error that an entry is denied with. */
  function Denial(node: Node): CopyError {
    if node.SymbolicLink? then SymlinkDenied else SpecialFile
  }

  ghost predicate DeniedAs(root: seq<Entry>, error: CopyError) {
    exists x :: x in NodeBag([], root) && !CopyOk(x.1) && Denial(x.1) == error
  }

  lemma {:induction false} DirectoryCopied(hash: Hash, root: seq<Entry>, files: map<string, Written>, directories: map<string, bv9>,
      manifest: seq<ManifestEntry>, visited: seq<Visit>, stack: seq<Frame>, at: seq<string>, rest: seq<Entry>)
    requires rest != [] && rest[0].node.Directory?
    requires Copying(hash, root, files, directories, manifest, visited, StackBag(stack) + NodeBag(at, rest))
    ensures var path := at + [rest[0].name];
            Copying(hash, root, files, Made(directories, Join(path, '/')), manifest, visited + [(path, rest[0].node)],
                    StackBag(stack + [Frame(path, rest[0].node.entries)]) + NodeBag(at, rest[1..]))
  {
    var x: Visit := (at + [rest[0].name], rest[0].node);
    TakeEntry(root, visited, StackBag(stack), at, rest);
    RecordsAppend(visited, x);
    MirrorDirectory(files, directories, visited, x);
    PushBag(stack, Frame(x.0, rest[0].node.entries));
  }

  lemma {:induction false} ManifestAppend(hash: Hash, files: seq<FileRecord>, f: FileRecord)
    ensures ManifestOf(hash, files + [f]) == ManifestOf(hash, files) + [EntryOf(hash, f)]
  {
  }

  lemma {:induction false} FileCopied(hash: Hash, root: seq<Entry>, files: map<string, Written>, directories: map<string, bv9>,
      manifest: seq<ManifestEntry>, visited: seq<Visit>, stack: seq<Frame>, at: seq<string>, rest: seq<Entry>)
    requires WellNamed(root) && rest != [] && rest[0].node.Regular? && CopyOk(rest[0].node)
    requires Copying(hash, root, files, directories, manifest, visited, StackBag(stack) + NodeBag(at, rest))
    ensures var path, bytes := Join(at + [rest[0].name], '/'), rest[0].node.bytes;
            && path !in files
            && Copying(hash, root, files[path := Written(bytes, FILE_MODE)], directories, manifest + [EntryOf(hash, FileRecord(path, bytes))],
                       visited + [(at + [rest[0].name], rest[0].node)], StackBag(stack) + NodeBag(at, rest[1..]))
  {
    var x: Visit := (at + [rest[0].name], rest[0].node);
    TakeEntry(root, visited, StackBag(stack), at, rest);
    RecordsAppend(visited, x);
    assert x in StackBag(stack) + NodeBag(at, rest);
    PathIsNew(root, visited, StackBag(stack) + NodeBag(at, rest), x);
    MirrorFile(files, directories, visited, x);
    ManifestAppend(hash, RecordsOf(visited), FileRecord(Join(x.0, '/'), x.1.bytes));
    assert StackBag(stack) + multiset{} + NodeBag(at, rest[1..]) == StackBag(stack) + NodeBag(at, rest[1..]);
  }

  lemma {:induction false} EntryDenied(hash: Hash, root: seq<Entry>, files: map<string, Written>, directories: map<string, bv9>,
      manifest: seq<ManifestEntry>, visited: seq<Visit>, stack: seq<Frame>, at: seq<string>, rest: seq<Entry>)
    requires rest != [] && !CopyOk(rest[0].node)
    requires Copying(hash, root, files, directories, manifest, visited, StackBag(stack) + NodeBag(at, rest))
    ensures DeniedAs(root, Denial(rest[0].node)) && Denies(root)
  {
    TakeEntry(root, visited, StackBag(stack), at, rest);
    var x: Visit := (at + [rest[0].name], rest[0].node);
    assert x in NodeBag([], root) && !CopyOk(x.1);
  }

  function Pushed(at: seq<string>, entry: Entry): seq<Frame> {
    if entry.node.Directory? then [Frame(at + [entry.name], entry.node.entries)] else []
  }

  lemma {:induction false} EntryPushed(stack: seq<Frame>, at: seq<string>, entries: seq<Entry>, i: nat)
    requires GoodFrames(stack) && PlainSegments(at) && WellNamed(entries) && i < |entries|
    ensures GoodFrames(stack + Pushed(at, entries[i])) && |stack + Pushed(at, entries[i])| <= |stack| + 1
    ensures StackWeight(stack + Pushed(at, entries[i]), One()) + 1 + Weigh(entries[i + 1..], One()) ==
            StackWeight(stack, One()) + Weigh(entries[i..], One())
  {
    var rest := entries[i..];
    assert rest[0] == entries[i] && rest[1..] == entries[i + 1..];
    if rest[0].node.Directory? {
      PushWeight(stack, Frame(at + [rest[0].name], rest[0].node.entries), One());
    } else {
      assert stack + [] == stack;
    }
  }

  /** Copies one entry of the directory `at`, the first of `rest`, or finds it denied. */
  method CopyEntry(hash: Hash, target: Target, ghost root: seq<Entry>, at: seq<string>, entry: Entry, ghost rest: seq<Entry>,
                   stack: seq<Frame>, manifest: seq<ManifestEntry>, ghost visited: seq<Visit>)
    returns (error: Option<CopyError>, stack': seq<Frame>, recorded: seq<ManifestEntry>)
    requires WellNamed(root) && PlainSegments(at) && rest != [] && rest[0] == entry
    requires Copying(hash, root, target.files, target.directories, manifest, visited, StackBag(stack) + NodeBag(at, rest))
    modifies target`files, target`directories
    ensures error == if CopyOk(entry.node) then None else Some(Denial(entry.node))
    ensures error.Some? ==> target.files == old(target.files) && target.directories == old(target.directories)
    ensures stack' == if error.None? then stack + Pushed(at, entry) else stack
    ensures error.None? ==>
            Copying(hash, root, target.files, target.directories, manifest + recorded, visited + [(at + [entry.name], entry.node)],
                    StackBag(stack') + NodeBag(at, rest[1..]))
  {
    var relative, node := Join(at, '/'), entry.node;
    var path := if relative == "" then entry.name else relative + "/" + entry.name;
    RelativePath(at, entry.name);
    stack', recorded := stack, [];
    assert stack + [] == stack;
    if node.SymbolicLink? {
      return Some(SymlinkDenied), stack', recorded;
    }
    if node.Directory? {
      DirectoryCopied(hash, root, target.files, target.directories, manifest, visited, stack, at, rest);
      target.MakeDirectory(path, DIRECTORY_MODE);
      stack' := stack + [Frame(at + [entry.name], node.entries)];
      assert manifest + recorded == manifest;
      return None, stack', recorded;
    }
    if !node.Regular? || node.permissions & 0x49 != 0 {
      return Some(SpecialFile), stack', recorded;
    }
    FileCopied(hash, root, target.files, target.directories, manifest, visited, stack, at, rest);
    var written := target.WriteNew(path, node.bytes, FILE_MODE);
    assert written;
    recorded := [EntryOf(hash, FileRecord(path, node.bytes))];
    error := None;
  }

  lemma {:induction false} NothingLeft(stack: seq<Frame>, at: seq<string>)
    ensures StackBag(stack) + NodeBag(at, []) == StackBag(stack) && Weigh([], One()) == 0
  {
  }

  /** The walk has worked through the first `i` entries of a directory; `before` was the stack at its start. */
  ghost predicate Underway(hash: Hash, root: seq<Entry>, files: map<string, Written>, directories: map<string, bv9>,
                           manifest: seq<ManifestEntry>, visited: seq<Visit>, before: seq<Frame>, stack: seq<Frame>, frame: Frame, i: nat)
    requires i <= |frame.entries|
  {
    && Copying(hash, root, files, directories, manifest, visited, StackBag(stack) + NodeBag(frame.at, frame.entries[i..]))
    && GoodFrames(stack) && |stack| <= |before| + i
    && StackWeight(stack, One()) + i + Weigh(frame.entries[i..], One()) == StackWeight(before, One()) + Weigh(frame.entries, One())
  }

  /** Copies the next entry of a directory. */
  method CopyNext(hash: Hash, target: Target, ghost root: seq<Entry>, frame: Frame, i: nat, ghost before: seq<Frame>,
                  stack: seq<Frame>, manifest: seq<ManifestEntry>, ghost visited: seq<Visit>)
    returns (error: Option<CopyError>, stack': seq<Frame>, manifest': seq<ManifestEntry>, ghost visited': seq<Visit>)
    requires WellNamed(root) && PlainSegments(frame.at) && WellNamed(frame.entries) && i < |frame.entries|
    requires Underway(hash, root, target.files, target.directories, manifest, visited, before, stack, frame, i)
    modifies target`files, target`directories
    ensures error.Some? ==> && Denies(root) && DeniedAs(root, error.value)
                            && Underway(hash, root, target.files, target.directories, manifest', visited', before, stack', frame, i)
    ensures error.None? ==> Underway(hash, root, target.files, target.directories, manifest', visited', before, stack', frame, i + 1)
  {
    var entry := frame.entries[i];
    ghost var rest := frame.entries[i..];
    assert rest[0] == entry && rest[1..] == frame.entries[i + 1..];
    EntryPushed(stack, frame.at, frame.entries, i);
    if !CopyOk(entry.node) {
      EntryDenied(hash, root, target.files, target.directories, manifest, visited, stack, frame.at, rest);
    }
    var recorded;
    error, stack', recorded := CopyEntry(hash, target, root, frame.at, entry, rest, stack, manifest, visited);
    manifest', visited' := manifest, visited;
    if error.None? {
      manifest', visited' := manifest + recorded, visited + [(frame.at + [entry.name], entry.node)];
    }
  }

  /** Copies the entries of one directory, in name order. */
  method CopyDirectory(hash: Hash, target: Target, ghost root: seq<Entry>, frame: Frame,
                       stack: seq<Frame>, manifest: seq<ManifestEntry>, ghost visited: seq<Visit>)
    returns (error: Option<CopyError>, stack': seq<Frame>, manifest': seq<ManifestEntry>, ghost visited': seq<Visit>,
             ghost left: multiset<Visit>)
    requires WellNamed(root) && GoodFrames(stack) && PlainSegments(frame.at) && WellNamed(frame.entries)
    requires Copying(hash, root, target.files, target.directories, manifest, visited,
                     StackBag(stack) + NodeBag(frame.at, frame.entries))
    modifies target`files, target`directories
    ensures Copying(hash, root, target.files, target.directories, manifest', visited', left)
    ensures error.Some? ==> Denies(root) && DeniedAs(root, error.value)
    ensures error.None? ==>
            && left == StackBag(stack') && GoodFrames(stack')
            && |stack'| <= |stack| + |frame.entries|
            && StackWeight(stack', One()) + |frame.entries| == StackWeight(stack, One()) + Weigh(frame.entries, One())
  {
    assert frame.entries[0..] == frame.entries;
    stack', manifest', visited' := stack, manifest, visited;
    for i := 0 to |frame.entries|
      invariant Underway(hash, root, target.files, target.directories, manifest', visited', stack, stack', frame, i)
    {
      error, stack', manifest', visited' := CopyNext(hash, target, root, frame, i, stack, stack', manifest', visited');
      if error.Some? {
        left := StackBag(stack') + NodeBag(frame.at, frame.entries[i..]);
        return;
      }
    }
    assert frame.entries[|frame.entries|..] == [];
    NothingLeft(stack', frame.at);
    left := StackBag(stack');
    error := None;
  }

  ghost predicate HoldsEntry(hash: Hash, bag: multiset<Visit>, e: ManifestEntry) {
    exists f :: HoldsFile(bag, f) && e == EntryOf(hash, f)
  }

  /** File for file and directory for directory the same as the tree, private to the owner, with a strictly
      sorted manifest of exactly its files, their digests and sizes. */
  ghost predicate Reproduces(hash: Hash, root: seq<Entry>, files: map<string, Written>, directories: map<string, bv9>,
                             manifest: seq<ManifestEntry>) {
    var bag := NodeBag([], root);
    && StrictlySortedBy(manifest, EntryKey())
    && (forall e :: e in manifest <==> HoldsEntry(hash, bag, e))
    && SameTree(bag, files, directories)
  }

  ghost predicate OnlySourceFiles(root: seq<Entry>, files: map<string, Written>) {
    forall p :: p in files ==> HoldsFile(NodeBag([], root), FileRecord(p, files[p].bytes))
  }

  ghost predicate EmptyTarget(present: bool, realDirectory: bool, files: map<string, Written>, directories: map<string, bv9>) {
    present ==> realDirectory && files == map[] && directories == map[]
  }

  /** The walk over the whole tree, starting from an empty target. */
  method CopyWalk(hash: Hash, target: Target, root: seq<Entry>) returns (error: Option<CopyError>, manifest: seq<ManifestEntry>)
    requires WellNamed(root) && target.files == map[] && target.directories == map[]
    modifies target`files, target`directories
    ensures error.None? <==> !Denies(root)
    ensures error.Some? ==> DeniedAs(root, error.value)
    ensures error.None? ==> Reproduces(hash, root, target.files, target.directories, SortBy(manifest, EntryKey()))
    ensures OnlySourceFiles(root, target.files)
  {
    var stack := [Frame([], root)];
    manifest := [];
    ghost var visited: seq<Visit> := [];
    StartCopy(hash, root, target.files, target.directories);
    while |stack| > 0
      invariant Copying(hash, root, target.files, target.directories, manifest, visited, StackBag(stack))
      invariant GoodFrames(stack)
      decreases StackWeight(stack, One()) + |stack|
    {
      var frame, popped := stack[|stack| - 1], stack[..|stack| - 1];
      WeighAtLeast(frame.entries);
      ghost var left;
      error, stack, manifest, visited, left := CopyDirectory(hash, target, root, frame, popped, manifest, visited);
      if error.Some? {
        PartialCopy(root, visited, left, target.files, target.directories);
        return;
      }
    }
    PartialCopy(root, visited, multiset{}, target.files, target.directories);
    CompleteCopy(hash, root, visited, target.files, target.directories);
    error := None;
  }

  lemma {:induction false} StartCopy(hash: Hash, root: seq<Entry>, files: map<string, Written>, directories: map<string, bv9>)
    requires WellNamed(root) && files == map[] && directories == map[]
    ensures Copying(hash, root, files, directories, [], [], StackBag([Frame([], root)])) && GoodFrames([Frame([], root)])
  {
    PushBag([], Frame([], root));
    assert [] + [Frame([], root)] == [Frame([], root)];
    var visited: seq<Visit> := [];
    assert multiset(visited) == multiset{};
  }

  /** Copies the tree exactly: the target's files and directories become those of the source, and
      the manifest lists the files. It fails exactly if the source or target is not as it must be or
      some entry is denied, and even then the target holds nothing but source files. */
  method CopyExactTree(hash: Hash, source: Node, target: Target) returns (result: Result<seq<ManifestEntry>, CopyError>)
    requires source.Directory? ==> WellNamed(source.entries)
    requires !target.present ==> target.files == map[] && target.directories == map[]
    modifies target
    ensures result.Ok? <==>
            && source.Directory? && !Denies(source.entries)
            && EmptyTarget(old(target.present), old(target.realDirectory), old(target.files), old(target.directories))
    ensures result.Ok? ==>
            Reproduces(hash, source.entries, target.files, target.directories, result.value)
    ensures result.Err? ==>
            if !source.Directory? then result.error == SourceInvalid
            else if old(target.present) && !old(target.realDirectory) then result.error == TargetInvalid
            else if !EmptyTarget(old(target.present), old(target.realDirectory), old(target.files), old(target.directories)) then
              result.error == TargetNotEmpty
            else DeniedAs(source.entries, result.error)
    ensures result.Err? ==> (target.files == old(target.files) || (source.Directory? && OnlySourceFiles(source.entries, target.files)))
  {
    if !source.Directory? {
      return Err(SourceInvalid);
    }
    if target.present {
      if !target.realDirectory { return Err(TargetInvalid); }
      if target.files != map[] || target.directories != map[] { return Err(TargetNotEmpty); }
    } else {
      target.present, target.realDirectory := true, true;
    }
    var error, manifest := CopyWalk(hash, target, source.entries);
    result := if error.Some? then Err(error.value) else Ok(SortBy(manifest, EntryKey()));
  }

  lemma {:induction false} NothingDenied(root: seq<Entry>, visited: seq<Visit>)
    requires Copied(root, visited, multiset{})
    ensures multiset(visited) == NodeBag([], root) && !Denies(root)
  {
    assert multiset(visited) == NodeBag([], root);
    forall x | x in NodeBag([], root) ensures CopyOk(x.1) {
      assert x in multiset(visited);
      assert x in visited;
    }
  }

  lemma {:induction false} DirectoriesVisited(visited: seq<Visit>)
    ensures VisitedDirectories(visited) == DirectoriesOf(multiset(visited))
  {
    assert forall x: Visit :: x in visited <==> x in multiset(visited);
  }

  /** The sorted manifest of a complete walk lists the tree's files. */
  lemma {:induction false} ManifestLists(hash: Hash, root: seq<Entry>, visited: seq<Visit>)
    requires WellNamed(root) && multiset(visited) == NodeBag([], root)
    ensures var manifest := SortBy(ManifestOf(hash, RecordsOf(visited)), EntryKey());
            StrictlySortedBy(manifest, EntryKey()) && forall e :: e in manifest <==> HoldsEntry(hash, NodeBag([], root), e)
  {
    var records, listed := RecordsOf(visited), ManifestOf(hash, RecordsOf(visited));
    RecordsDistinct(root, visited);
    forall i, j | 0 <= i < j < |listed| ensures EntryKey()(listed[i]) != EntryKey()(listed[j]) {
      assert PathKey()(records[i]) != PathKey()(records[j]);
    }
    SortIsStrict(listed, EntryKey());
    PermutationMembers(SortBy(listed, EntryKey()), listed);
    RecordsMember(visited);
    forall e ensures e in listed <==> HoldsEntry(hash, NodeBag([], root), e) {
      ManifestMember(hash, records, e);
    }
  }

  lemma {:induction false} ManifestMember(hash: Hash, files: seq<FileRecord>, e: ManifestEntry)
    ensures e in ManifestOf(hash, files) <==> exists f :: f in files && e == EntryOf(hash, f)
  {
    if f :| f in files && e == EntryOf(hash, f) {
      var i :| 0 <= i < |files| && files[i] == f;
      assert ManifestOf(hash, files)[i] == e;
    }
    if e in ManifestOf(hash, files) {
      var i :| 0 <= i < |files| && ManifestOf(hash, files)[i] == e;
      assert files[i] in files;
    }
  }

  /** The target's files and directories are those of the tree. */
  ghost predicate SameTree(bag: multiset<Visit>, files: map<string, Written>, directories: map<string, bv9>) {
    && (forall p, w :: p in files && files[p] == w <==> w.mode == FILE_MODE && HoldsFile(bag, FileRecord(p, w.bytes)))
    && directories.Keys == DirectoriesOf(bag)
    && forall d :: d in directories ==> directories[d] == DIRECTORY_MODE
  }

  lemma {:induction false} FileHeld(visited: seq<Visit>, f: FileRecord)
    ensures HoldsFile(multiset(visited), f) <==> f in RecordsOf(visited)
  {
    RecordsMember(visited);
  }

  lemma {:induction false} MirrorsTree(visited: seq<Visit>, files: map<string, Written>, directories: map<string, bv9>)
    requires Mirrors(files, directories, visited)
    ensures SameTree(multiset(visited), files, directories)
  {
    DirectoriesVisited(visited);
    forall p, w ensures p in files && files[p] == w <==> w.mode == FILE_MODE && HoldsFile(multiset(visited), FileRecord(p, w.bytes)) {
      FileHeld(visited, FileRecord(p, w.bytes));
      assert p in files && files[p] == w <==> w.mode == FILE_MODE && FileRecord(p, w.bytes) in RecordsOf(visited);
    }
  }

  lemma {:induction false} CompleteCopy(hash: Hash, root: seq<Entry>, visited: seq<Visit>, files: map<string, Written>, directories: map<string, bv9>)
    requires WellNamed(root) && Copied(root, visited, multiset{}) && Mirrors(files, directories, visited)
    ensures !Denies(root)
    ensures Reproduces(hash, root, files, directories, SortBy(ManifestOf(hash, RecordsOf(visited)), EntryKey()))
  {
    NothingDenied(root, visited);
    ManifestLists(hash, root, visited);
    MirrorsTree(visited, files, directories);
  }

  lemma {:induction false} PartialCopy(root: seq<Entry>, visited: seq<Visit>, left: multiset<Visit>,
                                       files: map<string, Written>, directories: map<string, bv9>)
    requires multiset(visited) + left == NodeBag([], root) && Mirrors(files, directories, visited)
    ensures OnlySourceFiles(root, files)
  {
    RecordsMember(visited);
    forall p | p in files ensures HoldsFile(NodeBag([], root), FileRecord(p, files[p].bytes)) {
      assert FileRecord(p, files[p].bytes) in RecordsOf(visited);
      var x :| x in multiset(visited) && x.1.Regular? && FileRecord(p, files[p].bytes) == FileRecord(Join(x.0, '/'), x.1.bytes);
      assert x in NodeBag([], root);
    }
  }

  /** The manifest of a copy describes the target itself: an entry for each of its files, with that file's own digest
      and size, and no other. */
  lemma {:induction false} ManifestTells(hash: Hash, root: seq<Entry>, files: map<string, Written>, directories: map<string, bv9>,
                                         manifest: seq<ManifestEntry>, path: string)
    requires Reproduces(hash, root, files, directories, manifest)
    ensures path in files <==> exists e :: e in manifest && e.path == path
    ensures forall e :: e in manifest && e.path == path && path in files ==>
              e.digest == hash(files[path].bytes) && e.size == |files[path].bytes|
  {
    var bag := NodeBag([], root);
    if path in files {
      var e := EntryOf(hash, FileRecord(path, files[path].bytes));
      assert HoldsFile(bag, FileRecord(path, files[path].bytes));
      assert HoldsEntry(hash, bag, e);
    }
    forall e | e in manifest && e.path == path
      ensures path in files && e.digest == hash(files[path].bytes) && e.size == |files[path].bytes|
    {
      assert HoldsEntry(hash, bag, e);
      EntryIsHeld(hash, bag, files, directories, e);
    }
  }

  lemma {:induction false} EntryIsHeld(hash: Hash, bag: multiset<Visit>, files: map<string, Written>, directories: map<string, bv9>, e: ManifestEntry)
    requires SameTree(bag, files, directories) && HoldsEntry(hash, bag, e)
    ensures e.path in files && e.digest == hash(files[e.path].bytes) && e.size == |files[e.path].bytes|
  {
    var f :| HoldsFile(bag, f) && e == EntryOf(hash, f);
    var w := Written(f.bytes, FILE_MODE);
    assert f == FileRecord(e.path, w.bytes) && HoldsFile(bag, FileRecord(e.path, w.bytes));
    assert e.path in files && files[e.path] == w;
  }
}
