/** Collecting the regular files of a bundle directory under entry, file, byte and depth budgets. */
module BundleCollector {
  import opened Wrappers
  import opened Text
  import opened Sorting
  import opened BundlePaths
  import opened BundleTree

  const MAX_BUNDLE_FILES: nat := 100000
  const MAX_BUNDLE_ENTRIES: nat := 200000
  const MAX_BUNDLE_DEPTH: nat := 32
  const MAX_SINGLE_FILE_BYTES: nat := 8589934592
  const MAX_TOTAL_BYTES: nat := 68719476736

  datatype TreeError =
    | RootInvalid | DepthExceeded | EntryCountExceeded | FileCountExceeded | TotalBytesExceeded
    | UnsafePath | SymlinkDenied | SpecialFile | Executable | ModeInvalid | HardlinkDenied | FileTooLarge

  /** Why one entry that is not a directory is refused, checked in this order. */
  function FileError(cs: Charset, path: string, node: Node, expectedMode: Option<bv9>): Option<TreeError> {
    if SafeRelativePath(cs, path).None? then Some(UnsafePath)
    else match node
      case SymbolicLink => Some(SymlinkDenied)
      case Special => Some(SpecialFile)
      case Directory(_) => Some(SpecialFile)
      case Regular(bytes, permissions, links) =>
        if permissions & 0x49 != 0 then Some(Executable)
        else if expectedMode.Some? && permissions != expectedMode.value then Some(ModeInvalid)
        else if links != 1 then Some(HardlinkDenied)
        else if |bytes| > MAX_SINGLE_FILE_BYTES then Some(FileTooLarge)
        else None
  }

  /** What is not a directory is fit to be collected exactly if it is a regular file on a safe path, not executable by
      anyone, of the expected mode if one is expected, linked once and not too large. */
  lemma {:induction false} FitExactly(cs: Charset, path: string, node: Node, expectedMode: Option<bv9>)
    ensures FileError(cs, path, node, expectedMode).None? <==>
            && SafeRelativePath(cs, path) == Some(path) && node.Regular? && node.links == 1
            && node.permissions & 0x40 == 0 && node.permissions & 0x08 == 0 && node.permissions & 0x01 == 0
            && (expectedMode == None || expectedMode == Some(node.permissions))
            && |node.bytes| <= 8 * 1024 * 1024 * 1024
  {
    SafePathExactly(cs, path);
    if node.Regular? { ExecuteBits(node.permissions); }
  }

  /** The first thing that is wrong with it, in this order, is what it is refused for. */
  lemma {:induction false} RefusedFor(cs: Charset, path: string, node: Node, expectedMode: Option<bv9>, error: TreeError)
    requires FileError(cs, path, node, expectedMode) == Some(error)
    ensures error == UnsafePath <==> SafeRelativePath(cs, path).None?
    ensures error != UnsafePath ==> (error == SymlinkDenied <==> node.SymbolicLink?)
    ensures error != UnsafePath && !node.SymbolicLink? ==> (error == SpecialFile <==> !node.Regular?)
    ensures error != UnsafePath && node.Regular? ==> (error == Executable <==> node.permissions & 0x49 != 0)
    ensures error == ModeInvalid ==> node.Regular? && expectedMode.Some? && expectedMode.value != node.permissions
    ensures error == HardlinkDenied ==> node.Regular? && node.links != 1
    ensures error == FileTooLarge ==> node.Regular? && |node.bytes| > 8 * 1024 * 1024 * 1024
  {
  }

  /** A directory is not too deep; anything else is an acceptable regular file on a safe path. */
  ghost predicate EntryOk(cs: Charset, x: Visit, expectedMode: Option<bv9>) {
    if x.1.Directory? then |x.0| <= MAX_BUNDLE_DEPTH
    else FileError(cs, Join(x.0, '/'), x.1, expectedMode).None?
  }

  ghost predicate Collectable(cs: Charset, root: seq<Entry>, expectedMode: Option<bv9>) {
    && Weigh(root, One()) <= MAX_BUNDLE_ENTRIES
    && Weigh(root, OneFile()) <= MAX_BUNDLE_FILES
    && Weigh(root, ByteSize()) <= MAX_TOTAL_BYTES
    && forall x :: x in NodeBag([], root) ==> EntryOk(cs, x, expectedMode)
  }

  /** The error names something that is wrong with the tree. */
  ghost predicate Justified(cs: Charset, root: seq<Entry>, expectedMode: Option<bv9>, error: TreeError) {
    match error
    case RootInvalid => false
    case DepthExceeded => exists x :: x in NodeBag([], root) && x.1.Directory? && |x.0| > MAX_BUNDLE_DEPTH
    case EntryCountExceeded => Weigh(root, One()) > MAX_BUNDLE_ENTRIES
    case FileCountExceeded => Weigh(root, OneFile()) > MAX_BUNDLE_FILES
    case TotalBytesExceeded => Weigh(root, ByteSize()) > MAX_TOTAL_BYTES
    case _ => FileRefused(cs, root, expectedMode, error)
  }

  ghost predicate FileRefused(cs: Charset, root: seq<Entry>, expectedMode: Option<bv9>, error: TreeError) {
    exists x :: x in NodeBag([], root) && !x.1.Directory? && FileError(cs, Join(x.0, '/'), x.1, expectedMode) == Some(error)
  }

  /** A tree that an error can be justified of is not collectable. */
  lemma {:induction false} JustifiedRefuses(cs: Charset, root: seq<Entry>, expectedMode: Option<bv9>, error: TreeError)
    requires Justified(cs, root, expectedMode, error)
    ensures !Collectable(cs, root, expectedMode)
  {
    if error.DepthExceeded? {
      var x :| x in NodeBag([], root) && x.1.Directory? && |x.0| > MAX_BUNDLE_DEPTH;
      assert !EntryOk(cs, x, expectedMode);
    } else if FileRefused(cs, root, expectedMode, error) {
      var x :| x in NodeBag([], root) && !x.1.Directory? && FileError(cs, Join(x.0, '/'), x.1, expectedMode) == Some(error);
      assert !EntryOk(cs, x, expectedMode);
    }
  }

  /** What was visited and what is left make up the tree, entry for entry and byte for byte. */
  ghost predicate Accounted(root: seq<Entry>, visited: seq<Visit>, files: seq<FileRecord>, totalBytes: nat,
                            leftBag: multiset<Visit>, leftFiles: nat, leftBytes: nat) {
    && multiset(visited) + leftBag == NodeBag([], root)
    && files == RecordsOf(visited)
    && |files| + leftFiles == Weigh(root, OneFile())
    && totalBytes + leftBytes == Weigh(root, ByteSize())
  }

  /** The part that does not change while a directory is worked through. */
  datatype Context = Context(cs: Charset, root: seq<Entry>, expectedMode: Option<bv9>)

  datatype Progress = Progress(stack: seq<Frame>, files: seq<FileRecord>, totalBytes: nat, visited: seq<Visit>)

  /** Progress while `rest` of the current directory `at` is still to be looked at. */
  ghost predicate Inside(c: Context, p: Progress, at: seq<string>, rest: seq<Entry>) {
    && Accounted(c.root, p.visited, p.files, p.totalBytes,
                 StackBag(p.stack) + NodeBag(at, rest),
                 StackWeight(p.stack, OneFile()) + Weigh(rest, OneFile()),
                 StackWeight(p.stack, ByteSize()) + Weigh(rest, ByteSize()))
    && |p.files| <= MAX_BUNDLE_FILES && p.totalBytes <= MAX_TOTAL_BYTES
    && forall x :: x in p.visited ==> x.1.Directory? || EntryOk(c.cs, x, c.expectedMode)
  }

  lemma {:induction false} RestSplits(at: seq<string>, rest: seq<Entry>)
    requires rest != []
    ensures NodeBag(at, rest) == OwnBag(at, rest[0]) + NodeBag(at, rest[1..])
    ensures OwnBag(at, rest[0]) == multiset{(at + [rest[0].name], rest[0].node)} +
              if rest[0].node.Directory? then NodeBag(at + [rest[0].name], rest[0].node.entries) else multiset{}
    ensures (at + [rest[0].name], rest[0].node) in NodeBag(at, rest)
  {
  }

  /** Putting a directory on the stack. */
  lemma {:induction false} DirectoryStep(c: Context, p: Progress, at: seq<string>, rest: seq<Entry>)
    requires Inside(c, p, at, rest) && rest != [] && rest[0].node.Directory?
    ensures var path := at + [rest[0].name];
            Inside(c, Progress(p.stack + [Frame(path, rest[0].node.entries)], p.files, p.totalBytes,
                               p.visited + [(path, rest[0].node)]), at, rest[1..])
  {
    var path, node := at + [rest[0].name], rest[0].node;
    var frame := Frame(path, node.entries);
    RestSplits(at, rest);
    PushBag(p.stack, frame);
    PushWeight(p.stack, frame, OneFile());
    PushWeight(p.stack, frame, ByteSize());
    RecordsAppend(p.visited, (path, node));
    assert multiset(p.visited + [(path, node)]) == multiset(p.visited) + multiset{(path, node)};
  }

  /** Recording an acceptable file that keeps within the budgets. */
  lemma {:induction false} FileStep(c: Context, p: Progress, at: seq<string>, rest: seq<Entry>, q: Progress)
    requires Inside(c, p, at, rest) && rest != [] && rest[0].node.Regular?
    requires EntryOk(c.cs, (at + [rest[0].name], rest[0].node), c.expectedMode)
    requires q.stack == p.stack && q.visited == p.visited + [(at + [rest[0].name], rest[0].node)]
    requires q.files == p.files + [FileRecord(Join(at + [rest[0].name], '/'), rest[0].node.bytes)]
    requires q.totalBytes == p.totalBytes + |rest[0].node.bytes| <= MAX_TOTAL_BYTES && |p.files| < MAX_BUNDLE_FILES
    ensures Inside(c, q, at, rest[1..])
  {
    var x := (at + [rest[0].name], rest[0].node);
    RestSplits(at, rest);
    RecordsAppend(p.visited, x);
    assert multiset(q.visited) == multiset(p.visited) + multiset{x};
    FileWeights(rest);
    assert multiset(q.visited) + (StackBag(q.stack) + NodeBag(at, rest[1..])) == NodeBag([], c.root);
  }

  lemma {:induction false} FileWeights(rest: seq<Entry>)
    requires rest != [] && rest[0].node.Regular?
    ensures Weigh(rest, OneFile()) == 1 + Weigh(rest[1..], OneFile())
    ensures Weigh(rest, ByteSize()) == |rest[0].node.bytes| + Weigh(rest[1..], ByteSize())
    ensures Weigh(rest, One()) == 1 + Weigh(rest[1..], One())
  {
  }

  /** Whatever is still on the stack or in the current directory belongs to the tree. */
  lemma {:induction false} LeftIsInTree(c: Context, p: Progress, at: seq<string>, rest: seq<Entry>, x: Visit)
    requires Inside(c, p, at, rest) && x in NodeBag(at, rest)
    ensures x in NodeBag([], c.root)
  {
    assert (multiset(p.visited) + (StackBag(p.stack) + NodeBag(at, rest)))[x] >= NodeBag(at, rest)[x];
  }

  /** Every directory seen is shallow or still on the stack, and every stacked one was seen. */
  ghost predicate DirectoriesTracked(p: Progress) {
    && (forall x: Visit :: x in p.visited && x.1.Directory? ==> |x.0| <= MAX_BUNDLE_DEPTH || OnStack(p.stack, x.0))
    && forall k :: 0 <= k < |p.stack| ==> p.stack[k].at == [] || SeenDirectory(p.visited, p.stack[k].at)
  }

  ghost predicate OnStack(stack: seq<Frame>, at: seq<string>) {
    exists k :: 0 <= k < |stack| && stack[k].at == at
  }

  ghost predicate SeenDirectory(visited: seq<Visit>, at: seq<string>) {
    exists k :: 0 <= k < |visited| && visited[k].0 == at && visited[k].1.Directory?
  }

  lemma {:induction false} TrackEntry(p: Progress, x: Visit, q: Progress)
    requires DirectoriesTracked(p) && q.visited == p.visited + [x]
    requires q.stack == if x.1.Directory? then p.stack + [Frame(x.0, x.1.entries)] else p.stack
    ensures DirectoriesTracked(q)
  {
    forall y: Visit | y in q.visited && y.1.Directory? ensures |y.0| <= MAX_BUNDLE_DEPTH || OnStack(q.stack, y.0) {
      if y in p.visited {
        if k :| 0 <= k < |p.stack| && p.stack[k].at == y.0 {
          assert q.stack[k].at == y.0;
        }
      } else {
        assert q.stack[|p.stack|].at == y.0;
      }
    }
    forall k | 0 <= k < |q.stack| ensures q.stack[k].at == [] || SeenDirectory(q.visited, q.stack[k].at) {
      if k < |p.stack| {
        if j :| 0 <= j < |p.visited| && p.visited[j].0 == p.stack[k].at && p.visited[j].1.Directory? {
          assert q.visited[j].0 == q.stack[k].at && q.visited[j].1.Directory?;
        }
      } else {
        assert q.visited[|p.visited|].0 == q.stack[k].at;
      }
    }
  }

  lemma {:induction false} OneFileRefused(c: Context, x: Visit, error: TreeError)
    requires x in NodeBag([], c.root) && !x.1.Directory?
    requires FileError(c.cs, Join(x.0, '/'), x.1, c.expectedMode) == Some(error)
    ensures Justified(c.cs, c.root, c.expectedMode, error)
  {
    assert FileRefused(c.cs, c.root, c.expectedMode, error);
  }

  /** Looks at one entry of the directory `at`; `rest` starts with it. */
  method VisitEntry(c: Context, at: seq<string>, entry: Entry, ghost rest: seq<Entry>, p: Progress)
    returns (error: Option<TreeError>, q: Progress)
    requires Inside(c, p, at, rest) && rest != [] && rest[0] == entry && DirectoriesTracked(p)
    ensures error.Some? ==> Justified(c.cs, c.root, c.expectedMode, error.value)
    ensures error.None? ==>
            && Inside(c, q, at, rest[1..]) && DirectoriesTracked(q)
            && StackWeight(q.stack, One()) + 1 + Weigh(rest[1..], One()) == StackWeight(p.stack, One()) + Weigh(rest, One())
            && |q.stack| <= |p.stack| + 1
  {
    var path, node := at + [entry.name], entry.node;
    if node.Directory? {
      q := Progress(p.stack + [Frame(path, node.entries)], p.files, p.totalBytes, p.visited + [(path, node)]);
      DirectoryStep(c, p, at, rest);
      PushWeight(p.stack, Frame(path, node.entries), One());
      TrackEntry(p, (path, node), q);
      return None, q;
    }
    RestSplits(at, rest);
    LeftIsInTree(c, p, at, rest, (path, node));
    q := p;
    error := FileError(c.cs, Join(path, '/'), node, c.expectedMode);
    if error.Some? {
      OneFileRefused(c, (path, node), error.value);
      return;
    }
    FileWeights(rest);
    if p.totalBytes + |node.bytes| > MAX_TOTAL_BYTES {
      return Some(TotalBytesExceeded), p;
    }
    if |p.files| >= MAX_BUNDLE_FILES {
      return Some(FileCountExceeded), p;
    }
    q := Progress(p.stack, p.files + [FileRecord(Join(path, '/'), node.bytes)], p.totalBytes + |node.bytes|,
                  p.visited + [(path, node)]);
    FileStep(c, p, at, rest, q);
    TrackEntry(p, (path, node), q);
  }

  /** Works through the entries of one directory. */
  method VisitDirectory(c: Context, frame: Frame, before: Progress) returns (error: Option<TreeError>, p: Progress)
    requires Inside(c, before, frame.at, frame.entries) && DirectoriesTracked(before)
    ensures error.Some? ==> Justified(c.cs, c.root, c.expectedMode, error.value)
    ensures error.None? ==>
            && Inside(c, p, frame.at, []) && DirectoriesTracked(p)
            && StackWeight(p.stack, One()) + |frame.entries| == StackWeight(before.stack, One()) + Weigh(frame.entries, One())
            && |p.stack| <= |before.stack| + |frame.entries|
  {
    p := before;
    var entries := frame.entries;
    assert entries[0..] == entries;
    for i := 0 to |entries|
      invariant Inside(c, p, frame.at, entries[i..]) && DirectoriesTracked(p)
      invariant StackWeight(p.stack, One()) + i + Weigh(entries[i..], One()) == StackWeight(before.stack, One()) + Weigh(entries, One())
      invariant |p.stack| <= |before.stack| + i
    {
      assert entries[i..][0] == entries[i] && entries[i..][1..] == entries[i + 1..];
      error, p := VisitEntry(c, frame.at, entries[i], entries[i..], p);
      if error.Some? { return; }
    }
    assert entries[|entries|..] == [];
    error := None;
  }

  /** Collects exactly the regular files of the tree, sorted by path, if every entry is
      acceptable and every budget holds over the whole tree; otherwise fails with an error that the tree justifies. */
  method CollectRegularFiles(cs: Charset, root: Node, expectedMode: Option<bv9>) returns (result: Result<seq<FileRecord>, TreeError>)
    requires root.Directory? ==> WellNamed(root.entries)
    ensures result.Ok? <==> root.Directory? && Collectable(cs, root.entries, expectedMode)
    ensures result.Ok? ==> ListsFiles(result.value, NodeBag([], root.entries))
    ensures result.Err? ==> if root.Directory? then Justified(cs, root.entries, expectedMode, result.error) else result.error == RootInvalid
  {
    if !root.Directory? {
      return Err(RootInvalid);
    }
    var c := Context(cs, root.entries, expectedMode);
    var p := Progress([Frame([], root.entries)], [], 0, []);
    var totalEntries: nat := 0;
    StartWalk(c, p);
    while |p.stack| > 0
      invariant Inside(c, p, [], []) && DirectoriesTracked(p)
      invariant totalEntries + StackWeight(p.stack, One()) == Weigh(root.entries, One())
      invariant totalEntries <= MAX_BUNDLE_ENTRIES
      decreases StackWeight(p.stack, One()) + |p.stack|
    {
      var frame := p.stack[|p.stack| - 1];
      var popped := Progress(p.stack[..|p.stack| - 1], p.files, p.totalBytes, p.visited);
      assert p.stack == popped.stack + [frame];
      if |frame.at| > MAX_BUNDLE_DEPTH {
        TooDeep(c, p);
        JustifiedRefuses(cs, root.entries, expectedMode, DepthExceeded);
        return Err(DepthExceeded);
      }
      PopFrame(c, p, popped, frame);
      WeighAtLeast(frame.entries);
      totalEntries := totalEntries + |frame.entries|;
      if totalEntries > MAX_BUNDLE_ENTRIES {
        return Err(EntryCountExceeded);
      }
      var error, q := VisitDirectory(c, frame, popped);
      if error.Some? {
        JustifiedRefuses(cs, root.entries, expectedMode, error.value);
        return Err(error.value);
      }
      p := q;
    }
    AllVisited(c, p);
    CompleteWalkLists(root.entries, p.visited);
    result := Ok(SortBy(p.files, PathKey()));
  }

  lemma {:induction false} StartWalk(c: Context, p: Progress)
    requires p == Progress([Frame([], c.root)], [], 0, [])
    ensures Inside(c, p, [], []) && DirectoriesTracked(p)
    ensures StackWeight(p.stack, One()) == Weigh(c.root, One())
  {
    assert p.stack == [] + [Frame([], c.root)];
    PushBag([], Frame([], c.root));
    PushWeight([], Frame([], c.root), One());
    PushWeight([], Frame([], c.root), OneFile());
    PushWeight([], Frame([], c.root), ByteSize());
    assert multiset(p.visited) == multiset{};
  }

  lemma {:induction false} TooDeep(c: Context, p: Progress)
    requires Inside(c, p, [], []) && DirectoriesTracked(p) && p.stack != []
    requires |p.stack[|p.stack| - 1].at| > MAX_BUNDLE_DEPTH
    ensures Justified(c.cs, c.root, c.expectedMode, DepthExceeded)
  {
    var at := p.stack[|p.stack| - 1].at;
    var k :| 0 <= k < |p.visited| && p.visited[k].0 == at && p.visited[k].1.Directory?;
    assert p.visited[k] in multiset(p.visited);
    assert p.visited[k] in NodeBag([], c.root);
  }

  lemma {:induction false} PopFrame(c: Context, p: Progress, popped: Progress, frame: Frame)
    requires Inside(c, p, [], []) && DirectoriesTracked(p) && |frame.at| <= MAX_BUNDLE_DEPTH
    requires p.stack == popped.stack + [frame] && popped.files == p.files
    requires popped.totalBytes == p.totalBytes && popped.visited == p.visited
    ensures Inside(c, popped, frame.at, frame.entries) && DirectoriesTracked(popped)
    ensures StackWeight(p.stack, One()) == StackWeight(popped.stack, One()) + Weigh(frame.entries, One())
  {
    PushBag(popped.stack, frame);
    PushWeight(popped.stack, frame, One());
    PushWeight(popped.stack, frame, OneFile());
    PushWeight(popped.stack, frame, ByteSize());
    assert StackBag(p.stack) + NodeBag([], []) == StackBag(popped.stack) + NodeBag(frame.at, frame.entries);
    forall x: Visit | x in popped.visited && x.1.Directory? ensures |x.0| <= MAX_BUNDLE_DEPTH || OnStack(popped.stack, x.0) {
      if |x.0| > MAX_BUNDLE_DEPTH {
        var k :| 0 <= k < |p.stack| && p.stack[k].at == x.0;
        assert popped.stack[k].at == x.0;
      }
    }
    assert forall k :: 0 <= k < |popped.stack| ==> popped.stack[k] == p.stack[k];
  }

  lemma {:induction false} AllVisited(c: Context, p: Progress)
    requires Inside(c, p, [], []) && DirectoriesTracked(p) && p.stack == []
    requires Weigh(c.root, One()) <= MAX_BUNDLE_ENTRIES
    ensures multiset(p.visited) == NodeBag([], c.root) && Collectable(c.cs, c.root, c.expectedMode)
  {
    assert multiset(p.visited) == NodeBag([], c.root);
    forall x | x in NodeBag([], c.root) ensures EntryOk(c.cs, x, c.expectedMode) {
      assert x in multiset(p.visited);
      assert x in p.visited;
    }
  }
}
