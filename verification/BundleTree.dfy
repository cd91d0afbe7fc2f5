/** File trees of an offline bundle: collecting every regular file under budgets, and
    copying a tree exactly. Both walk an explicit stack of directories. */
module BundleTree {
  import opened Text
  import opened Sorting
  import opened BundlePaths

  /** A directory lists its entries in name order, as both readers sort them. */
  datatype Node =
    | Directory(entries: seq<Entry>)
    | Regular(bytes: seq<int>, permissions: bv9, links: nat)
    | SymbolicLink
    | Special

  datatype Entry = Entry(name: string, node: Node)

  /** What every file system guarantees of names: plain, and distinct within a directory. */
  ghost predicate WellNamed(entries: seq<Entry>)
    decreases entries
  {
    && (forall i, j :: 0 <= i < j < |entries| ==> entries[i].name != entries[j].name)
    && forall i :: 0 <= i < |entries| ==>
         PlainSegment(entries[i].name) && (entries[i].node.Directory? ==> WellNamed(entries[i].node.entries))
  }

  type Visit = (seq<string>, Node)

  /** Every entry at any depth, with its path as a list of names, each as often as it occurs. */
  ghost function NodeBag(at: seq<string>, entries: seq<Entry>): multiset<Visit>
    decreases entries
  {
    if entries == [] then multiset{}
    else OwnBag(at, entries[0]) + NodeBag(at, entries[1..])
  }

  ghost function OwnBag(at: seq<string>, entry: Entry): multiset<Visit>
    decreases entry, 0
  {
    var path := at + [entry.name];
    multiset{(path, entry.node)} + if entry.node.Directory? then NodeBag(path, entry.node.entries) else multiset{}
  }

  /** The sum of a weight over every entry at any depth. */
  function Weigh(entries: seq<Entry>, weight: Node -> nat): nat
    decreases entries
  {
    if entries == [] then 0
    else
      var node := entries[0].node;
      weight(node) + (if node.Directory? then Weigh(node.entries, weight) else 0) + Weigh(entries[1..], weight)
  }

  function One(): Node -> nat { (n: Node) => 1 }

  function OneFile(): Node -> nat { (n: Node) => if n.Directory? then 0 else 1 }

  function ByteSize(): Node -> nat { (n: Node) => if n.Regular? then |n.bytes| else 0 }

  datatype Frame = Frame(at: seq<string>, entries: seq<Entry>)

  /** What the directories on a stack still hold. */
  ghost function StackBag(stack: seq<Frame>): multiset<Visit> {
    if stack == [] then multiset{}
    else StackBag(stack[..|stack| - 1]) + NodeBag(stack[|stack| - 1].at, stack[|stack| - 1].entries)
  }

  ghost function StackWeight(stack: seq<Frame>, weight: Node -> nat): nat {
    if stack == [] then 0
    else StackWeight(stack[..|stack| - 1], weight) + Weigh(stack[|stack| - 1].entries, weight)
  }

  lemma {:induction false} PushBag(stack: seq<Frame>, frame: Frame)
    ensures StackBag(stack + [frame]) == StackBag(stack) + NodeBag(frame.at, frame.entries)
  {
    assert (stack + [frame])[..|stack|] == stack;
  }

  lemma {:induction false} PushWeight(stack: seq<Frame>, frame: Frame, weight: Node -> nat)
    ensures StackWeight(stack + [frame], weight) == StackWeight(stack, weight) + Weigh(frame.entries, weight)
  {
    assert (stack + [frame])[..|stack|] == stack;
  }

  lemma {:induction false} WeighAtLeast(entries: seq<Entry>)
    ensures Weigh(entries, One()) >= |entries|
  {
    if entries != [] {
      WeighAtLeast(entries[1..]);
    }
  }

  /** The mask covers the three execute bits. */
  lemma {:induction false} ExecuteBits(permissions: bv9)
    ensures permissions & 0x49 == 0 <==> permissions & 0x40 == 0 && permissions & 0x08 == 0 && permissions & 0x01 == 0
  {
  }

  /** The weight of one for each entry counts the entries at any depth. */
  lemma {:induction false} WeighCounts(at: seq<string>, entries: seq<Entry>)
    ensures Weigh(entries, One()) == |NodeBag(at, entries)|
    decreases entries
  {
    if entries != [] {
      WeighCounts(at, entries[1..]);
      if entries[0].node.Directory? { WeighCounts(at + [entries[0].name], entries[0].node.entries); }
    }
  }

  // ---------- a path names one entry

  ghost function Names(entries: seq<Entry>): set<string> {
    set i | 0 <= i < |entries| :: entries[i].name
  }

  /** Every path in a directory starts with the directory's path and one of its names. */
  lemma {:induction false} PathsExtend(at: seq<string>, entries: seq<Entry>)
    ensures forall x :: x in NodeBag(at, entries) ==> at < x.0 && x.0[|at|] in Names(entries)
    decreases entries
  {
    if entries != [] {
      var rest := entries[1..];
      PathsExtend(at, rest);
      OwnPathsExtend(at, entries[0]);
      assert forall i :: 0 <= i < |rest| ==> rest[i] == entries[i + 1];
      assert entries[0].name in Names(entries) && Names(rest) <= Names(entries);
    }
  }

  lemma {:induction false} OwnPathsExtend(at: seq<string>, entry: Entry)
    ensures forall x :: x in OwnBag(at, entry) ==> at < x.0 && x.0[|at|] == entry.name
    ensures forall x :: x in OwnBag(at, entry) && x.0 == at + [entry.name] ==> x.1 == entry.node
    ensures OwnBag(at, entry)[(at + [entry.name], entry.node)] == 1
    decreases entry, 0
  {
    var path := at + [entry.name];
    if entry.node.Directory? {
      PathsExtend(path, entry.node.entries);
      forall x | x in NodeBag(path, entry.node.entries) ensures at < x.0 && x.0[|at|] == entry.name && x.0 != path {
        assert path < x.0;
        assert x.0[|at|] == path[|at|];
      }
    }
  }

  lemma {:induction false} WellNamedRest(entries: seq<Entry>)
    requires WellNamed(entries) && entries != []
    ensures WellNamed(entries[1..]) && entries[0].name !in Names(entries[1..])
    ensures PlainSegment(entries[0].name) && (entries[0].node.Directory? ==> WellNamed(entries[0].node.entries))
  {
    var rest := entries[1..];
    assert forall i :: 0 <= i < |rest| ==> rest[i] == entries[i + 1];
  }

  lemma {:induction false} PathsPlain(at: seq<string>, entries: seq<Entry>)
    requires WellNamed(entries) && PlainSegments(at)
    ensures forall x :: x in NodeBag(at, entries) ==> PlainSegments(x.0)
    decreases entries
  {
    if entries != [] {
      WellNamedRest(entries);
      PathsPlain(at, entries[1..]);
      if entries[0].node.Directory? { PathsPlain(at + [entries[0].name], entries[0].node.entries); }
    }
  }

  /** No path names two entries of a well-named tree. */
  ghost predicate OncePerPath(bag: multiset<Visit>) {
    && (forall x :: x in bag ==> bag[x] == 1)
    && forall x, y :: x in bag && y in bag && x.0 == y.0 ==> x == y
  }

  lemma {:induction false} PathsDistinct(at: seq<string>, entries: seq<Entry>)
    requires WellNamed(entries)
    ensures OncePerPath(NodeBag(at, entries))
    decreases entries
  {
    if entries != [] {
      WellNamedRest(entries);
      PathsDistinct(at, entries[1..]);
      PathsExtend(at, entries[1..]);
      OwnPathsDistinct(at, entries[0]);
      OwnPathsExtend(at, entries[0]);
      assert forall x :: x in OwnBag(at, entries[0]) ==> x !in NodeBag(at, entries[1..]);
    }
  }

  lemma {:induction false} OwnPathsDistinct(at: seq<string>, entry: Entry)
    requires entry.node.Directory? ==> WellNamed(entry.node.entries)
    ensures OncePerPath(OwnBag(at, entry))
    decreases entry, 0
  {
    var path := at + [entry.name];
    OwnPathsExtend(at, entry);
    if entry.node.Directory? {
      PathsDistinct(path, entry.node.entries);
      PathsExtend(path, entry.node.entries);
      assert (path, entry.node) !in NodeBag(path, entry.node.entries);
    }
  }

  // ---------- what both readers return

  datatype FileRecord = FileRecord(path: string, bytes: seq<int>)

  function PathKey(): FileRecord -> string { (f: FileRecord) => f.path }

  ghost predicate HoldsFile(bag: multiset<Visit>, f: FileRecord) {
    exists x :: x in bag && x.1.Regular? && f == FileRecord(Join(x.0, '/'), x.1.bytes)
  }

  /** A strictly increasing list of exactly the regular files of a tree. */
  ghost predicate ListsFiles(files: seq<FileRecord>, bag: multiset<Visit>) {
    && StrictlySortedBy(files, PathKey())
    && forall f :: f in files <==> HoldsFile(bag, f)
  }

  /** Distinct names joined by slashes stay distinct. */
  lemma {:induction false} JoinedApart(root: seq<Entry>, x: Visit, y: Visit)
    requires WellNamed(root) && x in NodeBag([], root) && y in NodeBag([], root)
    requires Join(x.0, '/') == Join(y.0, '/')
    ensures x == y
  {
    PathsExtend([], root);
    PathsPlain([], root);
    PathsDistinct([], root);
    forall p | p in x.0 + y.0 ensures '/' !in p {
      assert p in x.0 || p in y.0;
    }
    JoinInjective(x.0, y.0, '/');
  }

  /** The records of the regular files among the visited entries. */
  ghost function RecordsOf(visited: seq<Visit>): seq<FileRecord> {
    if visited == [] then []
    else
      var last := visited[|visited| - 1];
      RecordsOf(visited[..|visited| - 1])
      + if last.1.Regular? then [FileRecord(Join(last.0, '/'), last.1.bytes)] else []
  }

  lemma {:induction false} RecordsAppend(visited: seq<Visit>, x: Visit)
    ensures RecordsOf(visited + [x]) ==
            RecordsOf(visited) + if x.1.Regular? then [FileRecord(Join(x.0, '/'), x.1.bytes)] else []
  {
    assert (visited + [x])[..|visited|] == visited;
  }

  lemma {:induction false} RecordsMember(visited: seq<Visit>)
    ensures forall f :: f in RecordsOf(visited) <==> HoldsFile(multiset(visited), f)
  {
    if visited != [] {
      var front, last := visited[..|visited| - 1], visited[|visited| - 1];
      RecordsMember(front);
      assert visited == front + [last];
      forall f ensures HoldsFile(multiset(visited), f) <==>
                       HoldsFile(multiset(front), f) || (last.1.Regular? && f == FileRecord(Join(last.0, '/'), last.1.bytes))
      {
        if HoldsFile(multiset(front), f) {
          var x: Visit :| x in multiset(front) && x.1.Regular? && f == FileRecord(Join(x.0, '/'), x.1.bytes);
          assert x in multiset(visited);
        }
        if last.1.Regular? && f == FileRecord(Join(last.0, '/'), last.1.bytes) {
          assert last in multiset(visited);
        }
      }
    }
  }

  /** Records of different entries have different paths. */
  lemma {:induction false} RecordsDistinct(root: seq<Entry>, visited: seq<Visit>)
    requires WellNamed(root) && multiset(visited) <= NodeBag([], root)
    ensures DistinctKeys(RecordsOf(visited), PathKey())
  {
    if visited != [] {
      var front, last := visited[..|visited| - 1], visited[|visited| - 1];
      assert visited == front + [last];
      RecordsDistinct(root, front);
      RecordsMember(front);
      PathsDistinct([], root);
      assert last !in multiset(front) by {
        assert multiset(visited)[last] <= NodeBag([], root)[last];
      }
      forall f | f in RecordsOf(front) ensures f.path != Join(last.0, '/') {
        var x: Visit :| x in multiset(front) && x.1.Regular? && f == FileRecord(Join(x.0, '/'), x.1.bytes);
        if f.path == Join(last.0, '/') { JoinedApart(root, x, last); }
      }
    }
  }

  /** Sorting the records of a complete walk lists the files of the tree. */
  lemma {:induction false} CompleteWalkLists(root: seq<Entry>, visited: seq<Visit>)
    requires WellNamed(root) && multiset(visited) == NodeBag([], root)
    ensures ListsFiles(SortBy(RecordsOf(visited), PathKey()), NodeBag([], root))
  {
    RecordsDistinct(root, visited);
    RecordsMember(visited);
    SortIsStrict(RecordsOf(visited), PathKey());
    PermutationMembers(SortBy(RecordsOf(visited), PathKey()), RecordsOf(visited));
  }
}
