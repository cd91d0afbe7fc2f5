/** Relative paths of an offline bundle: which are safe, why a safe path stays inside its
    root, and when a list of paths survives a file system that folds case. */
module BundlePaths {
  import opened Wrappers
  import opened Text

  // ---------- paths as segment lists

  /** Drops empty and dot segments and lets a dot-dot segment cancel the one before it. */
  function NormalizeSegments(done: seq<string>, rest: seq<string>, aboveRoot: bool): seq<string>
    decreases |rest|
  {
    if rest == [] then done
    else if rest[0] == "" || rest[0] == "." then NormalizeSegments(done, rest[1..], aboveRoot)
    else if rest[0] == ".." then
      if done != [] && done[|done| - 1] != ".." then NormalizeSegments(done[..|done| - 1], rest[1..], aboveRoot)
      else if aboveRoot then NormalizeSegments(done + [".."], rest[1..], aboveRoot)
      else NormalizeSegments(done, rest[1..], aboveRoot)
    else NormalizeSegments(done + [rest[0]], rest[1..], aboveRoot)
  }

  predicate IsAbsolute(path: string) {
    StartsWith(path, "/")
  }

  function Normalize(path: string): string {
    if path == "" then "."
    else
      var core := Join(NormalizeSegments([], Split(path, '/'), !IsAbsolute(path)), '/');
      var trailing := path[|path| - 1] == '/';
      if core == "" then (if IsAbsolute(path) then "/" else if trailing then "./" else ".")
      else (if IsAbsolute(path) then "/" else "") + core + (if trailing then "/" else "")
  }

  /** A segment that normalization keeps as it is. */
  predicate PlainSegment(segment: string) {
    segment != "" && segment != "." && segment != ".." && '/' !in segment
  }

  predicate PlainSegments(segments: seq<string>) {
    forall s :: s in segments ==> PlainSegment(s)
  }

  lemma {:induction false} PlainIsNormal(done: seq<string>, rest: seq<string>, aboveRoot: bool)
    requires PlainSegments(rest)
    ensures NormalizeSegments(done, rest, aboveRoot) == done + rest
    decreases |rest|
  {
    if rest != [] {
      assert rest[0] in rest;
      assert forall s :: s in rest[1..] ==> s in rest;
      PlainIsNormal(done + [rest[0]], rest[1..], aboveRoot);
      assert done + [rest[0]] + rest[1..] == done + rest;
    } else {
      assert done + rest == done;
    }
  }

  // ---------- safe relative paths

  predicate IsForbidden(c: char) {
    || c == '\\' || c < ' ' || ('\U{7f}' <= c <= '\U{9f}')
    || ('\U{202a}' <= c <= '\U{202e}') || ('\U{2066}' <= c <= '\U{2069}')
  }

  /** Which characters trimming removes, and which strings are in normal form C, stay arbitrary. */
  datatype Charset = Charset(isSpace: char -> bool, isNfc: string -> bool)

  predicate Trimmed(cs: Charset, segment: string) {
    segment == "" || (!cs.isSpace(segment[0]) && !cs.isSpace(segment[|segment| - 1]))
  }

  predicate EndsWith(s: string, suffix: string) {
    |suffix| <= |s| && s[|s| - |suffix|..] == suffix
  }

  function SafeRelativePath(cs: Charset, candidate: string): Option<string> {
    if candidate == "" || exists c :: c in candidate && IsForbidden(c) then None
    else if IsAbsolute(candidate) then None
    else if exists s :: s in Split(candidate, '/') && BadSegment(cs, s) then None
    else
      var normalized := Normalize(candidate);
      if normalized == "" || normalized == "." || StartsWith(normalized, "../")
         || LastIndexOf(normalized, "/../") >= 0 || EndsWith(normalized, "/..") then None
      else if !cs.isNfc(normalized) then None
      else Some(normalized)
  }

  /** What a path must be for the check to let it pass. */
  ghost predicate IsSafe(cs: Charset, path: string) {
    && path != "" && (forall c :: c in path ==> !IsForbidden(c))
    && (forall s :: s in Split(path, '/') ==> PlainSegment(s) && Trimmed(cs, s))
    && cs.isNfc(path)
  }

  lemma {:induction false} SplitEnds(path: string)
    requires path != ""
    ensures var parts := Split(path, '/');
            && (path[0] == '/' <==> parts[0] == "")
            && (path[|path| - 1] == '/' <==> parts[|parts| - 1] == "")
  {
    var parts := Split(path, '/');
    if |path| > 1 {
      SplitEnds(path[1..]);
    } else if path[0] != '/' {
      assert parts == [[path[0]] + ""];
    }
  }

  /** Occurrences of dot-dot between slashes would be dot-dot segments. */
  lemma {:induction false} DotDotIsSegment(path: string, i: nat)
    requires OccursAt("/" + path + "/", "/../", i)
    ensures ".." in Split(path, '/')
  {
    var framed := "/" + path + "/";
    OccursChar(framed, "/../", i, 0);
    OccursChar(framed, "/../", i, 1);
    OccursChar(framed, "/../", i, 2);
    OccursChar(framed, "/../", i, 3);
    DotDotAt(path, i);
  }

  lemma {:induction false} DotDotAt(path: string, i: nat)
    requires i + 2 <= |path| && path[i] == '.' && path[i + 1] == '.'
    requires i > 0 ==> path[i - 1] == '/'
    requires i + 2 < |path| ==> path[i + 2] == '/'
    ensures ".." in Split(path, '/')
  {
    if i == 0 {
      if |path| > 2 {
        assert path == ".." + ['/'] + path[3..];
        SplitAt("..", path[3..], '/');
      } else {
        assert path == "..";
      }
    } else if i == 1 {
      DotDotAt(path[1..], 0);
    } else {
      DotDotAt(path[1..], i - 1);
      var rest := Split(path[1..], '/');
      assert '/' in path[1..] by { assert path[1..][i - 2] == '/'; }
      if path[0] != '/' {
        if rest[0] == ".." { FirstSegmentPrefix(path[1..], i - 1); }
        assert ".." in rest[1..];
      }
    }
  }

  lemma {:induction false} FirstSegmentPrefix(path: string, i: nat)
    requires i > 0 && i + 2 <= |path| && path[i] == '.' && path[i + 1] == '.' && path[i - 1] == '/'
    requires i + 2 < |path| ==> path[i + 2] == '/'
    ensures ".." in Split(path, '/')[1..]
  {
    if path[0] == '/' {
      assert Split(path, '/')[1..] == Split(path[1..], '/');
      DotDotAt(path[1..], i - 1);
    } else {
      FirstSegmentPrefix(path[1..], i - 1);
    }
  }

  lemma {:induction false} PlainPathEnds(path: string)
    requires path != "" && PlainSegments(Split(path, '/'))
    ensures !IsAbsolute(path) && path[|path| - 1] != '/' && path != "."
  {
    var parts := Split(path, '/');
    SplitEnds(path);
    assert parts[0] in parts && parts[|parts| - 1] in parts;
    assert Split(".", '/') == ["."];
  }

  lemma {:induction false} PlainNormalizes(path: string)
    requires path != "" && PlainSegments(Split(path, '/'))
    ensures Normalize(path) == path
  {
    var parts := Split(path, '/');
    PlainPathEnds(path);
    PlainIsNormal([], parts, true);
    assert [] + parts == parts;
    JoinSplit(path, '/');
    assert "" + path + "" == path;
  }

  /** A path of plain segments is its own normal form and passes the checks made after normalizing. */
  lemma {:induction false} PlainPathIsNormal(path: string)
    requires path != "" && PlainSegments(Split(path, '/'))
    ensures Normalize(path) == path
    ensures !StartsWith(path, "../") && LastIndexOf(path, "/../") < 0 && !EndsWith(path, "/..")
  {
    PlainNormalizes(path);
    NoDotDot(path);
  }

  predicate BadSegment(cs: Charset, s: string) {
    s == "" || s == "." || s == ".." || !Trimmed(cs, s)
  }

  lemma {:induction false} GoodSegments(cs: Charset, path: string)
    ensures (exists s :: s in Split(path, '/') && BadSegment(cs, s)) <==>
            !forall s :: s in Split(path, '/') ==> PlainSegment(s) && Trimmed(cs, s)
  {
  }

  /** The check answers with its input unchanged or not at all, and passes exactly the safe paths. */
  lemma {:induction false} SafePathExactly(cs: Charset, path: string)
    ensures SafeRelativePath(cs, path) == if IsSafe(cs, path) then Some(path) else None
  {
    GoodSegments(cs, path);
    if path != "" {
      if forall s :: s in Split(path, '/') ==> PlainSegment(s) && Trimmed(cs, s) {
        PlainPathEnds(path);
        PlainPathIsNormal(path);
      }
    }
  }

  /** A path is let through exactly if it is not empty, is in normal form, holds no backslash, control character or mark
      of text direction, and each of its segments is a real name without blanks at its ends. */
  lemma {:induction false} SafePathText(cs: Charset, path: string)
    ensures SafeRelativePath(cs, path).Some? <==>
            && |path| >= 1 && cs.isNfc(path)
            && (forall c :: c in path ==>
                  && c as int != 0x5c && 0x20 <= c as int && !(0x7f <= c as int <= 0x9f)
                  && !(0x202a <= c as int <= 0x202e) && !(0x2066 <= c as int <= 0x2069))
            && (forall s :: s in Split(path, '/') ==>
                  s != "" && s != "." && s != ".." && !cs.isSpace(s[0]) && !cs.isSpace(s[|s| - 1]))
    ensures SafeRelativePath(cs, path).Some? ==> SafeRelativePath(cs, path).value == path
  {
    SafePathExactly(cs, path);
    GoodSegments(cs, path);
    CharactersAllowed(path);
  }

  lemma {:induction false} CharactersAllowed(path: string)
    ensures (forall c :: c in path ==> !IsForbidden(c)) <==>
            forall c :: c in path ==>
              && c as int != 0x5c && 0x20 <= c as int && !(0x7f <= c as int <= 0x9f)
              && !(0x202a <= c as int <= 0x202e) && !(0x2066 <= c as int <= 0x2069)
  {
  }

  lemma {:induction false} NoDotDot(path: string)
    requires ".." !in Split(path, '/')
    ensures !StartsWith(path, "../") && LastIndexOf(path, "/../") < 0 && !EndsWith(path, "/..")
  {
    var framed := "/" + path + "/";
    if StartsWith(path, "../") {
      DotDotAt(path, 0);
    }
    var last := LastIndexOf(path, "/../");
    if last >= 0 {
      OccursLater("/", path, "/../", last);
      OccursEarlier("/" + path, "/", "/../", last + 1);
      DotDotIsSegment(path, last + 1);
    }
    if EndsWith(path, "/..") {
      assert path[|path| - 3] == '/' && path[|path| - 2] == '.' && path[|path| - 1] == '.';
      DotDotAt(path, |path| - 2);
    }
  }

  // ---------- staying inside a root

  /** Absolute directories as normalized segment lists. */
  function Resolve(root: seq<string>, relative: string): seq<string> {
    NormalizeSegments([], root + Split(relative, '/'), false)
  }

  function CommonPrefix(a: seq<string>, b: seq<string>): nat {
    if a == [] || b == [] || a[0] != b[0] then 0 else 1 + CommonPrefix(a[1..], b[1..])
  }

  function Climb(n: nat): seq<string> {
    if n == 0 then [] else [".."] + Climb(n - 1)
  }

  /** The relative path from one absolute directory to another. */
  function Relative(from: seq<string>, to: seq<string>): string {
    var k := CommonPrefix(from, to);
    if k <= |from| && k <= |to| then Join(Climb(|from| - k) + to[k..], '/') else ""
  }

  predicate IsPathWithin(root: seq<string>, candidate: seq<string>) {
    var relative := Relative(root, candidate);
    relative != "" && !StartsWith(relative, "../") && relative != ".." && !IsAbsolute(relative)
  }

  lemma {:induction false} CommonPrefixAgrees(a: seq<string>, b: seq<string>)
    ensures var k := CommonPrefix(a, b);
            k <= |a| && k <= |b| && a[..k] == b[..k] && (k < |a| && k < |b| ==> a[k] != b[k])
  {
    if a != [] && b != [] && a[0] == b[0] {
      CommonPrefixAgrees(a[1..], b[1..]);
      var k := CommonPrefix(a[1..], b[1..]);
      assert a[..k + 1] == [a[0]] + a[1..][..k] && b[..k + 1] == [b[0]] + b[1..][..k];
    }
  }

  lemma {:induction false} JoinHead(parts: seq<string>)
    requires parts != []
    ensures StartsWith(Join(parts, '/'), parts[0])
    ensures |parts| > 1 ==> StartsWith(Join(parts, '/'), parts[0] + "/")
  {
  }

  /** A path that climbs out of its start is dot-dot, or starts with it. */
  lemma {:induction false} ClimbsOut(n: nat, rest: seq<string>)
    requires n > 0
    ensures var relative := Join(Climb(n) + rest, '/');
            relative == ".." || StartsWith(relative, "../")
  {
    var parts := Climb(n) + rest;
    assert parts[0] == "..";
    JoinHead(parts);
    if |parts| > 1 {
      assert ".." + "/" == "../";
      assert StartsWith(Join(parts, '/'), "../");
    } else {
      assert Join(parts, '/') == "..";
    }
  }

  /** The containment test says exactly that the candidate lies strictly below the root. */
  lemma {:induction false} WithinExactly(root: seq<string>, candidate: seq<string>)
    requires PlainSegments(root) && PlainSegments(candidate)
    ensures IsPathWithin(root, candidate) <==> root < candidate
  {
    CommonPrefixAgrees(root, candidate);
    var k := CommonPrefix(root, candidate);
    var relative := Relative(root, candidate);
    assert relative == Join(Climb(|root| - k) + candidate[k..], '/');
    if |root| > k {
      ClimbsOut(|root| - k, candidate[k..]);
      assert !IsPathWithin(root, candidate);
      assert !(root < candidate);
    } else {
      assert Climb(0) + candidate[k..] == candidate[k..];
      assert root == candidate[..k];
      if k < |candidate| {
        assert candidate[k] in candidate;
        assert PlainSegments(candidate[k..]);
        BelowIsWithin(candidate[k..]);
        assert root < candidate;
      } else {
        assert root == candidate;
        assert candidate[k..] == [];
        assert relative == "";
      }
    }
  }

  lemma {:induction false} BelowIsWithin(parts: seq<string>)
    requires parts != [] && PlainSegments(parts)
    ensures var relative := Join(parts, '/');
            relative != "" && !StartsWith(relative, "../") && relative != ".." && !IsAbsolute(relative)
  {
    var relative := Join(parts, '/');
    assert parts[0] in parts;
    assert forall p :: p in parts ==> '/' !in p;
    SplitJoin(parts, '/');
    SplitEnds(relative);
    NoDotDot(relative);
    assert Split("..", '/') == [".."];
  }

  /** A safe path resolved under any root lies strictly within that root, exactly its own
      segments below it. */
  lemma {:induction false} SafePathStaysWithin(cs: Charset, root: seq<string>, path: string)
    requires PlainSegments(root) && SafeRelativePath(cs, path).Some?
    ensures Resolve(root, path) == root + Split(path, '/')
    ensures IsPathWithin(root, Resolve(root, path))
  {
    SafePathExactly(cs, path);
    var parts := Split(path, '/');
    PlainIsNormal([], root + parts, false);
    assert [] + (root + parts) == root + parts;
    WithinExactly(root, root + parts);
  }

  // ---------- the inventory

  datatype Item<T> = NotAnObject | Item(path: string, payload: T)

  datatype InventoryError = EntryInvalid | TraversalPath | Duplicate | CaseCollision

  ghost function Prefixes(path: string): set<string> {
    set i | 1 <= i <= |Split(path, '/')| :: Join(Split(path, '/')[..i], '/')
  }

  /** The prefixes of a path are the path itself and whatever stands before one of its slashes. */
  lemma {:induction false} PrefixesExactly(path: string, p: string)
    ensures p in Prefixes(path) <==> p == path || exists rest :: path == p + ['/'] + rest
  {
    var parts := Split(path, '/');
    JoinSplit(path, '/');
    if p in Prefixes(path) {
      var i :| 1 <= i <= |parts| && p == Join(parts[..i], '/');
      if i < |parts| {
        assert parts == parts[..i] + parts[i..];
        JoinBoth(parts[..i], parts[i..], '/');
      } else {
        assert parts[..i] == parts;
      }
    }
    if rest :| path == p + ['/'] + rest {
      var own := Split(p, '/');
      SplitBoth(p, rest, '/');
      JoinSplit(p, '/');
      assert parts[..|own|] == own;
    }
    if p == path { assert parts[..|parts|] == parts; }
  }

  ghost function PrefixSets<T>(items: seq<Item<T>>): seq<set<string>> {
    seq(|items|, i requires 0 <= i < |items| => if items[i].Item? then Prefixes(items[i].path) else {})
  }

  ghost function Union(sets: seq<set<string>>): set<string> {
    set i, p | 0 <= i < |sets| && p in sets[i] :: p
  }

  ghost function AllPrefixes<T>(items: seq<Item<T>>): set<string> {
    Union(PrefixSets(items))
  }

  lemma {:induction false} UnionAppend(sets: seq<set<string>>, last: set<string>)
    ensures Union(sets + [last]) == Union(sets) + last
  {
    var all := sets + [last];
    forall p ensures p in Union(all) <==> p in Union(sets) + last {
      if i :| 0 <= i < |sets| && p in sets[i] { assert p in all[i]; }
      if p in last { assert p in all[|sets|]; }
    }
  }

  /** No two different path prefixes of the inventory fold to the same string. */
  ghost predicate FoldsApart(prefixes: set<string>, fold: string -> string) {
    forall p, q :: p in prefixes && q in prefixes && fold(p) == fold(q) ==> p == q
  }

  ghost predicate AcceptableInventory<T>(cs: Charset, fold: string -> string, items: seq<Item<T>>) {
    && (forall i :: 0 <= i < |items| ==> items[i].Item? && IsSafe(cs, items[i].path))
    && DistinctPaths(items)
    && FoldsApart(AllPrefixes(items), fold)
  }

  lemma {:induction false} PathIsOwnPrefix(path: string)
    ensures path in Prefixes(path)
  {
    var parts := Split(path, '/');
    JoinSplit(path, '/');
    assert parts[..|parts|] == parts;
    assert Join(parts[..|parts|], '/') == path;
  }

  /** The index of folded prefixes holds exactly the prefixes seen, each under its folded form. */
  ghost predicate Indexes(index: map<string, string>, prefixes: set<string>, fold: string -> string) {
    && (forall p :: p in prefixes ==> fold(p) in index && index[fold(p)] == p)
    && forall k :: k in index ==> index[k] in prefixes && fold(index[k]) == k
  }

  /** Adds the prefixes of one path, or stops at one that collides with a different prefix. */
  method AddPrefixes(path: string, fold: string -> string, before: map<string, string>, ghost seen: set<string>)
    returns (ok: bool, index: map<string, string>)
    requires Indexes(before, seen, fold)
    ensures ok ==> Indexes(index, seen + Prefixes(path), fold)
    ensures ok <==> FoldsApart(seen + Prefixes(path), fold)
  {
    var segments := Split(path, '/');
    index := before;
    assert FirstPrefixes(segments, |segments|) == Prefixes(path);
    assert seen + FirstPrefixes(segments, 0) == seen;
    for i := 1 to |segments| + 1
      invariant Indexes(index, seen + FirstPrefixes(segments, i - 1), fold)
    {
      ghost var known := seen + FirstPrefixes(segments, i - 1);
      var raw := Join(segments[..i], '/');
      NextPrefix(segments, i, seen);
      if fold(raw) in index && index[fold(raw)] != raw {
        IndexedCollides(index, known, seen + Prefixes(path), raw, fold);
        return false, before;
      }
      IndexGrows(index, known, raw, fold);
      index := index[fold(raw) := raw];
    }
    IndexedFoldsApart(index, seen + Prefixes(path), fold);
    ok := true;
  }

  lemma {:induction false} NextPrefix(segments: seq<string>, i: nat, seen: set<string>)
    requires 1 <= i <= |segments|
    ensures seen + FirstPrefixes(segments, i) == seen + FirstPrefixes(segments, i - 1) + {Join(segments[..i], '/')}
    ensures seen + FirstPrefixes(segments, i) <= seen + FirstPrefixes(segments, |segments|)
  {
    FirstPrefixesStep(segments, i);
    FirstPrefixesMonotone(segments, i);
  }

  lemma {:induction false} IndexedCollides(index: map<string, string>, known: set<string>, all: set<string>,
                                           raw: string, fold: string -> string)
    requires Indexes(index, known, fold) && known <= all && raw in all
    requires fold(raw) in index && index[fold(raw)] != raw
    ensures !FoldsApart(all, fold)
  {
    Collision(all, index[fold(raw)], raw, fold);
  }

  lemma {:induction false} Collision(prefixes: set<string>, p: string, q: string, fold: string -> string)
    requires p in prefixes && q in prefixes && p != q && fold(p) == fold(q)
    ensures !FoldsApart(prefixes, fold)
  {
  }

  lemma {:induction false} IndexedFoldsApart(index: map<string, string>, prefixes: set<string>, fold: string -> string)
    requires Indexes(index, prefixes, fold)
    ensures FoldsApart(prefixes, fold)
  {
  }

  lemma {:induction false} IndexGrows(index: map<string, string>, known: set<string>, raw: string, fold: string -> string)
    requires Indexes(index, known, fold) && (fold(raw) in index ==> index[fold(raw)] == raw)
    ensures Indexes(index[fold(raw) := raw], known + {raw}, fold)
  {
  }

  ghost function FirstPrefixes(segments: seq<string>, n: nat): set<string>
    requires n <= |segments|
  {
    set i | 1 <= i <= n :: Join(segments[..i], '/')
  }

  lemma {:induction false} FirstPrefixesStep(segments: seq<string>, i: nat)
    requires 1 <= i <= |segments|
    ensures FirstPrefixes(segments, i) == FirstPrefixes(segments, i - 1) + {Join(segments[..i], '/')}
  {
  }

  lemma {:induction false} FirstPrefixesMonotone(segments: seq<string>, i: nat)
    requires i <= |segments|
    ensures FirstPrefixes(segments, i) <= FirstPrefixes(segments, |segments|)
  {
  }

  ghost function PathsIn<T>(items: seq<Item<T>>): set<string> {
    set i | 0 <= i < |items| && items[i].Item? :: items[i].path
  }

  /** What is wrong with an item that follows an acceptable list, in the order it is looked for. */
  ghost function ProblemOf<T>(cs: Charset, front: seq<Item<T>>, item: Item<T>): InventoryError {
    if item.NotAnObject? then EntryInvalid
    else if !IsSafe(cs, item.path) then TraversalPath
    else if item.path in PathsIn(front) then Duplicate
    else CaseCollision
  }

  /** The error is that of the first item that spoils the list. */
  ghost predicate FirstProblem<T>(cs: Charset, fold: string -> string, items: seq<Item<T>>, n: nat, error: InventoryError) {
    && n < |items| && AcceptableInventory(cs, fold, items[..n]) && !AcceptableInventory(cs, fold, items[..n + 1])
    && error == ProblemOf(cs, items[..n], items[n])
  }

  /** Accepts a list unchanged exactly if it is acceptable, and else reports its first problem. */
  method ValidateInventoryPaths<T>(cs: Charset, fold: string -> string, items: seq<Item<T>>)
    returns (result: Result<seq<Item<T>>, InventoryError>)
    ensures result.Ok? <==> AcceptableInventory(cs, fold, items)
    ensures result.Ok? ==> result.value == items
    ensures result.Err? ==> exists n :: FirstProblem(cs, fold, items, n, result.error)
  {
    var rawKeys, canonicalKeys, index: map<string, string>, out: seq<Item<T>> := {}, {}, map[], [];
    for i := 0 to |items|
      invariant out == items[..i] && AcceptableInventory(cs, fold, out)
      invariant rawKeys == PathsIn(out)
      invariant canonicalKeys == set p | p in rawKeys :: fold(p)
      invariant Indexes(index, AllPrefixes(out), fold)
    {
      assert items[..i + 1] == out + [items[i]];
      AcceptableStep(cs, fold, out, items[i]);
      PartAcceptable(cs, fold, items, i + 1);
      assert FirstProblem(cs, fold, items, i, ProblemOf(cs, out, items[i])) || AcceptableInventory(cs, fold, items[..i + 1]);
      if items[i].NotAnObject? { return Err(EntryInvalid); }
      SafePathExactly(cs, items[i].path);
      var normalized := SafeRelativePath(cs, items[i].path);
      if normalized.None? { return Err(TraversalPath); }
      var path := normalized.value;
      if path in rawKeys { return Err(Duplicate); }
      rawKeys := rawKeys + {path};
      var folded := fold(path);
      if folded in canonicalKeys {
        FullPathsCollide(out, path, fold);
        return Err(CaseCollision);
      }
      canonicalKeys := canonicalKeys + {folded};
      var ok, grown := AddPrefixes(path, fold, index, AllPrefixes(out));
      if !ok { return Err(CaseCollision); }
      index := grown;
      out := out + [Item(path, items[i].payload)];
    }
    assert items[..|items|] == items;
    result := Ok(out);
  }

  /** One more item keeps an inventory acceptable exactly if it is safe, new, and its prefixes
      fold apart from one another and from all before. */
  lemma {:induction false} AcceptableStep<T>(cs: Charset, fold: string -> string, front: seq<Item<T>>, last: Item<T>)
    requires AcceptableInventory(cs, fold, front)
    ensures AcceptableInventory(cs, fold, front + [last]) <==>
            last.Item? && IsSafe(cs, last.path) && last.path !in PathsIn(front)
            && FoldsApart(AllPrefixes(front) + Prefixes(last.path), fold)
    ensures last.Item? ==> AllPrefixes(front + [last]) == AllPrefixes(front) + Prefixes(last.path)
    ensures last.Item? ==> PathsIn(front + [last]) == PathsIn(front) + {last.path}
  {
    var all := front + [last];
    assert forall i :: 0 <= i < |front| ==> all[i] == front[i];
    assert all[|front|] == last;
    if last.Item? {
      UnionAppend(PrefixSets(front), Prefixes(last.path));
      assert PrefixSets(all) == PrefixSets(front) + [Prefixes(last.path)];
      DistinctStep(front, last);
    }
  }

  ghost predicate DistinctPaths<T>(items: seq<Item<T>>) {
    forall i, j :: 0 <= i < j < |items| && items[i].Item? && items[j].Item? ==> items[i].path != items[j].path
  }

  lemma {:induction false} DistinctStep<T>(front: seq<Item<T>>, last: Item<T>)
    requires last.Item? && DistinctPaths(front)
    ensures DistinctPaths(front + [last]) <==> last.path !in PathsIn(front)
    ensures PathsIn(front + [last]) == PathsIn(front) + {last.path}
  {
    var all := front + [last];
    assert forall i :: 0 <= i < |front| ==> all[i] == front[i];
    assert all[|front|] == last;
    if i :| 0 <= i < |front| && front[i].Item? && front[i].path == last.path {
      assert all[i].path == all[|front|].path;
    }
  }

  /** Every first part of an acceptable inventory is acceptable. */
  lemma {:induction false} PartAcceptable<T>(cs: Charset, fold: string -> string, items: seq<Item<T>>, n: nat)
    requires n <= |items|
    ensures AcceptableInventory(cs, fold, items) ==> AcceptableInventory(cs, fold, items[..n])
  {
    assert forall j :: 0 <= j < n ==> items[..n][j] == items[j];
    forall p | p in AllPrefixes(items[..n]) ensures p in AllPrefixes(items) {
      var j :| 0 <= j < n && p in PrefixSets(items[..n])[j];
      assert p in PrefixSets(items)[j];
    }
  }

  lemma {:induction false} FullPathsCollide<T>(items: seq<Item<T>>, path: string, fold: string -> string)
    requires path !in PathsIn(items) && exists q :: q in PathsIn(items) && fold(q) == fold(path)
    ensures !FoldsApart(AllPrefixes(items) + Prefixes(path), fold)
  {
    var q :| q in PathsIn(items) && fold(q) == fold(path);
    var i :| 0 <= i < |items| && items[i].Item? && items[i].path == q;
    PathIsOwnPrefix(path);
    PathIsOwnPrefix(q);
    assert q in PrefixSets(items)[i];
  }
}
