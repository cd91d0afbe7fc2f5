/** Lock paths of installed packages: the scopes that enclose a path, the name a path
    stands for, and the resolution of a dependency to the nearest enclosing scope. */
module ModuleResolution {
  import opened Wrappers
  import opened Text

  const NODE_MODULES := "node_modules/"
  const NESTED := "/node_modules/"

  /** The scope searched after `cursor`; it is strictly shorter. */
  function Parent(cursor: string): (r: string)
    requires cursor != ""
    ensures |r| < |cursor|
  {
    var nested := LastIndexOf(cursor, NESTED);
    if nested >= 0 then cursor[..nested]
    else if StartsWith(cursor, NODE_MODULES) then ""
    else
      var slash := LastIndexOf(cursor, "/");
      if slash >= 0 then cursor[..slash] else ""
  }

  /** All scopes searched from a path, nearest first. */
  function Scopes(path: string): seq<string>
    decreases |path|
  {
    if path == "" then [""] else [path] + Scopes(Parent(path))
  }

  function Candidate(scope: string, name: string): string {
    if scope == "" then NODE_MODULES + name else scope + NESTED + name
  }

  /** The first scope whose candidate is usable. */
  function FirstUsable(scopes: seq<string>, name: string, usable: string -> bool): (r: Option<string>)
    ensures r.None? <==> forall s :: s in scopes ==> !usable(Candidate(s, name))
    ensures r.Some? ==> exists k :: 0 <= k < |scopes| && r.value == Candidate(scopes[k], name) && usable(r.value)
                          && forall j :: 0 <= j < k ==> !usable(Candidate(scopes[j], name))
  {
    if scopes == [] then None
    else if usable(Candidate(scopes[0], name)) then Some(Candidate(scopes[0], name))
    else
      var r := FirstUsable(scopes[1..], name, usable);
      assert r.Some? ==> forall k :: 0 <= k < |scopes| - 1 ==> scopes[1..][k] == scopes[k + 1];
      r
  }

  /** Walks up from `from` until a usable candidate is found or the top is passed. */
  method ResolveDependencyPath(usable: string -> bool, from: string, name: string) returns (r: Option<string>)
    ensures r == FirstUsable(Scopes(from), name, usable)
  {
    var cursor := from;
    while true
      invariant FirstUsable(Scopes(from), name, usable) == FirstUsable(Scopes(cursor), name, usable)
      decreases |cursor|
    {
      var candidate := Candidate(cursor, name);
      if usable(candidate) {
        return Some(candidate);
      }
      if cursor == "" {
        assert Scopes("")[1..] == [];
        return None;
      }
      assert Scopes(cursor)[1..] == Scopes(Parent(cursor));
      var nested := LastIndexOf(cursor, NESTED);
      if nested >= 0 {
        cursor := cursor[..nested];
        continue;
      }
      if StartsWith(cursor, NODE_MODULES) {
        cursor := "";
        continue;
      }
      var slash := LastIndexOf(cursor, "/");
      cursor := if slash >= 0 then cursor[..slash] else "";
    }
  }

  // ---------- the scopes are the places that enclose a place in the install tree

  /** A place in the install tree: the project root, a workspace directory, or a package
      installed in the node_modules directory of another place. */
  datatype Place =
    | Root
    | Directory(parent: Place, name: string)
    | Package(parent: Place, name: string)

  function PathOf(place: Place): string {
    match place
    case Root => ""
    case Directory(Root, name) => name
    case Directory(parent, name) => PathOf(parent) + "/" + name
    case Package(parent, name) => Candidate(PathOf(parent), name)
  }

  /** Directories are nested in directories only and none is called node_modules; no package
      name has a node_modules part. */
  ghost predicate WellPlaced(place: Place) {
    match place
    case Root => true
    case Directory(parent, name) =>
      && !parent.Package? && WellPlaced(parent)
      && name != "" && '/' !in name
      && !Contains("/" + PathOf(place) + "/", NESTED)
    case Package(parent, name) =>
      && WellPlaced(parent) && name != "" && !Contains("/" + name, NESTED)
  }

  /** A place and everything around it, innermost first. */
  function Enclosing(place: Place): seq<Place> {
    if place.Root? then [Root] else [place] + Enclosing(place.parent)
  }

  function PathsOf(places: seq<Place>): (r: seq<string>)
    ensures |r| == |places| && forall i :: 0 <= i < |places| ==> r[i] == PathOf(places[i])
  {
    if places == [] then [] else [PathOf(places[0])] + PathsOf(places[1..])
  }

  /** The only slash of the inner marker is its last letter, so occurrences overlap at most there. */
  lemma {:induction false} MarkersApart(s: string, i: nat, j: nat)
    requires OccursAt(s, NODE_MODULES, i) && OccursAt(s, NODE_MODULES, j) && i < j
    ensures |NODE_MODULES| == 13 && i + 13 <= j
  {
    if j < i + 13 {
      OccursChar(s, NODE_MODULES, i, 12);
      OccursChar(s, NODE_MODULES, j, i + 12 - j);
    }
  }

  lemma {:induction false} NestedIsInner(s: string, i: nat)
    requires OccursAt(s, NESTED, i)
    ensures OccursAt(s, NODE_MODULES, i + 1) && s[i] == '/'
  {
    OccursChar(s, NESTED, i, 0);
    assert NESTED[1..] == NODE_MODULES;
    assert s[i + 1..i + 14] == s[i..i + 14][1..];
  }

  /** The marker occurs last right before a package name that has no node_modules part. */
  lemma {:induction false} LastMarker(scope: string, name: string)
    requires !Contains("/" + name, NESTED)
    ensures LastIndexOf(scope + NESTED + name, NESTED) == |scope|
  {
    var path := scope + NESTED + name;
    var front := scope + NESTED[..13];
    assert path == front + ("/" + name);
    assert path[|scope|..|scope| + 14] == NESTED;
    assert OccursAt(path, NESTED, |scope|);
    var last := LastIndexOf(path, NESTED);
    if last > |scope| {
      NestedIsInner(path, |scope|);
      NestedIsInner(path, last);
      MarkersApart(path, |scope| + 1, last + 1);
      OccursLater(front, "/" + name, NESTED, last - |front|);
    }
  }

  /** Without the leading slash, the marker does not occur in a top-level package path at all. */
  lemma {:induction false} TopLevelMarker(name: string)
    requires !Contains("/" + name, NESTED)
    ensures LastIndexOf(NODE_MODULES + name, NESTED) == -1
  {
    var path := NODE_MODULES + name;
    LastMarker("", name);
    assert "" + NESTED + name == "/" + path;
    var last := LastIndexOf(path, NESTED);
    if last >= 0 {
      OccursLater("/", path, NESTED, last);
    }
  }

  lemma {:induction false} PackageParent(parent: Place, name: string)
    requires WellPlaced(Package(parent, name))
    ensures PathOf(Package(parent, name)) != "" && Parent(PathOf(Package(parent, name))) == PathOf(parent)
  {
    var scope := PathOf(parent);
    if scope == "" {
      TopLevelMarker(name);
      assert (NODE_MODULES + name)[..13] == NODE_MODULES;
    } else {
      LastMarker(scope, name);
      assert (scope + NESTED + name)[..|scope|] == scope;
    }
  }

  /** A path that holds no marker when framed by slashes has none, and starts with none. */
  lemma {:induction false} NoMarkerInFramed(path: string)
    requires !Contains("/" + path + "/", NESTED)
    ensures LastIndexOf(path, NESTED) == -1 && !StartsWith(path, NODE_MODULES)
  {
    var last := LastIndexOf(path, NESTED);
    if last >= 0 {
      OccursLater("/", path, NESTED, last);
      OccursEarlier("/" + path, "/", NESTED, last + 1);
    }
    if StartsWith(path, NODE_MODULES) {
      assert ("/" + path)[..14] == "/" + path[..13];
      assert OccursAt("/" + path, NESTED, 0);
      OccursEarlier("/" + path, "/", NESTED, 0);
    }
  }

  lemma {:induction false} DirectoryParent(place: Place)
    requires place.Directory? && WellPlaced(place)
    ensures PathOf(place) != "" && Parent(PathOf(place)) == PathOf(place.parent)
  {
    var path := PathOf(place);
    NoMarkerInFramed(path);
    LastSlash(PathOf(place.parent), place.name);
    if !place.parent.Root? {
      var scope := PathOf(place.parent);
      assert path == scope + "/" + place.name;
      assert path[..|scope|] == scope;
    }
  }

  /** The string scopes of a place are exactly the paths of the places that enclose it. */
  lemma {:induction false} ScopesAreEnclosingPlaces(place: Place)
    requires WellPlaced(place)
    ensures Scopes(PathOf(place)) == PathsOf(Enclosing(place))
  {
    if !place.Root? {
      if place.Package? { PackageParent(place.parent, place.name); } else { DirectoryParent(place); }
      ScopesAreEnclosingPlaces(place.parent);
      assert ([place] + Enclosing(place.parent))[1..] == Enclosing(place.parent);
    }
  }

  /** The k-th place has a usable package of that name and no place before it has one. */
  ghost predicate NearestUsable(places: seq<Place>, k: int, name: string, usable: string -> bool) {
    && 0 <= k < |places| && usable(PathOf(Package(places[k], name)))
    && forall j :: 0 <= j < k ==> !usable(PathOf(Package(places[j], name)))
  }

  /** Resolution from a place finds the package installed at the nearest enclosing place that
      has a usable one, and fails only if no enclosing place has one. */
  lemma {:induction false} ResolvesToNearest(place: Place, name: string, usable: string -> bool)
    requires WellPlaced(place)
    ensures var r := FirstUsable(Scopes(PathOf(place)), name, usable);
            && (r.None? <==> forall p :: p in Enclosing(place) ==> !usable(PathOf(Package(p, name))))
            && (r.Some? ==> exists k :: NearestUsable(Enclosing(place), k, name, usable) && r.value == PathOf(Package(Enclosing(place)[k], name)))
  {
    ScopesAreEnclosingPlaces(place);
    NearestAmong(Enclosing(place), name, usable);
  }

  lemma {:induction false} NearestAmong(places: seq<Place>, name: string, usable: string -> bool)
    ensures var r := FirstUsable(PathsOf(places), name, usable);
            && (r.None? <==> forall p :: p in places ==> !usable(PathOf(Package(p, name))))
            && (r.Some? ==> exists k :: NearestUsable(places, k, name, usable) && r.value == PathOf(Package(places[k], name)))
  {
    if places != [] {
      var rest, first := places[1..], PathOf(Package(places[0], name));
      assert PathsOf(places) == [PathOf(places[0])] + PathsOf(rest);
      assert PathsOf(places)[1..] == PathsOf(rest);
      assert forall p :: p in places <==> p == places[0] || p in rest;
      if usable(first) {
        assert NearestUsable(places, 0, name, usable);
      } else {
        NearestAmong(rest, name, usable);
        var r := FirstUsable(PathsOf(rest), name, usable);
        if r.Some? {
          var k :| NearestUsable(rest, k, name, usable) && r.value == PathOf(Package(rest[k], name));
          NearestShifts(places, k, name, usable);
        }
      }
    }
  }

  lemma {:induction false} NearestShifts(places: seq<Place>, k: int, name: string, usable: string -> bool)
    requires places != [] && !usable(PathOf(Package(places[0], name))) && NearestUsable(places[1..], k, name, usable)
    ensures NearestUsable(places, k + 1, name, usable) && places[k + 1] == places[1..][k]
  {
    forall j | 0 <= j < k + 1 ensures !usable(PathOf(Package(places[j], name))) {
      if j > 0 { assert places[j] == places[1..][j - 1]; }
    }
  }

  // ---------- the name a lock path stands for

  function PackageName(lockPath: string): Option<string> {
    var marker := LastIndexOf(lockPath, NODE_MODULES);
    if marker < 0 then None
    else
      var parts := Split(lockPath[marker + |NODE_MODULES|..], '/');
      if StartsWith(parts[0], "@") then
        if |parts| != 2 || parts[1] == "" then None else Some(parts[0] + "/" + parts[1])
      else if |parts| != 1 || parts[0] == "" then None
      else Some(parts[0])
  }

  /** A plain name, or a scope that starts with @, a slash and a plain name. */
  ghost predicate ValidName(name: string) {
    || (name != "" && '/' !in name && name[0] != '@')
    || exists scope, plain :: IsScoped(name, scope, plain)
  }

  ghost predicate IsScoped(name: string, scope: string, plain: string) {
    name == scope + "/" + plain && StartsWith(scope, "@") && '/' !in scope && '/' !in plain && plain != ""
  }

  /** Reading a tail back: the parts must form a valid name. */
  lemma {:induction false} TailName(tail: string)
    ensures var parts := Split(tail, '/');
            (if StartsWith(parts[0], "@") then |parts| == 2 && parts[1] != "" else |parts| == 1 && parts[0] != "")
            <==> ValidName(tail)
    ensures Join(Split(tail, '/'), '/') == tail
  {
    JoinSplit(tail, '/');
    var parts := Split(tail, '/');
    if |parts| == 2 {
      assert parts[1..] == [parts[1]];
      assert parts[0] in parts && parts[1] in parts;
      if StartsWith(parts[0], "@") && parts[1] != "" { assert IsScoped(tail, parts[0], parts[1]); }
    }
    if scope, plain :| IsScoped(tail, scope, plain) {
      SplitAt(scope, plain, '/');
      assert Split(plain, '/') == [plain];
    }
  }

  /** The marker occurs last right before a name exactly if the name does not hold it. */
  lemma {:induction false} NameMarker(front: string, name: string)
    ensures var last := LastIndexOf(front + NODE_MODULES + name, NODE_MODULES);
            last >= |front| && (last == |front| <==> !Contains(name, NODE_MODULES))
  {
    var path, head := front + NODE_MODULES + name, front + NODE_MODULES;
    assert path[|front|..|front| + 13] == NODE_MODULES;
    assert OccursAt(path, NODE_MODULES, |front|);
    var last := LastIndexOf(path, NODE_MODULES);
    if last > |front| {
      MarkersApart(path, |front|, last);
      OccursLater(head, name, NODE_MODULES, last - |head|);
    } else if i: nat :| OccursAt(name, NODE_MODULES, i) {
      OccursLater(head, name, NODE_MODULES, i);
    }
  }

  /** The path a dependency resolves to gives back its name, exactly for valid names that
      do not hold the marker themselves. */
  lemma {:induction false} NameRoundTrip(scope: string, name: string)
    ensures PackageName(Candidate(scope, name)) == Some(name) <==> ValidName(name) && !Contains(name, NODE_MODULES)
  {
    var path := Candidate(scope, name);
    var front := if scope == "" then "" else scope + "/";
    assert path == front + NODE_MODULES + name;
    NameMarker(front, name);
    var marker := LastIndexOf(path, NODE_MODULES);
    var tail := path[marker + 13..];
    TailPackageName(path, marker, tail);
    if !Contains(name, NODE_MODULES) {
      assert tail == name;
    } else {
      assert |tail| < |name|;
    }
  }

  lemma {:induction false} PlainTail(front: string, plain: string)
    requires plain != "" && '/' !in plain && plain[0] != '@'
    ensures PackageName(front + NODE_MODULES + plain) == Some(plain)
  {
    NameMarker(front, plain);
    if i: nat :| OccursAt(plain, NODE_MODULES, i) { OccursChar(plain, NODE_MODULES, i, 12); }
    assert (front + NODE_MODULES + plain)[|front| + 13..] == plain;
    TailPackageName(front + NODE_MODULES + plain, |front|, plain);
  }

  const MARKER_SCOPE := "@node_modules"

  lemma {:induction false} MarkerScopeIsValid(plain: string)
    requires plain != "" && '/' !in plain
    ensures ValidName("@" + NODE_MODULES + plain)
  {
    assert MARKER_SCOPE + "/" == "@" + NODE_MODULES;
    assert "@" + NODE_MODULES + plain == MARKER_SCOPE + "/" + plain;
    assert IsScoped("@" + NODE_MODULES + plain, MARKER_SCOPE, plain);
  }

  /** The failing side: a name in the scope `@node_modules` is valid, and read back without its scope. */
  lemma {:induction false} ScopeIsLost(scope: string, plain: string)
    requires plain != "" && '/' !in plain && plain[0] != '@'
    ensures var name := "@" + NODE_MODULES + plain;
            ValidName(name) && PackageName(Candidate(scope, name)) == Some(plain) && plain != name
  {
    var name := "@" + NODE_MODULES + plain;
    var front := (if scope == "" then NODE_MODULES else scope + NESTED) + "@";
    assert Candidate(scope, name) == front + NODE_MODULES + plain;
    MarkerScopeIsValid(plain);
    PlainTail(front, plain);
  }

  lemma {:induction false} TailPackageName(path: string, marker: nat, tail: string)
    requires marker == LastIndexOf(path, NODE_MODULES) && tail == path[marker + 13..]
    ensures PackageName(path) == if ValidName(tail) then Some(tail) else None
  {
    TailName(tail);
    var parts := Split(tail, '/');
    if |parts| == 2 { assert parts[1..] == [parts[1]]; }
  }
}
