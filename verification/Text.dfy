/** Searching, splitting and joining strings. */
module Text {

  predicate StartsWith(s: string, prefix: string) {
    |prefix| <= |s| && s[..|prefix|] == prefix
  }

  predicate OccursAt(s: string, part: string, i: nat) {
    i + |part| <= |s| && s[i..i + |part|] == part
  }

  ghost predicate Contains(s: string, part: string) {
    exists i: nat :: OccursAt(s, part, i)
  }

  lemma {:induction false} OccursChar(s: string, part: string, i: nat, k: nat)
    requires OccursAt(s, part, i) && k < |part|
    ensures i + k < |s| && s[i + k] == part[k]
  {
    assert s[i..i + |part|][k] == s[i + k];
  }

  /** An occurrence inside a suffix is an occurrence in the whole. */
  lemma {:induction false} OccursLater(front: string, back: string, part: string, i: nat)
    ensures OccursAt(back, part, i) <==> OccursAt(front + back, part, |front| + i)
  {
    var s := front + back;
    if i + |part| <= |back| {
      assert s[|front| + i..|front| + i + |part|] == back[i..i + |part|];
    }
  }

  lemma {:induction false} OccursEarlier(front: string, back: string, part: string, i: nat)
    requires OccursAt(front, part, i)
    ensures OccursAt(front + back, part, i)
  {
    assert (front + back)[i..i + |part|] == front[i..i + |part|];
  }

  /** The last slash of a path is right before its slash-free last part. */
  lemma {:induction false} LastSlash(scope: string, name: string)
    requires '/' !in name
    ensures LastIndexOf(scope + "/" + name, "/") == |scope|
    ensures LastIndexOf(name, "/") == -1
  {
    var path := scope + "/" + name;
    assert path[|scope|..|scope| + 1] == "/";
    assert OccursAt(path, "/", |scope|);
    var last, own := LastIndexOf(path, "/"), LastIndexOf(name, "/");
    if last > |scope| {
      OccursChar(path, "/", last, 0);
    }
    if own >= 0 {
      OccursChar(name, "/", own, 0);
    }
  }

  /** The last place at or before `from` where `part` occurs, or -1. */
  function LastIndexUpTo(s: string, part: string, from: int): (r: int)
    requires -1 <= from <= |s|
    ensures -1 <= r <= from
    ensures r >= 0 ==> OccursAt(s, part, r)
    ensures forall i: nat :: r < i <= from ==> !OccursAt(s, part, i)
    decreases from + 1
  {
    if from < 0 then -1
    else if OccursAt(s, part, from) then from
    else LastIndexUpTo(s, part, from - 1)
  }

  function LastIndexOf(s: string, part: string): (r: int)
    ensures -1 <= r <= |s|
    ensures r >= 0 ==> OccursAt(s, part, r)
    ensures forall i: nat :: r < i ==> !OccursAt(s, part, i)
  {
    LastIndexUpTo(s, part, |s|)
  }

  /** The maximal runs free of `separator`, at least one. */
  function Split(s: string, separator: char): (parts: seq<string>)
    ensures parts != [] && forall p :: p in parts ==> separator !in p
    ensures |parts| == 1 <==> separator !in s
    ensures |parts| == 1 ==> parts[0] == s
  {
    if s == [] then [""]
    else if s[0] == separator then [""] + Split(s[1..], separator)
    else
      var rest := Split(s[1..], separator);
      [[s[0]] + rest[0]] + rest[1..]
  }

  function Join(parts: seq<string>, separator: char): string {
    if parts == [] then ""
    else if |parts| == 1 then parts[0]
    else parts[0] + [separator] + Join(parts[1..], separator)
  }

  /** Joining what was split gives the string back. */
  lemma {:induction false} JoinSplit(s: string, separator: char)
    ensures Join(Split(s, separator), separator) == s
  {
    if s != [] {
      JoinSplit(s[1..], separator);
      var rest := Split(s[1..], separator);
      assert s == [s[0]] + s[1..];
      if s[0] == separator {
        assert ([""] + rest)[1..] == rest;
      } else {
        JoinPrefixed(s[0], rest, separator);
      }
    }
  }

  lemma {:induction false} JoinPrefixed(c: char, parts: seq<string>, separator: char)
    requires parts != []
    ensures Join([[c] + parts[0]] + parts[1..], separator) == [c] + Join(parts, separator)
  {
    var longer := [[c] + parts[0]] + parts[1..];
    assert longer[1..] == parts[1..];
  }

  lemma {:induction false} SplitAt(a: string, b: string, separator: char)
    requires separator !in a
    ensures Split(a + [separator] + b, separator) == [a] + Split(b, separator)
  {
    var s := a + [separator] + b;
    if a == [] {
      assert s[1..] == b;
    } else {
      assert s[1..] == a[1..] + [separator] + b;
      assert s[0] == a[0] && a[0] in a;
      SplitAt(a[1..], b, separator);
      var rest := [a[1..]] + Split(b, separator);
      assert rest[0] == a[1..] && rest[1..] == Split(b, separator);
      assert [a[0]] + a[1..] == a;
    }
  }

  /** Splitting what was joined from separator-free parts gives the parts back. */
  lemma {:induction false} SplitJoin(parts: seq<string>, separator: char)
    requires parts != [] && forall p :: p in parts ==> separator !in p
    ensures Split(Join(parts, separator), separator) == parts
  {
    if |parts| > 1 {
      assert parts[0] in parts;
      assert forall p :: p in parts[1..] ==> p in parts;
      SplitJoin(parts[1..], separator);
      SplitAt(parts[0], Join(parts[1..], separator), separator);
    } else {
      assert parts[0] in parts;
    }
  }

  /** Joining is injective on non-empty lists of separator-free parts. */
  lemma {:induction false} JoinInjective(a: seq<string>, b: seq<string>, separator: char)
    requires a != [] && b != []
    requires forall p :: p in a + b ==> separator !in p
    requires Join(a, separator) == Join(b, separator)
    ensures a == b
  {
    assert forall p :: p in a ==> p in a + b;
    assert forall p :: p in b ==> p in a + b;
    SplitJoin(a, separator);
    SplitJoin(b, separator);
  }

  lemma {:induction false} JoinAppend(parts: seq<string>, last: string, separator: char)
    requires parts != []
    ensures Join(parts + [last], separator) == Join(parts, separator) + [separator] + last
  {
    if |parts| > 1 {
      JoinAppend(parts[1..], last, separator);
      assert (parts + [last])[1..] == parts[1..] + [last];
    } else {
      assert (parts + [last])[1..] == [last];
    }
  }

  lemma {:induction false} JoinBoth(front: seq<string>, back: seq<string>, separator: char)
    requires front != [] && back != []
    ensures Join(front + back, separator) == Join(front, separator) + [separator] + Join(back, separator)
  {
    if |front| > 1 {
      JoinBoth(front[1..], back, separator);
      assert (front + back)[1..] == front[1..] + back;
    } else {
      assert (front + back)[1..] == back;
    }
  }

  /** Splitting at a separator splits both sides. */
  lemma {:induction false} SplitBoth(a: string, b: string, separator: char)
    ensures Split(a + [separator] + b, separator) == Split(a, separator) + Split(b, separator)
  {
    var parts := Split(a, separator) + Split(b, separator);
    JoinBoth(Split(a, separator), Split(b, separator), separator);
    JoinSplit(a, separator);
    JoinSplit(b, separator);
    SplitJoin(parts, separator);
  }
}
