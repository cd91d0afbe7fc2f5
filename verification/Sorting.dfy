/** Code-point order on strings and the insertion sort that stands for the
    built-in array sort with a key comparison. */
module Sorting {

  predicate Less(a: string, b: string) {
    b != [] && (a == [] || a[0] < b[0] || (a[0] == b[0] && Less(a[1..], b[1..])))
  }

  predicate Leq(a: string, b: string) {
    a == b || Less(a, b)
  }

  lemma {:induction false} LessIrreflexive(a: string)
    ensures !Less(a, a)
  {
    if a != [] {
      LessIrreflexive(a[1..]);
    }
  }

  lemma {:induction false} LessTransitive(a: string, b: string, c: string)
    requires Less(a, b) && Less(b, c)
    ensures Less(a, c)
  {
    if a != [] && a[0] == b[0] && b[0] == c[0] {
      LessTransitive(a[1..], b[1..], c[1..]);
    }
  }

  lemma {:induction false} LessTotal(a: string, b: string)
    ensures a == b || Less(a, b) || Less(b, a)
  {
    if a != [] && b != [] && a[0] == b[0] {
      LessTotal(a[1..], b[1..]);
      assert a == [a[0]] + a[1..] && b == [b[0]] + b[1..];
    }
  }

  ghost predicate SortedBy<T>(xs: seq<T>, key: T -> string) {
    forall i, j :: 0 <= i < j < |xs| ==> Leq(key(xs[i]), key(xs[j]))
  }

  ghost predicate StrictlySortedBy<T>(xs: seq<T>, key: T -> string) {
    forall i, j :: 0 <= i < j < |xs| ==> Less(key(xs[i]), key(xs[j]))
  }

  ghost predicate DistinctKeys<T>(xs: seq<T>, key: T -> string) {
    forall i, j :: 0 <= i < j < |xs| ==> key(xs[i]) != key(xs[j])
  }

  /** A strictly increasing list of exactly the members of a set. */
  ghost predicate Lists(xs: seq<string>, s: set<string>) {
    && StrictlySortedBy(xs, Itself())
    && forall x :: x in xs <==> x in s
  }

  function Itself(): string -> string { (s: string) => s }

  /** The same items, each with the same multiplicity. */
  ghost predicate Permutation<T>(xs: seq<T>, ys: seq<T>) {
    multiset(xs) == multiset(ys)
  }

  function Insert<T>(x: T, xs: seq<T>, key: T -> string): (r: seq<T>)
    requires SortedBy(xs, key)
    ensures SortedBy(r, key) && multiset(r) == multiset(xs) + multiset{x} && |r| == |xs| + 1
  {
    if xs == [] then [x]
    else if Leq(key(x), key(xs[0])) then
      InsertFirst(x, xs, key);
      [x] + xs
    else
      InsertLater(x, xs, key);
      var r := [xs[0]] + Insert(x, xs[1..], key);
      assert xs == [xs[0]] + xs[1..];
      r
  }

  lemma {:induction false} InsertFirst<T>(x: T, xs: seq<T>, key: T -> string)
    requires SortedBy(xs, key) && xs != [] && Leq(key(x), key(xs[0]))
    ensures SortedBy([x] + xs, key)
  {
    forall j | 0 <= j < |xs| ensures Leq(key(x), key(xs[j])) {
      if j > 0 && key(x) != key(xs[0]) && key(xs[0]) != key(xs[j]) {
        LessTransitive(key(x), key(xs[0]), key(xs[j]));
      }
    }
  }

  lemma {:induction false} InsertLater<T>(x: T, xs: seq<T>, key: T -> string)
    requires SortedBy(xs, key) && xs != [] && !Leq(key(x), key(xs[0]))
    ensures SortedBy(xs[1..], key)
    ensures forall r: seq<T> :: SortedBy(r, key) && multiset(r) == multiset(xs[1..]) + multiset{x}
                       ==> SortedBy([xs[0]] + r, key)
  {
    LessTotal(key(x), key(xs[0]));
    forall r: seq<T> | SortedBy(r, key) && multiset(r) == multiset(xs[1..]) + multiset{x}
      ensures SortedBy([xs[0]] + r, key)
    {
      forall k | 0 <= k < |r| ensures Leq(key(xs[0]), key(r[k])) {
        assert r[k] in multiset(r);
        assert r[k] == x || r[k] in xs[1..];
      }
    }
  }

  function SortBy<T>(xs: seq<T>, key: T -> string): (r: seq<T>)
    ensures SortedBy(r, key) && Permutation(r, xs) && |r| == |xs|
  {
    if xs == [] then []
    else
      assert xs == [xs[0]] + xs[1..];
      Insert(xs[0], SortBy(xs[1..], key), key)
  }

  lemma {:induction false} PermutationMembers<T>(xs: seq<T>, ys: seq<T>)
    requires Permutation(xs, ys)
    ensures |xs| == |ys| && forall x :: x in xs <==> x in ys
  {
    assert |multiset(xs)| == |xs| && |multiset(ys)| == |ys|;
    assert forall x :: x in xs <==> x in multiset(xs);
    assert forall x :: x in ys <==> x in multiset(ys);
  }

  /** Sorting items whose keys differ gives a strictly increasing list. */
  lemma {:induction false} SortIsStrict<T>(xs: seq<T>, key: T -> string)
    requires DistinctKeys(xs, key)
    ensures StrictlySortedBy(SortBy(xs, key), key)
  {
    var r := SortBy(xs, key);
    DistinctPermutation(xs, r, key);
  }

  lemma {:induction false} TwoOccurrences<T>(xs: seq<T>, i: nat, j: nat)
    requires i < j < |xs| && xs[i] == xs[j]
    ensures multiset(xs)[xs[i]] >= 2
  {
    assert xs == xs[..j] + xs[j..];
    assert xs[i] in xs[..j] && xs[i] in xs[j..];
  }

  lemma {:induction false} OneOccurrence<T>(xs: seq<T>, a: nat)
    requires a < |xs| && forall b :: 0 <= b < |xs| && b != a ==> xs[b] != xs[a]
    ensures multiset(xs)[xs[a]] == 1
  {
    assert xs == xs[..a] + [xs[a]] + xs[a + 1..];
    assert xs[a] !in xs[..a] && xs[a] !in xs[a + 1..];
  }

  lemma {:induction false} DistinctPermutation<T>(xs: seq<T>, ys: seq<T>, key: T -> string)
    requires DistinctKeys(xs, key) && Permutation(xs, ys)
    ensures DistinctKeys(ys, key)
  {
    PermutationMembers(xs, ys);
    forall i, j | 0 <= i < j < |ys| ensures key(ys[i]) != key(ys[j]) {
      if key(ys[i]) == key(ys[j]) {
        assert ys[i] in xs && ys[j] in xs;
        var a :| 0 <= a < |xs| && xs[a] == ys[i];
        var b :| 0 <= b < |xs| && xs[b] == ys[j];
        assert a == b;
        TwoOccurrences(ys, i, j);
        OneOccurrence(xs, a);
      }
    }
  }

  /** A strictly sorted list is determined by the items it holds. */
  lemma {:induction false} StrictlySortedUnique<T>(xs: seq<T>, ys: seq<T>, key: T -> string)
    requires StrictlySortedBy(xs, key) && StrictlySortedBy(ys, key)
    requires forall x :: x in xs <==> x in ys
    ensures xs == ys
  {
    assert xs != [] ==> xs[0] in xs;
    assert ys != [] ==> ys[0] in ys;
    if xs != [] && ys != [] {
      SameHead(xs, ys, key);
      forall x ensures x in xs[1..] <==> x in ys[1..] {
        LessIrreflexive(key(xs[0]));
        if x in xs[1..] {
          var i :| 1 <= i < |xs| && xs[i] == x;
          assert Less(key(xs[0]), key(x));
          assert x in ys;
        }
        if x in ys[1..] {
          var i :| 1 <= i < |ys| && ys[i] == x;
          assert Less(key(ys[0]), key(x));
          assert x in xs;
        }
      }
      StrictlySortedUnique(xs[1..], ys[1..], key);
      assert xs == [xs[0]] + xs[1..] && ys == [ys[0]] + ys[1..];
    }
  }

  lemma {:induction false} SameHead<T>(xs: seq<T>, ys: seq<T>, key: T -> string)
    requires StrictlySortedBy(xs, key) && StrictlySortedBy(ys, key)
    requires xs != [] && ys != [] && forall x :: x in xs <==> x in ys
    ensures xs[0] == ys[0]
  {
    assert xs[0] in ys && ys[0] in xs;
    var a :| 0 <= a < |ys| && ys[a] == xs[0];
    var b :| 0 <= b < |xs| && xs[b] == ys[0];
    if a > 0 && b > 0 {
      LessTransitive(key(ys[0]), key(ys[a]), key(xs[b]));
      LessIrreflexive(key(ys[0]));
    }
  }
}
