/**
 Orders used by the exporter's sort calls (`sort.Ints`, `sort.Slice` by label name,
 `slices.Sort` on strings), one sorting function for all of them, and the fact that
 makes the result of any of them canonical: two strictly increasing sequences over
 the same elements are equal.
 */
module Ordering {

  /** Go compares strings bytewise; on UTF-8 that is the order by code point. */
  predicate StringLess(a: string, b: string) {
    if b == [] then false
    else if a == [] then true
    else if a[0] != b[0] then a[0] < b[0]
    else StringLess(a[1..], b[1..])
  }

  /** Some first position tells them apart: there `a` ends, or has the smaller character. */
  ghost predicate Before(a: string, b: string) {
    exists k: nat :: DiffersFirstAt(a, b, k)
  }

  ghost predicate DiffersFirstAt(a: string, b: string, k: nat) {
    k <= |a| && k < |b| && a[..k] == b[..k] && (k == |a| || a[k] < b[k])
  }

  lemma {:induction false} StringLessIsLexicographic(a: string, b: string)
    ensures StringLess(a, b) <==> Before(a, b)
  {
    if b == [] {
    } else if a == [] || a[0] < b[0] {
      assert DiffersFirstAt(a, b, 0);
    } else if a[0] > b[0] {
      assert forall k: nat :: 0 < k <= |a| && k < |b| ==> a[..k][0] != b[..k][0];
    } else {
      StringLessIsLexicographic(a[1..], b[1..]);
      if k: nat :| DiffersFirstAt(a[1..], b[1..], k) {
        assert a[..k + 1] == [a[0]] + a[1..][..k] && b[..k + 1] == [b[0]] + b[1..][..k];
        assert DiffersFirstAt(a, b, k + 1);
      }
      if k: nat :| DiffersFirstAt(a, b, k) {
        assert k > 0;
        assert a[1..][..k - 1] == a[..k][1..] && b[1..][..k - 1] == b[..k][1..];
        assert DiffersFirstAt(a[1..], b[1..], k - 1);
      }
    }
  }

  /** Strings in strictly increasing order are so character by character. */
  lemma IncreasingStrings(s: seq<string>, i: nat, j: nat)
    requires Increasing(s, StringLess) && i < j < |s|
    ensures Before(s[i], s[j])
  {
    assert Precedes(s, i, j, StringLess);
    StringLessIsLexicographic(s[i], s[j]);
  }

  predicate IntLess(a: int, b: int) {
    a < b
  }

  /** Ascending integers, in plain terms. */
  ghost predicate Rising(s: seq<int>) {
    forall i, j :: 0 <= i < j < |s| ==> s[i] < s[j]
  }

  lemma IncreasingIsRising(s: seq<int>)
    ensures Increasing(s, IntLess) <==> Rising(s)
  {
    if Increasing(s, IntLess) {
      forall i, j | 0 <= i < j < |s|
        ensures s[i] < s[j]
      {
        assert Precedes(s, i, j, IntLess);
      }
    }
  }

  ghost predicate StrictOrder<T(!new)>(less: (T, T) -> bool) {
    && (forall x :: !less(x, x))
    && (forall x, y, z :: less(x, y) && less(y, z) ==> less(x, z))
  }

  // The pairwise properties below are stated over named pairs, so that a proof has to
  // mention the pair it uses.
  ghost predicate Precedes<T>(s: seq<T>, i: nat, j: nat, less: (T, T) -> bool)
    requires i < |s| && j < |s|
  {
    less(s[i], s[j])
  }

  /** Strictly increasing: sorted, and no two elements are equal in the order. */
  ghost predicate Increasing<T>(s: seq<T>, less: (T, T) -> bool) {
    forall i, j :: 0 <= i < j < |s| ==> Precedes(s, i, j, less)
  }

  /** Every two positions hold elements that the order tells apart. */
  ghost predicate Separated<T>(s: seq<T>, less: (T, T) -> bool) {
    forall i, j :: 0 <= i < j < |s| ==> less(s[i], s[j]) || less(s[j], s[i])
  }

  function Insert<T>(x: T, s: seq<T>, less: (T, T) -> bool): (r: seq<T>)
    ensures multiset(r) == multiset{x} + multiset(s)
  {
    if s == [] then [x]
    else if less(x, s[0]) then [x] + s
    else
      assert s == [s[0]] + s[1..];
      [s[0]] + Insert(x, s[1..], less)
  }

  /** Stands for the library sorts; `Unique` shows that on separated input it does not matter which algorithm ran. */
  function Sort<T(!new)>(s: seq<T>, less: (T, T) -> bool): (r: seq<T>)
    ensures multiset(r) == multiset(s)
    ensures |r| == |s|
    ensures forall x :: x in r <==> x in s
  {
    if s == [] then []
    else
      assert s == [s[0]] + s[1..];
      var r := Insert(s[0], Sort(s[1..], less), less);
      assert |r| == |multiset(r)| == |multiset(s)| == |s|;
      assert forall x :: x in r <==> x in multiset(r);
      assert forall x :: x in s <==> x in multiset(s);
      r
  }

  lemma {:induction false} StringLessIsStrict(a: string, b: string, c: string)
    ensures !StringLess(a, a)
    ensures StringLess(a, b) && StringLess(b, c) ==> StringLess(a, c)
    ensures a != b ==> StringLess(a, b) || StringLess(b, a)
    decreases |a| + |b| + |c|
  {
    if a != [] {
      StringLessIsStrict(a[1..], if b == [] then [] else b[1..], if c == [] then [] else c[1..]);
      if b != [] && a[0] == b[0] && a[1..] == b[1..] {
        assert a == [a[0]] + a[1..] == b;
      }
    }
  }

  lemma StringOrder()
    ensures StrictOrder(StringLess)
    ensures forall a, b :: a != b ==> StringLess(a, b) || StringLess(b, a)
  {
    forall a, b, c
      ensures !StringLess(a, a)
      ensures StringLess(a, b) && StringLess(b, c) ==> StringLess(a, c)
      ensures a != b ==> StringLess(a, b) || StringLess(b, a)
    {
      StringLessIsStrict(a, b, c);
    }
  }

  lemma IncreasingTail<T>(s: seq<T>, less: (T, T) -> bool)
    requires s != [] && Increasing(s, less)
    ensures Increasing(s[1..], less)
    ensures forall i :: 1 <= i < |s| ==> less(s[0], s[i])
  {
    var t := s[1..];
    forall i, j | 0 <= i < j < |t|
      ensures Precedes(t, i, j, less)
    {
      assert Precedes(s, i + 1, j + 1, less);
    }
    forall i | 1 <= i < |s|
      ensures less(s[0], s[i])
    {
      assert Precedes(s, 0, i, less);
    }
  }

  lemma IncreasingInit<T>(s: seq<T>, less: (T, T) -> bool)
    requires s != [] && Increasing(s, less)
    ensures Increasing(s[..|s| - 1], less)
    ensures forall i :: 0 <= i < |s| - 1 ==> less(s[i], s[|s| - 1])
  {
    var n := |s| - 1;
    var t := s[..n];
    forall i, j | 0 <= i < j < |t|
      ensures Precedes(t, i, j, less)
    {
      assert Precedes(s, i, j, less);
    }
    forall i | 0 <= i < n
      ensures less(s[i], s[n])
    {
      assert Precedes(s, i, n, less);
    }
  }

  lemma IncreasingCons<T>(x: T, t: seq<T>, less: (T, T) -> bool)
    requires Increasing(t, less) && forall i :: 0 <= i < |t| ==> less(x, t[i])
    ensures Increasing([x] + t, less)
  {
    forall i, j | 0 <= i < j < |[x] + t|
      ensures Precedes([x] + t, i, j, less)
    {
      assert i > 0 ==> Precedes(t, i - 1, j - 1, less);
    }
  }

  lemma {:induction false} InsertKeepsIncreasing<T(!new)>(x: T, s: seq<T>, less: (T, T) -> bool)
    requires StrictOrder(less)
    requires Increasing(s, less)
    requires forall i :: 0 <= i < |s| ==> less(x, s[i]) || less(s[i], x)
    ensures Increasing(Insert(x, s, less), less)
  {
    if s != [] {
      IncreasingTail(s, less);
      if less(x, s[0]) {
        IncreasingCons(x, s, less);
      } else {
        var t := Insert(x, s[1..], less);
        InsertKeepsIncreasing(x, s[1..], less);
        forall i | 0 <= i < |t|
          ensures less(s[0], t[i])
        {
          assert t[i] in multiset(t);
          assert t[i] == x || t[i] in s[1..];
        }
        IncreasingCons(s[0], t, less);
      }
    }
  }

  lemma {:induction false} SortIncreases<T(!new)>(s: seq<T>, less: (T, T) -> bool)
    requires StrictOrder(less) && Separated(s, less)
    ensures Increasing(Sort(s, less), less)
  {
    if s != [] {
      var rest := s[1..];
      assert forall i, j :: 0 <= i < j < |rest| ==> rest[i] == s[i + 1] && rest[j] == s[j + 1];
      SortIncreases(rest, less);
      var r := Sort(rest, less);
      forall i | 0 <= i < |r|
        ensures less(s[0], r[i]) || less(r[i], s[0])
      {
        assert r[i] in rest;
      }
      InsertKeepsIncreasing(s[0], r, less);
    }
  }

  /** A strictly increasing sequence is determined by its elements. */
  lemma {:induction false} Unique<T(!new)>(a: seq<T>, b: seq<T>, less: (T, T) -> bool)
    requires StrictOrder(less) && Increasing(a, less) && Increasing(b, less)
    requires forall x :: x in a <==> x in b
    ensures a == b
  {
    if a == [] {
      assert forall i :: 0 <= i < |b| ==> b[i] in b;
    } else {
      assert a[0] in b && b[0] in a;
      IncreasingTail(a, less);
      IncreasingTail(b, less);
      assert a[0] == b[0];
      forall x
        ensures x in a[1..] <==> x in b[1..]
      {
        assert x in a[1..] <==> x in a && x != a[0];
        assert x in b[1..] <==> x in b && x != b[0];
      }
      Unique(a[1..], b[1..], less);
    }
  }

  ghost predicate Differ<T>(s: seq<T>, i: nat, j: nat)
    requires i < |s| && j < |s|
  {
    s[i] != s[j]
  }

  ghost predicate NoDuplicates<T>(s: seq<T>) {
    forall i, j :: 0 <= i < j < |s| ==> Differ(s, i, j)
  }

  lemma NoDuplicatesInit<T>(s: seq<T>)
    requires s != [] && NoDuplicates(s)
    ensures NoDuplicates(s[..|s| - 1]) && s[|s| - 1] !in s[..|s| - 1]
  {
    var n := |s| - 1;
    var t := s[..n];
    forall i, j | 0 <= i < j < |t|
      ensures Differ(t, i, j)
    {
      assert Differ(s, i, j);
    }
    forall i | 0 <= i < |t|
      ensures t[i] != s[n]
    {
      assert Differ(s, i, n);
    }
  }

  lemma FirstOccurrence<T>(s: seq<T>, i: nat)
    requires i < |s| && NoDuplicates(s)
    ensures s[i] !in s[..i]
  {
    forall k | 0 <= k < i
      ensures s[k] != s[i]
    {
      assert Differ(s, k, i);
    }
  }

  lemma NoDuplicatesSnoc<T>(s: seq<T>, x: T)
    requires NoDuplicates(s) && x !in s
    ensures NoDuplicates(s + [x])
  {
    forall i, j | 0 <= i < j < |s + [x]|
      ensures Differ(s + [x], i, j)
    {
      assert j < |s| ==> Differ(s, i, j);
    }
  }

  /** Two duplicate-free sequences with the same elements are permutations of each other. */
  lemma {:induction false} SameElementsSameMultiset<T>(a: seq<T>, b: seq<T>)
    requires NoDuplicates(a) && NoDuplicates(b)
    requires forall x :: x in a <==> x in b
    ensures multiset(a) == multiset(b)
  {
    CountsAtMostOne(a);
    CountsAtMostOne(b);
    forall x
      ensures multiset(a)[x] == multiset(b)[x]
    {
      assert x in multiset(a) <==> x in a;
      assert x in multiset(b) <==> x in b;
    }
  }

  lemma {:induction false} CountsAtMostOne<T>(s: seq<T>)
    requires NoDuplicates(s)
    ensures forall x :: multiset(s)[x] <= 1
  {
    if s != [] {
      var n := |s| - 1;
      NoDuplicatesInit(s);
      CountsAtMostOne(s[..n]);
      assert s == s[..n] + [s[n]];
      assert s[n] !in multiset(s[..n]);
    }
  }

  /** Some listing of a finite set, as a loop over a map's keys produces it. */
  ghost function Enumerate<T(!new)>(s: set<T>): (r: seq<T>)
    ensures NoDuplicates(r)
    ensures |r| == |s|
    ensures forall x :: x in r <==> x in s
  {
    if s == {} then []
    else
      var x :| x in s;
      NoDuplicatesSnoc(Enumerate(s - {x}), x);
      Enumerate(s - {x}) + [x]
  }

  /** The elements of a set in increasing order. */
  ghost function Ascending<T(!new)>(s: set<T>, less: (T, T) -> bool): seq<T> {
    Sort(Enumerate(s), less)
  }

  ghost predicate Comparable<T(!new)>(s: set<T>, less: (T, T) -> bool) {
    forall x, y :: x in s && y in s && x != y ==> less(x, y) || less(y, x)
  }

  /** Sorting any duplicate-free listing of a set gives its ascending listing. */
  lemma SortOfListing<T(!new)>(listing: seq<T>, s: set<T>, less: (T, T) -> bool)
    requires StrictOrder(less) && Comparable(s, less)
    requires NoDuplicates(listing) && forall x :: x in listing <==> x in s
    ensures Increasing(Sort(listing, less), less)
    ensures Sort(listing, less) == Ascending(s, less)
    ensures forall x :: x in Ascending(s, less) <==> x in s
    ensures |Ascending(s, less)| == |s|
  {
    var e := Enumerate(s);
    forall i, j | 0 <= i < j < |listing|
      ensures less(listing[i], listing[j]) || less(listing[j], listing[i])
    {
      assert listing[i] in s && listing[j] in s && Differ(listing, i, j);
    }
    forall i, j | 0 <= i < j < |e|
      ensures less(e[i], e[j]) || less(e[j], e[i])
    {
      assert e[i] in s && e[j] in s && Differ(e, i, j);
    }
    SortIncreases(listing, less);
    SortIncreases(e, less);
    Unique(Sort(listing, less), Sort(e, less), less);
  }

  lemma AscendingIsIncreasing<T(!new)>(s: set<T>, less: (T, T) -> bool)
    requires StrictOrder(less) && Comparable(s, less)
    ensures Increasing(Ascending(s, less), less)
    ensures forall x :: x in Ascending(s, less) <==> x in s
    ensures |Ascending(s, less)| == |s|
  {
    SortOfListing(Enumerate(s), s, less);
  }

  /**
   The order in which a `range` over a map visits its keys: every key once, nothing
   more is promised.
   */
  method RangeOrder<K(==, !new)>(keys: set<K>) returns (order: seq<K>)
    ensures NoDuplicates(order) && |order| == |keys|
    ensures forall k :: k in order <==> k in keys
  {
    order := [];
    var pending := keys;
    while pending != {}
      invariant pending <= keys
      invariant NoDuplicates(order) && |order| + |pending| == |keys|
      invariant forall k :: k in keys <==> k in order || k in pending
      invariant forall k :: k in order ==> k !in pending
    {
      var k :| k in pending;
      pending := pending - {k};
      NoDuplicatesSnoc(order, k);
      order := order + [k];
    }
  }
}
