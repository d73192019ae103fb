/**
 Deduplication within a family: samples are filed under the hash of their labels, later
 ones overwriting earlier ones. The reference is `LastPerLabels`, which compares the
 labels themselves.
 */
module Dedup {
  import opened Ordering
  import opened Metrics
  import opened Labels

  const NUL: char := '\0'

  /** The bytes fed to the hash: every name and every value followed by a NUL. */
  function Encode(labels: seq<Label>): string {
    if labels == [] then ""
    else labels[0].name + [NUL] + labels[0].value + [NUL] + Encode(labels[1..])
  }

  function KeyOf(lib: Libraries, s: Sample): int {
    lib.Hash(Encode(s.labels))
  }

  /** No later sample overwrites sample `i`. */
  ghost predicate IsLast(lib: Libraries, s: seq<Sample>, i: nat)
    requires i < |s|
  {
    forall j :: i < j < |s| ==> KeyOf(lib, s[j]) != KeyOf(lib, s[i])
  }

  ghost predicate Survives(lib: Libraries, s: seq<Sample>, x: Sample) {
    exists i :: 0 <= i < |s| && IsLast(lib, s, i) && s[i] == x
  }

  ghost predicate KeysDiffer(lib: Libraries, s: seq<Sample>, i: nat, j: nat)
    requires i < |s| && j < |s|
  {
    KeyOf(lib, s[i]) != KeyOf(lib, s[j])
  }

  ghost predicate KeysDistinct(lib: Libraries, s: seq<Sample>) {
    forall i, j :: 0 <= i < j < |s| ==> KeysDiffer(lib, s, i, j)
  }

  /**
   What the code delivers: the surviving samples, one per hash, in the order of the
   input when nothing was dropped and in no particular order otherwise.
   */
  ghost predicate IsDedup(lib: Libraries, s: seq<Sample>, out: seq<Sample>) {
    && KeysDistinct(lib, out)
    && (forall i :: 0 <= i < |s| && IsLast(lib, s, i) ==> s[i] in out)
    && (forall k :: 0 <= k < |out| ==> Survives(lib, s, out[k]))
    && (|out| == |s| ==> out == s)
  }

  lemma Survivor(lib: Libraries, s: seq<Sample>, out: seq<Sample>, k: nat) returns (i: nat)
    requires IsDedup(lib, s, out) && k < |out|
    ensures i < |s| && IsLast(lib, s, i) && s[i] == out[k]
  {
    assert Survives(lib, s, out[k]);
    i :| 0 <= i < |s| && IsLast(lib, s, i) && s[i] == out[k];
  }

  // ---- The reference ----

  ghost predicate Overwritten(s: seq<Sample>, i: nat)
    requires i < |s|
  {
    exists j :: i < j < |s| && s[j].labels == s[i].labels
  }

  /** The last sample for every label list that occurs. */
  ghost function LastPerLabels(s: seq<Sample>): seq<Sample> {
    if s == [] then []
    else if Overwritten(s, 0) then LastPerLabels(s[1..])
    else [s[0]] + LastPerLabels(s[1..])
  }

  ghost predicate LabelsDiffer(s: seq<Sample>, i: nat, j: nat)
    requires i < |s| && j < |s|
  {
    s[i].labels != s[j].labels
  }

  ghost predicate LabelsDistinct(s: seq<Sample>) {
    forall i, j :: 0 <= i < j < |s| ==> LabelsDiffer(s, i, j)
  }

  lemma {:induction false} LastPerLabelsMembers(s: seq<Sample>)
    ensures forall x :: x in LastPerLabels(s) <==> exists i :: 0 <= i < |s| && s[i] == x && !Overwritten(s, i)
    ensures LabelsDistinct(LastPerLabels(s))
  {
    if s != [] {
      var t, rest := s[1..], LastPerLabels(s[1..]);
      LastPerLabelsMembers(t);
      forall i | 1 <= i < |s|
        ensures Overwritten(s, i) <==> Overwritten(t, i - 1)
      {
        if Overwritten(s, i) {
          var j :| i < j < |s| && s[j].labels == s[i].labels;
          assert t[j - 1].labels == t[i - 1].labels;
        }
        if Overwritten(t, i - 1) {
          var j :| i - 1 < j < |t| && t[j].labels == t[i - 1].labels;
          assert s[j + 1].labels == s[i].labels;
        }
      }
      forall x
        ensures x in LastPerLabels(s) <==> exists i :: 0 <= i < |s| && s[i] == x && !Overwritten(s, i)
      {
        if x in rest {
          var i :| 0 <= i < |t| && t[i] == x && !Overwritten(t, i);
          assert s[i + 1] == x && !Overwritten(s, i + 1);
        }
        if i :| 0 <= i < |s| && s[i] == x && !Overwritten(s, i) {
          if i > 0 {
            assert t[i - 1] == x && !Overwritten(t, i - 1);
          }
        }
      }
      if !Overwritten(s, 0) {
        FirstDiffers(s, rest);
      }
    }
  }

  lemma FirstDiffers(s: seq<Sample>, rest: seq<Sample>)
    requires s != [] && !Overwritten(s, 0) && LabelsDistinct(rest)
    requires forall x :: x in rest ==> x in s[1..]
    ensures LabelsDistinct([s[0]] + rest)
  {
    var all := [s[0]] + rest;
    forall i, j | 0 <= i < j < |all|
      ensures LabelsDiffer(all, i, j)
    {
      if i == 0 {
        assert rest[j - 1] in s[1..];
        var k :| 0 <= k < |s[1..]| && s[1..][k] == rest[j - 1];
        assert s[k + 1] == all[j];
      } else {
        assert LabelsDiffer(rest, i - 1, j - 1);
      }
    }
  }

  /** Two samples of the input hash alike only if their labels are equal. */
  ghost predicate CollisionFree(lib: Libraries, s: seq<Sample>) {
    forall i, j :: 0 <= i < |s| && 0 <= j < |s| && KeyOf(lib, s[i]) == KeyOf(lib, s[j]) ==> s[i].labels == s[j].labels
  }

  /** Whatever the hash does, no two samples of the result carry the same labels. */
  lemma DedupSeparatesLabels(lib: Libraries, s: seq<Sample>, out: seq<Sample>)
    requires IsDedup(lib, s, out)
    ensures LabelsDistinct(out)
  {
    forall i, j | 0 <= i < j < |out|
      ensures LabelsDiffer(out, i, j)
    {
      assert KeysDiffer(lib, out, i, j);
    }
  }

  lemma DistinctLabelsNoDuplicates(s: seq<Sample>)
    requires LabelsDistinct(s)
    ensures NoDuplicates(s)
  {
    forall i, j | 0 <= i < j < |s|
      ensures Differ(s, i, j)
    {
      assert LabelsDiffer(s, i, j);
    }
  }

  /** Every hash that occurs has a last sample. */
  lemma {:induction false} LastExists(lib: Libraries, s: seq<Sample>, i: nat) returns (k: nat)
    requires i < |s|
    ensures i <= k < |s| && IsLast(lib, s, k) && KeyOf(lib, s[k]) == KeyOf(lib, s[i])
    decreases |s| - i
  {
    if IsLast(lib, s, i) {
      k := i;
    } else {
      var j :| i < j < |s| && KeyOf(lib, s[j]) == KeyOf(lib, s[i]);
      k := LastExists(lib, s, j);
    }
  }

  lemma {:induction false} NotOverwrittenExists(s: seq<Sample>, i: nat) returns (k: nat)
    requires i < |s|
    ensures i <= k < |s| && !Overwritten(s, k) && s[k].labels == s[i].labels
    decreases |s| - i
  {
    if !Overwritten(s, i) {
      k := i;
    } else {
      var j :| i < j < |s| && s[j].labels == s[i].labels;
      k := NotOverwrittenExists(s, j);
    }
  }

  /**
   The family is the last sample per label list, as a multiset, exactly when the hash
   keeps the family's label lists apart.
   */
  lemma LastWriteWins(lib: Libraries, s: seq<Sample>, out: seq<Sample>)
    requires IsDedup(lib, s, out)
    ensures multiset(out) == multiset(LastPerLabels(s)) <==> CollisionFree(lib, s)
  {
    LastPerLabelsMembers(s);
    DedupSeparatesLabels(lib, s, out);
    DistinctLabelsNoDuplicates(out);
    DistinctLabelsNoDuplicates(LastPerLabels(s));
    if CollisionFree(lib, s) {
      SurvivorsAgree(lib, s, out);
      SameElementsSameMultiset(out, LastPerLabels(s));
    } else {
      CollisionLoses(lib, s, out);
    }
  }

  lemma SurvivorsAgree(lib: Libraries, s: seq<Sample>, out: seq<Sample>)
    requires IsDedup(lib, s, out) && CollisionFree(lib, s)
    ensures forall x :: x in out <==> x in LastPerLabels(s)
  {
    LastPerLabelsMembers(s);
    forall i | 0 <= i < |s|
      ensures IsLast(lib, s, i) <==> !Overwritten(s, i)
    {
    }
    forall x
      ensures x in out <==> x in LastPerLabels(s)
    {
      if x in out {
        var k :| 0 <= k < |out| && out[k] == x;
        var i := Survivor(lib, s, out, k);
        assert s[i] == x && !Overwritten(s, i);
      }
      if x in LastPerLabels(s) {
        var i :| 0 <= i < |s| && s[i] == x && !Overwritten(s, i);
        assert IsLast(lib, s, i);
      }
    }
  }

  lemma CollisionLoses(lib: Libraries, s: seq<Sample>, out: seq<Sample>)
    requires IsDedup(lib, s, out) && !CollisionFree(lib, s)
    ensures multiset(out) != multiset(LastPerLabels(s))
  {
    LastPerLabelsMembers(s);
    var i, j :| 0 <= i < |s| && 0 <= j < |s| && KeyOf(lib, s[i]) == KeyOf(lib, s[j]) && s[i].labels != s[j].labels;
    var k := NotOverwrittenExists(s, i);
    var m := NotOverwrittenExists(s, j);
    OneSurvivorPerKey(lib, out, s[k], s[m]);
    assert s[k] in LastPerLabels(s) && s[m] in LastPerLabels(s);
    assert s[k] in multiset(LastPerLabels(s)) && s[m] in multiset(LastPerLabels(s));
    assert !(s[k] in multiset(out) && s[m] in multiset(out));
  }

  lemma OneSurvivorPerKey(lib: Libraries, out: seq<Sample>, x: Sample, y: Sample)
    requires KeysDistinct(lib, out) && KeyOf(lib, x) == KeyOf(lib, y) && x != y
    ensures !(x in out && y in out)
  {
    if x in out {
      var a :| 0 <= a < |out| && out[a] == x;
      forall b | 0 <= b < |out|
        ensures out[b] != y
      {
        assert a < b ==> KeysDiffer(lib, out, a, b);
        assert b < a ==> KeysDiffer(lib, out, b, a);
      }
    }
  }

  // ---- There is always a result ----

  ghost function KeepLast(lib: Libraries, s: seq<Sample>): seq<Sample> {
    if s == [] then []
    else if OverwrittenFirst(lib, s) then KeepLast(lib, s[1..])
    else [s[0]] + KeepLast(lib, s[1..])
  }

  ghost predicate OverwrittenFirst(lib: Libraries, s: seq<Sample>)
    requires s != []
  {
    exists j :: 1 <= j < |s| && KeyOf(lib, s[j]) == KeyOf(lib, s[0])
  }

  lemma LastInTail(lib: Libraries, s: seq<Sample>, i: nat)
    requires s != [] && i < |s| - 1
    ensures IsLast(lib, s[1..], i) <==> IsLast(lib, s, i + 1)
  {
    var t := s[1..];
    assert forall j :: 0 <= j < |t| ==> t[j] == s[j + 1];
    if IsLast(lib, t, i) {
      forall j | i + 1 < j < |s|
        ensures KeyOf(lib, s[j]) != KeyOf(lib, s[i + 1])
      {
        assert s[j] == t[j - 1];
      }
    }
    hide KeyOf;
  }

  /** The survivors of the tail are survivors of the whole. */
  lemma TailSurvives(lib: Libraries, s: seq<Sample>, rest: seq<Sample>, k: nat)
    requires s != [] && IsDedup(lib, s[1..], rest) && k < |rest|
    ensures Survives(lib, s, rest[k])
    ensures OverwrittenFirst(lib, s) || KeyOf(lib, rest[k]) != KeyOf(lib, s[0])
  {
    var i := Survivor(lib, s[1..], rest, k);
    LastInTail(lib, s, i);
    assert IsLast(lib, s, i + 1) && s[i + 1] == rest[k];
    hide KeyOf, IsLast, IsDedup;
  }

  lemma DedupDropsFirst(lib: Libraries, s: seq<Sample>, rest: seq<Sample>)
    requires s != [] && OverwrittenFirst(lib, s) && IsDedup(lib, s[1..], rest) && |rest| < |s|
    ensures IsDedup(lib, s, rest)
  {
    forall k | 0 <= k < |rest|
      ensures Survives(lib, s, rest[k])
    {
      TailSurvives(lib, s, rest, k);
    }
    forall i | 0 <= i < |s| && IsLast(lib, s, i)
      ensures s[i] in rest
    {
      assert i > 0;
      LastInTail(lib, s, i - 1);
      assert s[1..][i - 1] in rest;
    }
    hide KeyOf;
  }

  lemma DedupKeepsFirst(lib: Libraries, s: seq<Sample>, rest: seq<Sample>)
    requires s != [] && !OverwrittenFirst(lib, s) && IsDedup(lib, s[1..], rest)
    ensures IsDedup(lib, s, [s[0]] + rest)
  {
    var out := [s[0]] + rest;
    KeysWithFirst(lib, s, rest);
    assert IsLast(lib, s, 0);
    forall k | 0 <= k < |out|
      ensures Survives(lib, s, out[k])
    {
      if k > 0 {
        TailSurvives(lib, s, rest, k - 1);
      }
    }
    assert |out| == |s| ==> rest == s[1..] && out == s;
    hide IsLast, KeysDistinct, KeyOf, OverwrittenFirst;
    forall i | 0 <= i < |s| && IsLast(lib, s, i)
      ensures s[i] in out
    {
      if i > 0 {
        LastInTail(lib, s, i - 1);
        assert s[1..][i - 1] in rest;
      }
    }
  }

  lemma KeysWithFirst(lib: Libraries, s: seq<Sample>, rest: seq<Sample>)
    requires s != [] && !OverwrittenFirst(lib, s) && IsDedup(lib, s[1..], rest)
    ensures KeysDistinct(lib, [s[0]] + rest)
  {
    var out := [s[0]] + rest;
    forall i, j | 0 <= i < j < |out|
      ensures KeysDiffer(lib, out, i, j)
    {
      if i > 0 {
        assert KeysDiffer(lib, rest, i - 1, j - 1);
      } else {
        TailSurvives(lib, s, rest, j - 1);
      }
      hide OverwrittenFirst, IsLast, KeyOf;
    }
  }

  lemma {:induction false} KeepLastIsDedup(lib: Libraries, s: seq<Sample>)
    ensures IsDedup(lib, s, KeepLast(lib, s)) && |KeepLast(lib, s)| <= |s|
  {
    if s != [] {
      KeepLastIsDedup(lib, s[1..]);
      if OverwrittenFirst(lib, s) {
        DedupDropsFirst(lib, s, KeepLast(lib, s[1..]));
      } else {
        DedupKeepsFirst(lib, s, KeepLast(lib, s[1..]));
      }
      hide IsDedup, KeyOf;
    }
  }

  // ---- When labels are kept apart ----

  ghost predicate NulFree(labels: seq<Label>) {
    forall i :: 0 <= i < |labels| ==> NUL !in labels[i].name && NUL !in labels[i].value
  }

  lemma SplitAtNul(a: string, x: string, b: string, y: string)
    requires NUL !in a && NUL !in b
    requires a + [NUL] + x == b + [NUL] + y
    ensures a == b && x == y
  {
    var s, t := a + [NUL] + x, b + [NUL] + y;
    assert s[|a|] == NUL && t[|b|] == NUL;
    assert forall i :: 0 <= i < |b| ==> t[i] == b[i] != NUL;
    assert forall i :: 0 <= i < |a| ==> s[i] == a[i] != NUL;
    assert |a| == |b|;
    assert a == s[..|a|] == t[..|b|] == b;
    assert x == s[|a| + 1..] == t[|b| + 1..] == y;
  }

  /** The NUL-separated encoding determines the labels, provided they contain no NUL. */
  lemma {:induction false} EncodeIsInjective(a: seq<Label>, b: seq<Label>)
    requires NulFree(a) && NulFree(b) && Encode(a) == Encode(b)
    ensures a == b
  {
    if a != [] && b != [] {
      var restA, restB := Encode(a[1..]), Encode(b[1..]);
      assert Encode(a) == a[0].name + [NUL] + (a[0].value + [NUL] + restA);
      assert Encode(b) == b[0].name + [NUL] + (b[0].value + [NUL] + restB);
      SplitAtNul(a[0].name, a[0].value + [NUL] + restA, b[0].name, b[0].value + [NUL] + restB);
      SplitAtNul(a[0].value, restA, b[0].value, restB);
      assert NulFree(a[1..]) && NulFree(b[1..]);
      EncodeIsInjective(a[1..], b[1..]);
    }
  }

  /** NUL-free labels and a hash without collisions on their encodings suffice. */
  lemma NulFreeIsCollisionFree(lib: Libraries, s: seq<Sample>)
    requires forall i :: 0 <= i < |s| ==> NulFree(s[i].labels)
    requires forall i, j :: 0 <= i < |s| && 0 <= j < |s| && lib.Hash(Encode(s[i].labels)) == lib.Hash(Encode(s[j].labels)) ==>
               Encode(s[i].labels) == Encode(s[j].labels)
    ensures CollisionFree(lib, s)
  {
    forall i, j | 0 <= i < |s| && 0 <= j < |s| && KeyOf(lib, s[i]) == KeyOf(lib, s[j])
      ensures s[i].labels == s[j].labels
    {
      EncodeIsInjective(s[i].labels, s[j].labels);
    }
  }

  /**
   A label value may contain a NUL; then two different series can be encoded alike, and
   the earlier one is lost under every hash function.
   */
  lemma NulLosesASeries(lib: Libraries, out: seq<Sample>) returns (s: seq<Sample>)
    ensures |s| == 2 && LabelsDistinct(s) && LastPerLabels(s) == s
    ensures forall i :: 0 <= i < 2 ==> Normal(s[i].labels, "srv")
    ensures IsDedup(lib, s, out) ==> out == [s[1]]
  {
    var own := Label(INSTANCE_ID, "srv");
    var a := [Label("a", "x" + [NUL] + "b" + [NUL] + "y"), own];
    var b := [Label("a", "x"), Label("b", "y"), own];
    s := [Sample(a, Gauge(1.0)), Sample(b, Gauge(2.0))];
    EncodingsCoincide(own);
    assert LabelsDiffer(s, 0, 1) by {
      assert |a| != |b|;
    }
    assert s[1..] == [s[1]] && s[1..][1..] == [];
    assert !Overwritten(s, 0) && !Overwritten(s[1..], 0);
    assert LastPerLabels(s[1..]) == [s[1]];
    Literals();
    assert Increasing(a, LabelLess) by {
      assert Precedes(a, 0, 1, LabelLess);
    }
    assert Increasing(b, LabelLess) by {
      assert Precedes(b, 0, 1, LabelLess) && Precedes(b, 1, 2, LabelLess) && Precedes(b, 0, 2, LabelLess);
    }
    assert a[1] == own && b[2] == own;
    if IsDedup(lib, s, out) {
      OnlyLastSurvives(lib, s, out);
    }
  }

  lemma Literals()
    ensures StringLess("a", "b") && StringLess("a", INSTANCE_ID) && StringLess("b", INSTANCE_ID)
  {
  }

  lemma EncodingsCoincide(own: Label)
    ensures Encode([Label("a", "x" + [NUL] + "b" + [NUL] + "y"), own]) == Encode([Label("a", "x"), Label("b", "y"), own])
  {
    var a := [Label("a", "x" + [NUL] + "b" + [NUL] + "y"), own];
    var b := [Label("a", "x"), Label("b", "y"), own];
    assert a[1..] == [own] && b[1..] == [Label("b", "y"), own] && b[1..][1..] == [own];
    assert Encode(b) == "a" + [NUL] + "x" + [NUL] + ("b" + [NUL] + "y" + [NUL] + Encode([own]));
  }

  lemma OnlyLastSurvives(lib: Libraries, s: seq<Sample>, out: seq<Sample>)
    requires |s| == 2 && KeyOf(lib, s[0]) == KeyOf(lib, s[1]) && IsDedup(lib, s, out)
    ensures out == [s[1]]
  {
    assert !IsLast(lib, s, 0) && IsLast(lib, s, 1);
    assert s[1] in out;
    var k := |out| - 1;
    assert out[k] == s[1] && out[0] == s[1];
    assert k > 0 ==> KeysDiffer(lib, out, 0, k);
  }

  lemma {:induction false} DistinctLabelsAllKept(s: seq<Sample>)
    requires LabelsDistinct(s)
    ensures LastPerLabels(s) == s
  {
    if s != [] {
      var t := s[1..];
      forall i, j | 0 <= i < j < |t|
        ensures LabelsDiffer(t, i, j)
      {
        assert LabelsDiffer(s, i + 1, j + 1);
      }
      DistinctLabelsAllKept(t);
      forall j | 0 < j < |s|
        ensures s[j].labels != s[0].labels
      {
        assert LabelsDiffer(s, 0, j);
      }
    }
  }

  /** Samples that the hash already keeps apart pass through unchanged. */
  lemma NothingToDrop(lib: Libraries, s: seq<Sample>, out: seq<Sample>)
    requires KeysDistinct(lib, s) && LabelsDistinct(s)
    ensures IsDedup(lib, s, out) <==> out == s
  {
    forall i, j | 0 <= i < |s| && 0 <= j < |s| && KeyOf(lib, s[i]) == KeyOf(lib, s[j])
      ensures s[i].labels == s[j].labels
    {
      assert i < j ==> KeysDiffer(lib, s, i, j);
      assert j < i ==> KeysDiffer(lib, s, j, i);
    }
    forall i | 0 <= i < |s|
      ensures IsLast(lib, s, i)
    {
      forall j | i < j < |s|
        ensures KeyOf(lib, s[j]) != KeyOf(lib, s[i])
      {
        assert KeysDiffer(lib, s, i, j);
      }
    }
    forall k | 0 <= k < |s|
      ensures Survives(lib, s, s[k])
    {
      assert IsLast(lib, s, k) && s[k] == s[k];
    }
    if IsDedup(lib, s, out) {
      LastWriteWins(lib, s, out);
      DistinctLabelsAllKept(s);
      assert |multiset(out)| == |multiset(s)|;
    }
  }

  // ---- The map from hashes to samples ----

  /** `at` files the position of the last sample under every hash of `s`. */
  ghost predicate FilesLast(lib: Libraries, s: seq<Sample>, at: map<int, nat>) {
    && (forall h :: h in at ==> at[h] < |s| && KeyOf(lib, s[at[h]]) == h && IsLast(lib, s, at[h]))
    && (forall i :: 0 <= i < |s| ==> KeyOf(lib, s[i]) in at)
  }

  lemma FilesOneMore(lib: Libraries, s: seq<Sample>, i: nat, at: map<int, nat>)
    requires i < |s| && FilesLast(lib, s[..i], at)
    ensures FilesLast(lib, s[..i + 1], at[KeyOf(lib, s[i]) := i])
  {
    var before, after, key := s[..i], s[..i + 1], KeyOf(lib, s[i]);
    var at' := at[key := i];
    forall h | h in at'
      ensures at'[h] < |after| && KeyOf(lib, after[at'[h]]) == h && IsLast(lib, after, at'[h])
    {
      if h != key {
        assert before[at[h]] == after[at[h]];
        assert forall j :: 0 <= j < i ==> before[j] == after[j];
      }
    }
    forall j | 0 <= j < |after|
      ensures KeyOf(lib, after[j]) in at'
    {
      assert j < i ==> before[j] == after[j];
    }
  }

  ghost function KeySet(lib: Libraries, s: seq<Sample>): set<int> {
    set i | 0 <= i < |s| :: KeyOf(lib, s[i])
  }

  /** As many hashes as samples means that no hash occurs twice. */
  lemma {:induction false} KeyCount(lib: Libraries, s: seq<Sample>)
    ensures |KeySet(lib, s)| <= |s|
    ensures |KeySet(lib, s)| == |s| ==> KeysDistinct(lib, s)
  {
    if s != [] {
      var n := |s| - 1;
      var init, key := s[..n], KeyOf(lib, s[n]);
      KeyCount(lib, init);
      assert forall i :: 0 <= i < n ==> init[i] == s[i];
      assert KeySet(lib, s) == KeySet(lib, init) + {key};
      if |KeySet(lib, s)| == |s| {
        assert key !in KeySet(lib, init);
        forall i, j | 0 <= i < j < |s|
          ensures KeysDiffer(lib, s, i, j)
        {
          if j < n {
            assert KeysDiffer(lib, init, i, j);
          } else {
            assert KeyOf(lib, init[i]) in KeySet(lib, init);
          }
        }
      }
    }
  }

  lemma FileKeys(lib: Libraries, s: seq<Sample>, at: map<int, nat>)
    requires FilesLast(lib, s, at)
    ensures at.Keys == KeySet(lib, s)
  {
    forall h
      ensures h in at <==> h in KeySet(lib, s)
    {
      if h in at {
        assert KeyOf(lib, s[at[h]]) in KeySet(lib, s);
      }
    }
  }

  lemma FullFileIsDistinct(lib: Libraries, s: seq<Sample>, at: map<int, nat>)
    requires FilesLast(lib, s, at) && |at| == |s|
    ensures IsDedup(lib, s, s)
  {
    FileKeys(lib, s, at);
    KeyCount(lib, s);
    forall k | 0 <= k < |s|
      ensures IsLast(lib, s, k)
    {
      forall j | k < j < |s|
        ensures KeyOf(lib, s[j]) != KeyOf(lib, s[k])
      {
        assert KeysDiffer(lib, s, k, j);
      }
    }
    assert forall k :: 0 <= k < |s| ==> IsLast(lib, s, k) && s[k] == s[k];
    assert forall k :: 0 <= k < |s| ==> Survives(lib, s, s[k]);
  }

  lemma CollectedIsDedup(lib: Libraries, s: seq<Sample>, at: map<int, nat>, order: seq<int>, out: seq<Sample>)
    requires FilesLast(lib, s, at) && |at| != |s|
    requires NoDuplicates(order) && |order| == |at| == |out|
    requires forall h :: h in order <==> h in at
    requires forall k :: 0 <= k < |order| ==> order[k] in at && at[order[k]] < |s| && out[k] == s[at[order[k]]]
    ensures IsDedup(lib, s, out)
  {
    forall k | 0 <= k < |out|
      ensures KeyOf(lib, out[k]) == order[k]
      ensures Survives(lib, s, out[k])
    {
      var h := order[k];
      assert h in at;
      assert IsLast(lib, s, at[h]) && s[at[h]] == out[k];
    }
    forall i, j | 0 <= i < j < |out|
      ensures KeysDiffer(lib, out, i, j)
    {
      assert Differ(order, i, j);
    }
    forall i | 0 <= i < |s| && IsLast(lib, s, i)
      ensures s[i] in out
    {
      var h := KeyOf(lib, s[i]);
      assert h in at && at[h] == i;
      var k :| 0 <= k < |order| && order[k] == h;
      assert out[k] == s[i];
    }
  }
}
