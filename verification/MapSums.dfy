/** Totals over finite maps, independent of any order of iteration. */
module MapSums {

  ghost function Sum<K>(m: map<K, int>): int
    decreases m.Keys
  {
    if m == map[] then 0
    else
      var k :| k in m;
      m[k] + Sum(m - {k})
  }

  lemma {:induction false} SumRemove<K>(m: map<K, int>, k: K)
    requires k in m
    ensures Sum(m) == m[k] + Sum(m - {k})
    decreases m.Keys
  {
    var j :| j in m && Sum(m) == m[j] + Sum(m - {j});
    if j != k {
      SumRemove(m - {j}, k);
      SumRemove(m - {k}, j);
      assert m - {j} - {k} == m - {k} - {j};
    }
  }

  lemma SumUpdate<K>(m: map<K, int>, k: K, v: int)
    ensures Sum(m[k := v]) == Sum(m) - (if k in m then m[k] else 0) + v
  {
    SumRemove(m[k := v], k);
    assert m[k := v] - {k} == m - {k};
    if k in m {
      SumRemove(m, k);
    } else {
      assert m - {k} == m;
    }
  }

  lemma {:induction false} SumBounds<K>(m: map<K, int>)
    requires forall k :: k in m ==> 0 <= m[k]
    ensures 0 <= Sum(m)
    ensures forall k :: k in m ==> m[k] <= Sum(m)
    decreases m.Keys
  {
    if m != map[] {
      forall k | k in m
        ensures 0 <= m[k] <= Sum(m)
      {
        SumRemove(m, k);
        SumBounds(m - {k});
      }
      var k :| k in m;
      assert m[k] <= Sum(m);
    }
  }

  ghost function Restrict<K, V>(m: map<K, V>, ks: set<K>): map<K, V> {
    map k | k in m && k in ks :: m[k]
  }

  /** Splitting off any set of keys. */
  lemma {:induction false} SumSplit<K>(m: map<K, int>, ks: set<K>)
    ensures Sum(m) == Sum(Restrict(m, ks)) + Sum(m - ks)
    decreases m.Keys
  {
    if m == map[] {
      assert Restrict(m, ks).Keys == {} && (m - ks).Keys == {};
    } else {
      var k :| k in m;
      var rest := m - {k};
      SumRemove(m, k);
      SumSplit(rest, ks);
      var inside, restInside := Restrict(m, ks), Restrict(rest, ks);
      if k in ks {
        SumRemove(inside, k);
        assert inside - {k} == restInside;
        assert m - ks == rest - ks;
      } else {
        SumRemove(m - ks, k);
        assert m - ks - {k} == rest - ks;
        assert inside == restInside;
      }
    }
  }

  /** Two maps that agree except at one key. */
  lemma EntrySet<V>(before: map<string, V>, after: map<string, V>, k: string)
    requires after.Keys == before.Keys + {k}
    requires forall j :: j in before && j != k ==> after[j] == before[j]
    ensures after == before[k := after[k]]
  {
  }

  ghost function Visited<K>(order: seq<K>, i: nat): set<K>
    requires i <= |order|
  {
    set k | k in order[..i]
  }

  /** The entries that a loop over the keys in the given order has visited before its turn `i`. */
  ghost function Part<K, V>(m: map<K, V>, order: seq<K>, i: nat): map<K, V>
    requires i <= |order|
  {
    Restrict(m, Visited(order, i))
  }

  lemma PartTurn<K, V>(m: map<K, V>, order: seq<K>, i: nat)
    requires i < |order| && order[i] in m
    ensures Part(m, order, i + 1) == Part(m, order, i)[order[i] := m[order[i]]]
    ensures order[i] !in order[..i] ==> order[i] !in Part(m, order, i)
  {
    assert order[..i + 1] == order[..i] + [order[i]];
  }

  lemma PartEnds<K, V>(m: map<K, V>, order: seq<K>)
    requires forall k :: k in order <==> k in m
    ensures Part(m, order, 0) == map[]
    ensures Part(m, order, |order|) == m
  {
    assert Part(m, order, 0).Keys == {};
    assert order[..|order|] == order;
  }

  // ---- The same for multisets ----

  ghost function Gather<K, T>(m: map<K, multiset<T>>): multiset<T>
    decreases m.Keys
  {
    if m == map[] then multiset{}
    else
      var k :| k in m;
      m[k] + Gather(m - {k})
  }

  lemma {:induction false} GatherRemove<K, T>(m: map<K, multiset<T>>, k: K)
    requires k in m
    ensures Gather(m) == m[k] + Gather(m - {k})
    decreases m.Keys
  {
    var j :| j in m && Gather(m) == m[j] + Gather(m - {j});
    if j != k {
      GatherRemove(m - {j}, k);
      GatherRemove(m - {k}, j);
      assert m - {j} - {k} == m - {k} - {j};
    }
  }

  lemma GatherAdd<K, T>(m: map<K, multiset<T>>, k: K, v: multiset<T>)
    requires k !in m
    ensures Gather(m[k := v]) == Gather(m) + v
  {
    GatherRemove(m[k := v], k);
    assert m[k := v] - {k} == m;
  }

  lemma {:induction false} GatherMember<K, T>(m: map<K, multiset<T>>, x: T) returns (k: K)
    requires x in Gather(m)
    ensures k in m && x in m[k]
    decreases m.Keys
  {
    var j :| j in m && Gather(m) == m[j] + Gather(m - {j});
    if x in m[j] {
      k := j;
    } else {
      k := GatherMember(m - {j}, x);
    }
  }

  /** An element that only one entry holds is gathered as often as that entry holds it. */
  lemma GatherUnique<K, T>(m: map<K, multiset<T>>, k: K, x: T)
    requires k in m && forall j :: j in m && j != k ==> x !in m[j]
    ensures Gather(m)[x] == m[k][x]
  {
    GatherRemove(m, k);
    GatherAbsent(m - {k}, x);
  }

  lemma {:induction false} GatherAbsent<K, T>(m: map<K, multiset<T>>, x: T)
    requires forall j :: j in m ==> x !in m[j]
    ensures x !in Gather(m)
    decreases m.Keys
  {
    if m != map[] {
      var j :| j in m && Gather(m) == m[j] + Gather(m - {j});
      GatherAbsent(m - {j}, x);
    }
  }

  /** Gathering entry-wise sums is gathering both maps. */
  lemma {:induction false} GatherPlus<K, T>(a: map<K, multiset<T>>, b: map<K, multiset<T>>, m: map<K, multiset<T>>)
    requires a.Keys == b.Keys == m.Keys
    requires forall k :: k in m ==> m[k] == a[k] + b[k]
    ensures Gather(m) == Gather(a) + Gather(b)
    decreases m.Keys
  {
    if m == map[] {
      assert a == map[] && b == map[];
    } else {
      var k :| k in m;
      GatherRemove(m, k);
      GatherRemove(a, k);
      GatherRemove(b, k);
      GatherPlus(a - {k}, b - {k}, m - {k});
    }
  }

  /** What a loop over the keys in the given order has gathered before its turn `i`. */
  ghost function GatherFirst<K, T>(m: map<K, multiset<T>>, order: seq<K>, i: nat): multiset<T>
    requires i <= |order|
  {
    Gather(Part(m, order, i))
  }

  lemma GatherTurn<K, T>(m: map<K, multiset<T>>, order: seq<K>, i: nat)
    requires i < |order| && order[i] in m && order[i] !in order[..i]
    ensures GatherFirst(m, order, i + 1) == GatherFirst(m, order, i) + m[order[i]]
  {
    PartTurn(m, order, i);
    GatherAdd(Part(m, order, i), order[i], m[order[i]]);
  }

  lemma GatherEnds<K, T>(m: map<K, multiset<T>>, order: seq<K>)
    requires forall k :: k in order <==> k in m
    ensures GatherFirst(m, order, 0) == multiset{}
    ensures GatherFirst(m, order, |order|) == Gather(m)
  {
    PartEnds(m, order);
  }
}
