/** Payload bytes, their lines, and the newline repair applied when chunks are joined. */
module Text {
  import opened Ordering
  import opened MapSums

  newtype byte = x: int | 0 <= x < 256
  type Bytes = seq<byte>

  const NEWLINE: byte := 10

  predicate Terminated(b: Bytes) {
    b == [] || b[|b| - 1] == NEWLINE
  }

  /** A non-empty chunk that does not end its last line gets the missing newline. */
  function Terminate(b: Bytes): Bytes {
    if Terminated(b) then b else b + [NEWLINE]
  }

  function Concat(pieces: seq<Bytes>): Bytes {
    if pieces == [] then [] else Concat(pieces[..|pieces| - 1]) + pieces[|pieces| - 1]
  }

  /** The lines of a text, without their newlines; a last line need not be terminated. */
  function Lines(b: Bytes): (r: seq<Bytes>)
    ensures b != [] ==> r != []
  {
    if b == [] then []
    else if b[0] == NEWLINE then [[]] + Lines(b[1..])
    else if |b| == 1 then [b]
    else Longer(b[0], Lines(b[1..]))
  }

  /** The same lines with one byte more at the front of the first. */
  function Longer(x: byte, lines: seq<Bytes>): (r: seq<Bytes>)
    requires lines != []
    ensures r != []
  {
    [[x] + lines[0]] + lines[1..]
  }

  lemma LongerConcat(x: byte, l: seq<Bytes>, m: seq<Bytes>)
    requires l != []
    ensures Longer(x, l + m) == Longer(x, l) + m
  {
    assert (l + m)[1..] == l[1..] + m;
  }

  lemma {:induction false} LinesOfTerminatedPrefix(a: Bytes, b: Bytes)
    requires Terminated(a)
    ensures Lines(a + b) == Lines(a) + Lines(b)
  {
    if a == [] {
      assert a + b == b;
    } else {
      var rest := a[1..];
      assert (a + b)[1..] == rest + b;
      LinesOfTerminatedPrefix(rest, b);
      if a[0] == NEWLINE {
        hide Longer;
      } else {
        assert rest != [];
        LongerConcat(a[0], Lines(rest), Lines(b));
        hide Longer;
      }
    }
  }

  predicate Covers(chunks: map<int, Bytes>, keys: seq<int>) {
    forall i :: 0 <= i < |keys| ==> keys[i] in chunks
  }

  /** What the reader over the chunks listed in `keys` yields. */
  function Joined(chunks: map<int, Bytes>, keys: seq<int>): Bytes
    requires Covers(chunks, keys)
  {
    if keys == [] then []
    else Joined(chunks, keys[..|keys| - 1]) + Terminate(chunks[keys[|keys| - 1]])
  }

  /** Sequence ids in the order in which the chunks are read back. */
  ghost function KeysInOrder(chunks: map<int, Bytes>): (r: seq<int>)
    ensures Increasing(r, IntLess)
    ensures Covers(chunks, r)
    ensures forall k :: k in r <==> k in chunks
    ensures |r| == |chunks|
  {
    AscendingIsIncreasing(chunks.Keys, IntLess);
    Ascending(chunks.Keys, IntLess)
  }

  /** Each id is less than every later one. */
  lemma KeysAscend(chunks: map<int, Bytes>, i: nat, j: nat)
    requires i < j < |KeysInOrder(chunks)|
    ensures KeysInOrder(chunks)[i] < KeysInOrder(chunks)[j]
  {
    IncreasingIsRising(KeysInOrder(chunks));
  }

  ghost function Assemble(chunks: map<int, Bytes>): Bytes {
    Joined(chunks, KeysInOrder(chunks))
  }

  ghost function Lengths(chunks: map<int, Bytes>): map<int, int> {
    map k | k in chunks :: |chunks[k]|
  }

  function Count(chunks: map<int, Bytes>, keys: seq<int>): nat
    requires Covers(chunks, keys)
  {
    if keys == [] then 0
    else
      var last := |keys| - 1;
      Count(chunks, keys[..last]) + if Terminated(chunks[keys[last]]) then 0 else 1
  }

  /** The joined text always ends a line, and consists of the lines of its chunks, one chunk after the other. */
  lemma {:induction false} NoLineSpansTwoChunks(chunks: map<int, Bytes>, keys: seq<int>)
    requires Covers(chunks, keys)
    ensures Joined(chunks, keys) != [] ==> Joined(chunks, keys)[|Joined(chunks, keys)| - 1] == 10
    ensures Lines(Joined(chunks, keys)) == LinesOfEach(chunks, keys)
  {
    if keys != [] {
      var last := |keys| - 1;
      hide Lines;
      NoLineSpansTwoChunks(chunks, keys[..last]);
      LinesOfTerminatedPrefix(Joined(chunks, keys[..last]), Terminate(chunks[keys[last]]));
      TerminateKeepsLines(chunks[keys[last]]);
    }
  }

  function LinesOfEach(chunks: map<int, Bytes>, keys: seq<int>): seq<Bytes>
    requires Covers(chunks, keys)
  {
    if keys == [] then [] else LinesOfEach(chunks, keys[..|keys| - 1]) + Lines(chunks[keys[|keys| - 1]])
  }

  lemma {:induction false} TerminateKeepsLines(b: Bytes)
    ensures Lines(Terminate(b)) == Lines(b)
  {
    if !Terminated(b) {
      if |b| == 1 {
        assert Terminate(b)[1..] == [NEWLINE];
        assert [NEWLINE][1..] == [];
        assert Lines([NEWLINE]) == [[]];
        assert b == [b[0]] + [];
      } else {
        assert Terminate(b)[1..] == Terminate(b[1..]);
        TerminateKeepsLines(b[1..]);
      }
    }
  }

  function Total(chunks: map<int, Bytes>, keys: seq<int>): nat
    requires Covers(chunks, keys)
  {
    if keys == [] then 0 else Total(chunks, keys[..|keys| - 1]) + |chunks[keys[|keys| - 1]]|
  }

  /** The joined length is the staged length plus one byte for every unterminated chunk. */
  lemma {:induction false} JoinedLength(chunks: map<int, Bytes>, keys: seq<int>)
    requires Covers(chunks, keys)
    ensures |Joined(chunks, keys)| == Total(chunks, keys) + Count(chunks, keys)
    ensures Count(chunks, keys) <= |keys|
  {
    if keys != [] {
      JoinedLength(chunks, keys[..|keys| - 1]);
    }
  }

  lemma {:induction false} TotalOfPart(chunks: map<int, Bytes>, part: map<int, Bytes>, keys: seq<int>)
    requires Covers(chunks, keys) && Covers(part, keys)
    requires forall i :: 0 <= i < |keys| ==> chunks[keys[i]] == part[keys[i]]
    ensures Total(chunks, keys) == Total(part, keys)
  {
    if keys != [] {
      TotalOfPart(chunks, part, keys[..|keys| - 1]);
    }
  }

  lemma {:induction false} TotalIsSum(chunks: map<int, Bytes>, keys: seq<int>)
    requires Increasing(keys, IntLess) && Covers(chunks, keys)
    requires forall k :: k in chunks ==> k in keys
    ensures Total(chunks, keys) == Sum(Lengths(chunks))
  {
    if keys == [] {
      assert forall k :: k in Lengths(chunks) ==> k in keys;
      assert Lengths(chunks).Keys == {};
    } else {
      var last := |keys| - 1;
      var k, before := keys[last], keys[..last];
      var part := chunks - {k};
      IncreasingInit(keys, IntLess);
      assert forall i :: 0 <= i < last ==> before[i] in part;
      assert keys == before + [k];
      TotalOfPart(chunks, part, before);
      TotalIsSum(part, before);
      SumRemove(Lengths(chunks), k);
      assert Lengths(chunks) - {k} == Lengths(part);
    }
  }

  lemma {:induction false} CountZeroIff(chunks: map<int, Bytes>, keys: seq<int>)
    requires Covers(chunks, keys)
    ensures Count(chunks, keys) == 0 <==> forall i :: 0 <= i < |keys| ==> Terminated(chunks[keys[i]])
  {
    if keys != [] {
      var last := |keys| - 1;
      var before := keys[..last];
      CountZeroIff(chunks, before);
      assert forall i :: 0 <= i < last ==> before[i] == keys[i];
    }
  }

  /** Size of the assembled stream against the staged bytes; they agree exactly when every chunk ends a line. */
  lemma AssembledSize(chunks: map<int, Bytes>)
    ensures Sum(Lengths(chunks)) <= |Assemble(chunks)| <= Sum(Lengths(chunks)) + |chunks|
    ensures |Assemble(chunks)| == Sum(Lengths(chunks)) <==> forall k :: k in chunks ==> Terminated(chunks[k])
  {
    hide Joined, Count, Total, KeysInOrder;
    var keys := KeysInOrder(chunks);
    JoinedLength(chunks, keys);
    TotalIsSum(chunks, keys);
    CountZeroIff(chunks, keys);
    if Count(chunks, keys) == 0 {
      forall k | k in chunks
        ensures Terminated(chunks[k])
      {
        var i :| 0 <= i < |keys| && keys[i] == k;
      }
    } else {
      var i :| 0 <= i < |keys| && !Terminated(chunks[keys[i]]);
      var k := keys[i];
      assert k in chunks && !Terminated(chunks[k]);
    }
  }

  /** The chunks of an upload: piece `i` under sequence id `ids[i]`. */
  ghost function Planned(ids: seq<int>, pieces: seq<Bytes>): map<int, Bytes>
    requires |ids| == |pieces|
  {
    if ids == [] then map[]
    else
      var last := |ids| - 1;
      Planned(ids[..last], pieces[..last])[ids[last] := pieces[last]]
  }

  lemma {:induction false} PlannedAt(ids: seq<int>, pieces: seq<Bytes>)
    requires |ids| == |pieces| && Increasing(ids, IntLess)
    ensures forall k :: k in Planned(ids, pieces) <==> k in ids
    ensures forall i :: 0 <= i < |ids| ==> ids[i] in Planned(ids, pieces) && Planned(ids, pieces)[ids[i]] == pieces[i]
    ensures |Planned(ids, pieces)| == |ids|
  {
    if ids != [] {
      var last := |ids| - 1;
      IncreasingInit(ids, IntLess);
      PlannedAt(ids[..last], pieces[..last]);
      assert ids == ids[..last] + [ids[last]];
      var before := Planned(ids[..last], pieces[..last]);
      assert ids[last] !in before;
      assert forall i :: 0 <= i < last ==> ids[..last][i] == ids[i] && pieces[..last][i] == pieces[i];
    }
  }

  /** The assembled text is the chunks joined by ascending sequence id: any ascending listing of the ids gives it. */
  lemma AssembleIsAscending(chunks: map<int, Bytes>, keys: seq<int>)
    requires forall i, j :: 0 <= i < j < |keys| ==> keys[i] < keys[j]
    requires forall k :: k in keys <==> k in chunks
    ensures Covers(chunks, keys) && Assemble(chunks) == Joined(chunks, keys)
  {
    IncreasingIsRising(keys);
    assert StrictOrder(IntLess);
    forall k
      ensures k in KeysInOrder(chunks) <==> k in keys
    {
    }
    Unique(KeysInOrder(chunks), keys, IntLess);
  }

  /** Cutting a text after newlines and reading the cuts back by ascending id restores it. */
  lemma AssembleRestoresText(ids: seq<int>, pieces: seq<Bytes>)
    requires |ids| == |pieces| && forall i, j :: 0 <= i < j < |ids| ==> ids[i] < ids[j]
    requires forall i :: 0 <= i < |pieces| ==> Terminated(pieces[i])
    ensures Assemble(Planned(ids, pieces)) == Concat(pieces)
  {
    IncreasingIsRising(ids);
    hide Joined, Concat, Planned, KeysInOrder;
    var chunks := Planned(ids, pieces);
    PlannedAt(ids, pieces);
    assert forall k :: k in ids <==> k in chunks;
    AssembleIsAscending(chunks, ids);
    JoinedIsConcat(chunks, ids, pieces);
  }

  lemma {:induction false} JoinedIsConcat(chunks: map<int, Bytes>, ids: seq<int>, pieces: seq<Bytes>)
    requires |ids| == |pieces|
    requires forall i :: 0 <= i < |ids| ==> ids[i] in chunks && chunks[ids[i]] == pieces[i] && Terminated(pieces[i])
    ensures Joined(chunks, ids) == Concat(pieces)
  {
    if ids != [] {
      var last := |ids| - 1;
      JoinedIsConcat(chunks, ids[..last], pieces[..last]);
    }
  }
}
