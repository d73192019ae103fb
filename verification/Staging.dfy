/**
 The staging buffer as a value: open transactions by hash, and the running byte total
 against which the quota is checked. `Append` and `Retrieve` follow
 `AppendToStaging` and `RetrieveStaging` branch by branch; class `Storage` is proved to compute them.
 */
module Staging {
  import opened MapSums
  import opened Text

  datatype Txn = Txn(expiresAt: int, chunks: map<int, Bytes>, instanceId: string, byteSize: int)

  datatype Buffer = Buffer(items: map<string, Txn>, size: int)

  const EMPTY := Buffer(map[], 0)

  datatype Appended = Appended(buffer: Buffer, accepted: bool)

  datatype Retrieved = Missing | Stream(text: Bytes, chunkCount: int, totalSize: int)

  ghost function Sizes(items: map<string, Txn>): map<string, int> {
    map h | h in items :: items[h].byteSize
  }

  ghost function ChunkBytes(items: map<string, Txn>): map<string, int> {
    map h | h in items :: Sum(Lengths(items[h].chunks))
  }

  /** `now.After(ExpiresAt)` is strict: a transaction is still live at its deadline. */
  predicate IsExpired(t: Txn, now: int) {
    now > t.expiresAt
  }

  ghost function ExpiredAt(b: Buffer, now: int): set<string> {
    set h | h in b.items && IsExpired(b.items[h], now)
  }

  ghost function OwnedBy(b: Buffer, instanceId: string): set<string> {
    set h | h in b.items && b.items[h].instanceId == instanceId
  }

  /** Deletes the given transactions and gives their bytes back to the quota. */
  ghost function Remove(b: Buffer, hashes: set<string>): Buffer {
    Buffer(b.items - hashes, b.size - Sum(Sizes(Restrict(b.items, hashes))))
  }

  function OldLength(t: Txn, seqId: int): nat {
    if seqId in t.chunks then |t.chunks[seqId]| else 0
  }

  function Delta(t: Txn, seqId: int, data: Bytes): int {
    |data| - OldLength(t, seqId)
  }

  /** The delta computation, the final capacity check and the write of one chunk. */
  ghost function Write(b: Buffer, max: int, hash: string, seqId: int, data: Bytes): Appended
    requires hash in b.items
  {
    var t := b.items[hash];
    var delta := Delta(t, seqId, data);
    if b.size + delta > max then Appended(b, false)
    else
      var t' := t.(chunks := t.chunks[seqId := data], byteSize := t.byteSize + delta);
      Appended(Buffer(b.items[hash := t'], b.size + delta), true)
  }

  ghost function AfterReset(b: Buffer, hash: string, now: int): Buffer {
    Remove(b, ExpiredAt(b, now) * {hash})
  }

  /** A new transaction replaces every other one of its instance. */
  ghost function OpenTxn(b: Buffer, hash: string, instanceId: string, deadline: int): Buffer {
    var kept := Remove(b, OwnedBy(b, instanceId));
    Buffer(kept.items[hash := Txn(deadline, map[], instanceId, 0)], kept.size)
  }

  /** The quota test of a new transaction comes first, then the replacement, then the write. */
  ghost function AppendNew(b: Buffer, max: int, hash: string, instanceId: string, seqId: int, data: Bytes, deadline: int): Appended {
    if b.size + |data| > max then Appended(b, false)
    else Write(OpenTxn(b, hash, instanceId, deadline), max, hash, seqId, data)
  }

  ghost function Append(b: Buffer, max: int, hash: string, instanceId: string, seqId: int, data: Bytes,
                        now: int, ttl: int): Appended
  {
    var reset := AfterReset(b, hash, now);
    if hash in reset.items then Write(reset, max, hash, seqId, data)
    else AppendNew(reset, max, hash, instanceId, seqId, data, now + ttl)
  }

  ghost function Retrieve(b: Buffer, hash: string, now: int): (r: (Buffer, Retrieved)) {
    if hash !in b.items then (b, Missing)
    else
      var t := b.items[hash];
      var rest := Remove(b, {hash});
      if IsExpired(t, now) || t.chunks == map[] then (rest, Missing)
      else (rest, Stream(Assemble(t.chunks), |t.chunks|, |Assemble(t.chunks)|))
  }

  ghost predicate Coherent(t: Txn) {
    && t.chunks != map[]
    && t.byteSize == Sum(Lengths(t.chunks))
  }

  ghost predicate AllCoherent(items: map<string, Txn>) {
    forall h :: h in items ==> Coherent(items[h])
  }

  ghost predicate Unrelated(items: map<string, Txn>, g: string, h: string)
    requires g in items && h in items
  {
    items[g].instanceId != items[h].instanceId
  }

  ghost predicate OnePerInstance(items: map<string, Txn>) {
    forall g, h :: g in items && h in items && g != h ==> Unrelated(items, g, h)
  }

  /** One open transaction per instance, none without chunks, and an exact byte total within the quota. */
  ghost predicate Inv(b: Buffer, max: int) {
    && AllCoherent(b.items)
    && OnePerInstance(b.items)
    && b.size == Sum(Sizes(b.items))
    && (b.items == map[] || b.size <= max)
  }

  lemma CoherentSize(t: Txn)
    requires Coherent(t)
    ensures 0 <= t.byteSize
    ensures forall k :: k in t.chunks ==> |t.chunks[k]| <= t.byteSize
  {
    SumBounds(Lengths(t.chunks));
    forall k | k in t.chunks
      ensures |t.chunks[k]| <= t.byteSize
    {
      assert Lengths(t.chunks)[k] == |t.chunks[k]|;
    }
  }

  lemma SizesBounds(items: map<string, Txn>)
    requires AllCoherent(items)
    ensures 0 <= Sum(Sizes(items))
    ensures forall h :: h in items ==> 0 <= items[h].byteSize <= Sum(Sizes(items))
  {
    forall h | h in items
      ensures 0 <= Sizes(items)[h]
    {
      CoherentSize(items[h]);
    }
    SumBounds(Sizes(items));
    assert forall h :: h in items ==> Sizes(items)[h] == items[h].byteSize;
  }

  /** The byte total is exactly the bytes of all staged chunks, and lies within 0..max. */
  lemma Accounting(b: Buffer, max: int)
    requires Inv(b, max)
    ensures b.size == Sum(ChunkBytes(b.items))
    ensures 0 <= b.size
    ensures 0 <= max ==> b.size <= max
    ensures forall h :: h in b.items ==> 0 <= b.items[h].byteSize <= b.size
  {
    assert Sizes(b.items) == ChunkBytes(b.items);
    SizesBounds(b.items);
  }

  lemma RemovedSize(b: Buffer, hashes: set<string>)
    ensures Sum(Sizes(b.items)) == Sum(Sizes(Restrict(b.items, hashes))) + Sum(Sizes(b.items - hashes))
  {
    SumSplit(Sizes(b.items), hashes);
    assert Restrict(Sizes(b.items), hashes) == Sizes(Restrict(b.items, hashes));
    assert Sizes(b.items) - hashes == Sizes(b.items - hashes);
  }

  lemma PartKeepsShape(items: map<string, Txn>, part: map<string, Txn>)
    requires AllCoherent(items) && OnePerInstance(items)
    requires forall h :: h in part ==> h in items && items[h] == part[h]
    ensures AllCoherent(part) && OnePerInstance(part)
  {
    forall g, h | g in part && h in part && g != h
      ensures Unrelated(part, g, h)
    {
      assert Unrelated(items, g, h);
    }
  }

  lemma RemoveKeepsInv(b: Buffer, max: int, hashes: set<string>)
    requires Inv(b, max)
    ensures Inv(Remove(b, hashes), max)
    ensures 0 <= Remove(b, hashes).size <= b.size
  {
    RemovedSize(b, hashes);
    PartKeepsShape(b.items, Restrict(b.items, hashes));
    PartKeepsShape(b.items, b.items - hashes);
    SizesBounds(Restrict(b.items, hashes));
    SizesBounds(b.items - hashes);
    assert b.items == map[] ==> (b.items - hashes).Keys == {};
  }

  /** The state in which `Write` runs: only the written transaction may still be empty. */
  ghost predicate Ready(b: Buffer, hash: string) {
    && hash in b.items
    && b.items[hash].byteSize == Sum(Lengths(b.items[hash].chunks))
    && AllCoherent(b.items - {hash})
    && OnePerInstance(b.items)
    && b.size == Sum(Sizes(b.items))
  }

  lemma WrittenTxn(t: Txn, seqId: int, data: Bytes)
    requires t.byteSize == Sum(Lengths(t.chunks))
    ensures Coherent(t.(chunks := t.chunks[seqId := data], byteSize := t.byteSize + Delta(t, seqId, data)))
  {
    SumUpdate(Lengths(t.chunks), seqId, |data|);
    assert Lengths(t.chunks[seqId := data]) == Lengths(t.chunks)[seqId := |data|];
    assert seqId in t.chunks[seqId := data];
  }

  lemma ResizeOne(items: map<string, Txn>, hash: string, t: Txn)
    ensures Sum(Sizes(items[hash := t])) == Sum(Sizes(items)) - (if hash in items then items[hash].byteSize else 0) + t.byteSize
  {
    SumUpdate(Sizes(items), hash, t.byteSize);
    assert Sizes(items[hash := t]) == Sizes(items)[hash := t.byteSize];
  }

  lemma InvIsReady(b: Buffer, max: int, hash: string)
    requires Inv(b, max) && hash in b.items
    ensures Ready(b, hash)
  {
    PartKeepsShape(b.items, b.items - {hash});
  }

  lemma WriteKeepsInv(b: Buffer, max: int, hash: string, seqId: int, data: Bytes)
    requires Ready(b, hash)
    requires Write(b, max, hash, seqId, data).accepted
    ensures Inv(Write(b, max, hash, seqId, data).buffer, max)
  {
    var t := b.items[hash];
    var w := Write(b, max, hash, seqId, data).buffer;
    WrittenTxn(t, seqId, data);
    ResizeOne(b.items, hash, w.items[hash]);
    assert w.items - {hash} == b.items - {hash};
    forall g, h | g in w.items && h in w.items && g != h
      ensures Unrelated(w.items, g, h)
    {
      assert Unrelated(b.items, g, h);
    }
    assert AllCoherent(w.items) by {
      forall h | h in w.items && h != hash
        ensures Coherent(w.items[h])
      {
        assert h in b.items - {hash};
      }
    }
  }

  lemma OpenOne(kept: Buffer, max: int, hash: string, t: Txn)
    requires Inv(kept, max) && hash !in kept.items
    requires t.chunks == map[] && t.byteSize == 0
    requires forall h :: h in kept.items ==> kept.items[h].instanceId != t.instanceId
    ensures Ready(Buffer(kept.items[hash := t], kept.size), hash)
  {
    assert Lengths(t.chunks) == map[];
    ResizeOne(kept.items, hash, t);
    var items := kept.items[hash := t];
    assert items - {hash} == kept.items;
    forall g, h | g in items && h in items && g != h
      ensures Unrelated(items, g, h)
    {
      assert g != hash && h != hash ==> Unrelated(kept.items, g, h);
    }
  }

  lemma OpenedIsReady(b: Buffer, max: int, hash: string, instanceId: string, deadline: int)
    requires Inv(b, max) && hash !in b.items
    ensures Ready(OpenTxn(b, hash, instanceId, deadline), hash)
    ensures OpenTxn(b, hash, instanceId, deadline).size <= b.size
  {
    RemoveKeepsInv(b, max, OwnedBy(b, instanceId));
    OpenOne(Remove(b, OwnedBy(b, instanceId)), max, hash, Txn(deadline, map[], instanceId, 0));
  }

  /** A transaction to which a chunk can be added at this time. */
  predicate IsOpen(b: Buffer, hash: string, now: int) {
    hash in b.items && !IsExpired(b.items[hash], now)
  }

  lemma ResetOnlyExpired(b: Buffer, hash: string, now: int)
    ensures IsOpen(b, hash, now) <==> hash in AfterReset(b, hash, now).items
    ensures IsOpen(b, hash, now) || hash !in b.items ==> AfterReset(b, hash, now) == b
    ensures hash in b.items && !IsOpen(b, hash, now) ==> AfterReset(b, hash, now) == Remove(b, {hash})
    ensures AfterReset(b, hash, now).items == if IsOpen(b, hash, now) then b.items else b.items - {hash}
  {
    var gone := ExpiredAt(b, now) * {hash};
    if hash in b.items && !IsOpen(b, hash, now) {
      assert gone == {hash};
    } else {
      assert gone == {};
      RemoveNone(b);
    }
  }

  lemma RemoveNone(b: Buffer)
    ensures Remove(b, {}) == b
  {
    assert Sizes(Restrict(b.items, {})) == map[];
    assert b.items - {} == b.items;
  }

  lemma OpenAppendIsWrite(b: Buffer, max: int, hash: string, instanceId: string, seqId: int, data: Bytes, now: int, ttl: int)
    requires IsOpen(b, hash, now)
    ensures Append(b, max, hash, instanceId, seqId, data, now, ttl) == Write(b, max, hash, seqId, data)
  {
    ResetOnlyExpired(b, hash, now);
    hide Write, AfterReset, Remove;
  }

  /**
   A chunk for an open transaction: accepted exactly when the difference to the chunk
   it replaces fits; owner and deadline stay, every other transaction stays.
   */
  lemma AppendToOpen(b: Buffer, max: int, hash: string, instanceId: string, seqId: int, data: Bytes, now: int, ttl: int)
    requires Inv(b, max) && IsOpen(b, hash, now)
    ensures var r := Append(b, max, hash, instanceId, seqId, data, now, ttl);
      var t := b.items[hash];
      && Inv(r.buffer, max)
      && (r.accepted <==> b.size + Delta(t, seqId, data) <= max)
      && (!r.accepted ==> r.buffer == b)
      && (r.accepted ==>
            && r.buffer.size == b.size + Delta(t, seqId, data)
            && r.buffer.items == b.items[hash := Txn(t.expiresAt, t.chunks[seqId := data], t.instanceId,
                                                     t.byteSize + Delta(t, seqId, data))])
  {
    hide Sum, Lengths, Append;
    OpenAppendIsWrite(b, max, hash, instanceId, seqId, data, now, ttl);
    InvIsReady(b, max, hash);
    hide Inv, Ready, AllCoherent, OnePerInstance, Sizes;
    if b.size + Delta(b.items[hash], seqId, data) <= max {
      WriteKeepsInv(b, max, hash, seqId, data);
    }
  }

  /**
   A chunk under a hash with no open transaction: accepted exactly when it fits beside
   everything staged, less the expired transaction under this very hash. The new
   transaction then replaces that one and every other one of the same instance.
   */
  lemma AppendToNew(b: Buffer, max: int, hash: string, instanceId: string, seqId: int, data: Bytes, now: int, ttl: int)
    requires Inv(b, max) && !IsOpen(b, hash, now)
    ensures var r := Append(b, max, hash, instanceId, seqId, data, now, ttl);
      var freed := if hash in b.items then b.items[hash].byteSize else 0;
      && Inv(r.buffer, max)
      && (r.accepted <==> b.size - freed + |data| <= max)
      && (!r.accepted ==> r.buffer == Buffer(b.items - {hash}, b.size - freed))
      && (r.accepted ==>
            r.buffer.items == (b.items - {hash} - OwnedBy(b, instanceId))
                                [hash := Txn(now + ttl, map[seqId := data], instanceId, |data|)])
  {
    hide Sum, Lengths;
    var reset := AfterReset(b, hash, now);
    ResetOnlyExpired(b, hash, now);
    RemoveOne(b, hash);
    RemoveKeepsInv(b, max, ExpiredAt(b, now) * {hash});
    AppendAfterReset(reset, max, hash, instanceId, seqId, data, now + ttl);
    KeptItems(b, hash, instanceId, reset.size);
  }

  lemma AppendKeepsInv(b: Buffer, max: int, hash: string, instanceId: string, seqId: int, data: Bytes, now: int, ttl: int)
    requires Inv(b, max)
    ensures Inv(Append(b, max, hash, instanceId, seqId, data, now, ttl).buffer, max)
  {
    hide Append, Inv;
    if IsOpen(b, hash, now) {
      AppendToOpen(b, max, hash, instanceId, seqId, data, now, ttl);
    } else {
      AppendToNew(b, max, hash, instanceId, seqId, data, now, ttl);
    }
  }

  lemma AppendAfterReset(b: Buffer, max: int, hash: string, instanceId: string, seqId: int, data: Bytes, deadline: int)
    requires Inv(b, max) && hash !in b.items
    ensures var r := AppendNew(b, max, hash, instanceId, seqId, data, deadline);
      && Inv(r.buffer, max)
      && (r.accepted <==> b.size + |data| <= max)
      && (!r.accepted ==> r.buffer == b)
      && (r.accepted ==>
            r.buffer.items == (b.items - OwnedBy(b, instanceId))
                                [hash := Txn(deadline, map[seqId := data], instanceId, |data|)])
  {
    if b.size + |data| <= max {
      RemoveKeepsInv(b, max, OwnedBy(b, instanceId));
      WriteFirst(Remove(b, OwnedBy(b, instanceId)), max, hash, Txn(deadline, map[], instanceId, 0), seqId, data);
      OpenedIsReady(b, max, hash, instanceId, deadline);
      WriteKeepsInv(OpenTxn(b, hash, instanceId, deadline), max, hash, seqId, data);
    }
  }

  lemma WriteFirst(kept: Buffer, max: int, hash: string, t: Txn, seqId: int, data: Bytes)
    requires t.chunks == map[] && t.byteSize == 0
    ensures var r := Write(Buffer(kept.items[hash := t], kept.size), max, hash, seqId, data);
      && (r.accepted <==> kept.size + |data| <= max)
      && (r.accepted ==>
            r.buffer.items == kept.items[hash := t.(chunks := map[seqId := data], byteSize := |data|)])
  {
  }

  lemma KeptItems(b: Buffer, hash: string, instanceId: string, size: int)
    ensures var rest := b.items - {hash};
      rest - OwnedBy(Buffer(rest, size), instanceId) == rest - OwnedBy(b, instanceId)
  {
  }

  /**
   A rejected append is atomic: every unexpired transaction keeps its chunks, nothing
   is added, and the bytes released are those of the expired transaction, if any,
   under the same hash.
   */
  lemma RejectionIsAtomic(b: Buffer, max: int, hash: string, instanceId: string, seqId: int, data: Bytes, now: int, ttl: int)
    requires Inv(b, max)
    requires !Append(b, max, hash, instanceId, seqId, data, now, ttl).accepted
    ensures var b' := Append(b, max, hash, instanceId, seqId, data, now, ttl).buffer;
      && (forall h :: h in b'.items ==> h in b.items && b'.items[h] == b.items[h])
      && (forall h :: h in b.items && h !in b'.items ==> h == hash && IsExpired(b.items[h], now))
      && b'.size == b.size - (if hash in b.items && hash !in b'.items then b.items[hash].byteSize else 0)
  {
    hide Append, Inv;
    if IsOpen(b, hash, now) {
      AppendToOpen(b, max, hash, instanceId, seqId, data, now, ttl);
    } else {
      AppendToNew(b, max, hash, instanceId, seqId, data, now, ttl);
    }
  }

  lemma RemoveOne(b: Buffer, hash: string)
    ensures hash in b.items ==> Remove(b, {hash}).size == b.size - b.items[hash].byteSize
  {
    if hash in b.items {
      var one := Sizes(Restrict(b.items, {hash}));
      SumRemove(one, hash);
      assert one - {hash} == map[];
    }
  }

  /**
   The quota is tested before the instance's older transaction is dropped: starting a
   new transaction fails exactly when the payload does not fit beside everything
   staged, even if the older transaction alone would have made room.
   */
  lemma QuotaIgnoresReplaceableBytes(b: Buffer, max: int, hash: string, instanceId: string, seqId: int, data: Bytes, now: int, ttl: int)
    requires Inv(b, max) && hash !in b.items
    ensures Append(b, max, hash, instanceId, seqId, data, now, ttl).accepted <==> b.size + |data| <= max
    ensures Append(b, max, hash, instanceId, seqId, data, now, ttl).accepted ==>
              OwnedBy(Append(b, max, hash, instanceId, seqId, data, now, ttl).buffer, instanceId) == {hash}
  {
    hide Append, Inv;
    AppendToNew(b, max, hash, instanceId, seqId, data, now, ttl);
  }

  /**
   A new transaction replaces the instance's older one, so one would expect it to be
   accepted exactly when it fits in the place of that one. This is so exactly when it fits
   beside it as well, or fits neither way.
   */
  lemma QuotaCountsReplaceableBytesExactlyWhen(b: Buffer, max: int, hash: string, instanceId: string, seqId: int, data: Bytes,
                                               now: int, ttl: int)
    requires Inv(b, max) && hash !in b.items
    ensures var left := Remove(b, OwnedBy(b, instanceId)).size;
      (Append(b, max, hash, instanceId, seqId, data, now, ttl).accepted <==> left + |data| <= max)
      <==> b.size + |data| <= max || max < left + |data|
  {
    QuotaIgnoresReplaceableBytes(b, max, hash, instanceId, seqId, data, now, ttl);
    RemoveKeepsInv(b, max, OwnedBy(b, instanceId));
    hide Append, Inv, Remove, OwnedBy;
  }

  lemma QuotaRefusesReplacement() returns (b: Buffer, max: int, data: Bytes)
    ensures Inv(b, max) && OwnedBy(b, "srv") == {"old"} && |data| <= max
    ensures Remove(b, OwnedBy(b, "srv")).size + |data| <= max
    ensures forall now, ttl :: !Append(b, max, "new", "srv", 0, data, now, ttl).accepted
  {
    var prior := Txn(100, map[0 := [7, 10]], "srv", 2);
    b, max, data := Buffer(map["old" := prior], 2), 2, [10];
    SumRemove(Lengths(prior.chunks), 0);
    assert Lengths(prior.chunks) - {0} == map[];
    SumRemove(Sizes(b.items), "old");
    assert Sizes(b.items) - {"old"} == map[];
    RemoveOne(b, "old");
    assert OwnedBy(b, "srv") == {"old"};
    forall now, ttl
      ensures !Append(b, max, "new", "srv", 0, data, now, ttl).accepted
    {
      QuotaIgnoresReplaceableBytes(b, max, "new", "srv", 0, data, now, ttl);
    }
  }

  const INT64_MAX := 0x7FFF_FFFF_FFFF_FFFF

  predicate FitsInt64(x: int) {
    -INT64_MAX - 1 <= x <= INT64_MAX
  }

  /** Every 64-bit value that the accounting computes for a chunk: `reset` is the buffer after the reset. */
  ghost predicate NoneOverflows(b: Buffer, reset: Buffer, seqId: int, data: Bytes) {
    && FitsInt64(reset.size + |data|)
    && (forall gone: set<string> :: FitsInt64(Remove(b, gone).size))
    && (forall gone: set<string> :: FitsInt64(Remove(reset, gone).size) && FitsInt64(Remove(reset, gone).size + |data|))
    && (forall t :: t in b.items.Values ==>
          && FitsInt64(Delta(t, seqId, data))
          && FitsInt64(reset.size + Delta(t, seqId, data))
          && FitsInt64(t.byteSize + Delta(t, seqId, data))
          && FitsInt64(b.size - t.byteSize))
  }

  /**
   No 64-bit intermediate of the byte accounting overflows when quota plus payload fits:
   not in the checks of an append, before or after any of its evictions, nor in the
   subtractions of any sequence of removals by append, retrieval or sweep.
   */
  lemma NoOverflow(b: Buffer, max: int, hash: string, seqId: int, data: Bytes, now: int)
    requires Inv(b, max) && 0 <= max && FitsInt64(max + |data|)
    ensures NoneOverflows(b, AfterReset(b, hash, now), seqId, data)
  {
    hide Sum, Lengths, NoneOverflows;
    RemoveKeepsInv(b, max, ExpiredAt(b, now) * {hash});
    Accounting(b, max);
    forall t | t in b.items.Values
      ensures 0 <= OldLength(t, seqId) <= t.byteSize <= b.size
    {
      var h :| h in b.items && b.items[h] == t;
      CoherentSize(t);
    }
    RemovalsShrink(b, max);
    RemovalsShrink(AfterReset(b, hash, now), max);
    BoundedDoesNotOverflow(b, AfterReset(b, hash, now), max, seqId, data);
  }

  lemma BoundedDoesNotOverflow(b: Buffer, reset: Buffer, max: int, seqId: int, data: Bytes)
    requires FitsInt64(max + |data|) && 0 <= reset.size <= b.size <= max
    requires forall t :: t in b.items.Values ==> 0 <= OldLength(t, seqId) <= t.byteSize <= b.size
    requires forall gone: set<string> :: 0 <= Remove(b, gone).size <= b.size
    requires forall gone: set<string> :: 0 <= Remove(reset, gone).size <= reset.size
    ensures NoneOverflows(b, reset, seqId, data)
  {
    hide Remove, OldLength;
  }

  lemma RemovalsShrink(b: Buffer, max: int)
    requires Inv(b, max)
    ensures forall gone: set<string> :: 0 <= Remove(b, gone).size <= b.size
  {
    hide Inv, Remove;
    forall gone: set<string>
      ensures 0 <= Remove(b, gone).size <= b.size
    {
      RemoveKeepsInv(b, max, gone);
    }
  }

  lemma StreamOf(t: Txn)
    requires Coherent(t)
    ensures 1 <= |t.chunks|
    ensures t.byteSize <= |Assemble(t.chunks)| <= t.byteSize + |t.chunks|
    ensures |Assemble(t.chunks)| == t.byteSize <==> forall k :: k in t.chunks ==> Terminated(t.chunks[k])
    ensures Lines(Assemble(t.chunks)) == LinesOfEach(t.chunks, KeysInOrder(t.chunks))
  {
    AssembledSize(t.chunks);
    NoLineSpansTwoChunks(t.chunks, KeysInOrder(t.chunks));
  }

  /**
   Retrieval is one-shot and loses nothing: the transaction is gone, its bytes are
   returned to the quota, and the stream is the staged text. The empty-chunks failure
   never fires.
   */
  lemma RetrieveOutcome(b: Buffer, max: int, hash: string, now: int)
    requires Inv(b, max)
    ensures var (b', r) := Retrieve(b, hash, now);
      && Inv(b', max)
      && b'.items == b.items - {hash}
      && (r.Stream? <==> hash in b.items && now <= b.items[hash].expiresAt)
      && (r.Stream? ==>
            var t := b.items[hash];
            && b'.size == b.size - t.byteSize
            && 1 <= r.chunkCount == |t.chunks|
            && r.text == Assemble(t.chunks) && r.totalSize == |r.text|
            && t.byteSize <= r.totalSize <= t.byteSize + r.chunkCount
            && (r.totalSize == t.byteSize <==> forall k :: k in t.chunks ==> Terminated(t.chunks[k]))
            && Lines(r.text) == LinesOfEach(t.chunks, KeysInOrder(t.chunks)))
  {
    if hash in b.items {
      RetrieveFound(b, hash, now);
      RemoveKeepsInv(b, max, {hash});
      RemoveOne(b, hash);
      StreamOf(b.items[hash]);
    } else {
      RetrieveMissing(b, hash, now);
      assert b.items - {hash} == b.items;
    }
    hide Retrieve, Assemble, Sum, Sizes, Lengths, Lines, LinesOfEach, KeysInOrder;
  }

  /** An append to an open transaction ignores the instance named in the request. */
  lemma AppendIgnoresInstanceOfOpenTxn(b: Buffer, max: int, hash: string, i: string, j: string, seqId: int, data: Bytes, now: int, ttl: int)
    requires hash in b.items && !IsExpired(b.items[hash], now)
    ensures Append(b, max, hash, i, seqId, data, now, ttl) == Append(b, max, hash, j, seqId, data, now, ttl)
  {
    assert hash in AfterReset(b, hash, now).items;
  }

  // ---- One step at a time ----

  lemma RemoveStep(b: Buffer, gone: set<string>, key: string)
    requires key in b.items && key !in gone
    ensures Remove(b, gone + {key}) == Buffer(Remove(b, gone).items - {key}, Remove(b, gone).size - b.items[key].byteSize)
  {
    var sizes := Sizes(Restrict(b.items, gone + {key}));
    SumRemove(sizes, key);
    assert sizes - {key} == Sizes(Restrict(b.items, gone));
    assert b.items - (gone + {key}) == b.items - gone - {key};
  }

  lemma RetrieveMissing(b: Buffer, hash: string, now: int)
    requires hash !in b.items
    ensures Retrieve(b, hash, now) == (b, Missing)
  {
  }

  lemma RetrieveFound(b: Buffer, hash: string, now: int)
    requires hash in b.items
    ensures var t := b.items[hash];
      Retrieve(b, hash, now)
      == (Buffer(b.items - {hash}, b.size - t.byteSize),
          if now > t.expiresAt || |t.chunks| == 0 then Missing else Stream(Assemble(t.chunks), |t.chunks|, |Assemble(t.chunks)|))
  {
    hide Assemble, Sum, Sizes, Lengths;
    RemoveOne(b, hash);
    assert |b.items[hash].chunks| == 0 <==> b.items[hash].chunks == map[];
  }
}
