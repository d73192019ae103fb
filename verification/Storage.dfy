/**
 The storage object: staging and live maps of mutable records. Every method is proved
 to compute the corresponding function of `Staging` or `Live` on the object's value,
 and to write nothing but the records it owns; families are never written.
 Each method is modelled as one step. All but `AppendToStaging` hold one lock from start
 to end; that an append, which lets go of the live store while it works, is one step all
 the same is shown in `Refinement` and `Interleaving`. Clock readings are parameters.
 */
module Storage {
  import opened Wrappers
  import opened Ordering
  import opened MapSums
  import opened Text
  import opened Metrics
  import opened Staging
  import opened Live
  import opened Reading

  class StagingItem {
    var expiresAt: int
    var chunks: map<int, Bytes>
    const instanceId: string
    var byteSize: int
    ghost const key: string  // the hash under which the record is filed

    constructor (expiresAt: int, instanceId: string, ghost key: string)
      ensures View() == Txn(expiresAt, map[], instanceId, 0) && this.key == key
    {
      this.key := key;
      this.expiresAt, this.chunks, this.instanceId, this.byteSize := expiresAt, map[], instanceId, 0;
    }

    function View(): Txn
      reads this
    {
      Txn(expiresAt, chunks, instanceId, byteSize)
    }
  }

  class InstanceState {
    var lastIngestUpdate: Option<int>
    var ingestedFamilies: Option<map<string, MetricFamily>>
    var cachedStatusFamily: Option<MetricFamily>
    var polledFamilies: Option<map<string, MetricFamily>>
    var a2sFamilies: Option<map<string, MetricFamily>>
    var rconFamilies: Option<map<string, MetricFamily>>
    var lastIngest: Option<int>
    var totalBytes: int
    var totalChunks: int
    var expiredTransactions: int
    var scrapeInterval: real
    ghost const key: string  // the instance for which the record is filed

    constructor (ghost key: string)
      ensures View() == Blank() && this.key == key
    {
      this.key := key;
      lastIngestUpdate, ingestedFamilies, cachedStatusFamily := None, None, None;
      polledFamilies, a2sFamilies, rconFamilies := None, None, None;
      lastIngest, totalBytes, totalChunks, expiredTransactions := None, 0, 0, 0;
      scrapeInterval := 0.0;
    }

    function View(): Instance<MetricFamily>
      reads this
    {
      Instance(lastIngestUpdate, ingestedFamilies, cachedStatusFamily, polledFamilies, a2sFamilies, rconFamilies,
               Stats(lastIngest, totalBytes, totalChunks, expiredTransactions), scrapeInterval)
    }

    /** The field updates of an ingest; a payload without a status family leaves the cached one in place. */
    method RecordIngest(p: Ingest<MetricFamily>)
      modifies this
      ensures View() == WithIngest(old(View()), p)
    {
      ingestedFamilies := Some(p.families);
      lastIngestUpdate := Some(p.updated);
      scrapeInterval := p.interval;
      lastIngest := Some(p.ingested);
      totalBytes := totalBytes + p.bytes;
      totalChunks := totalChunks + p.chunks;
      if STATUS_FAMILY in p.families {
        cachedStatusFamily := Some(p.families[STATUS_FAMILY]);
      }
    }
  }

  class Storage {
    var liveStore: map<string, InstanceState>
    var stagingStore: map<string, StagingItem>
    var stagingSize: int
    const maxStagingSize: int

    // The records that the two maps may point to.
    ghost var stagingRepr: set<StagingItem>
    ghost var liveRepr: set<InstanceState>

    /** The staging records belong to this object, each filed under one hash only. */
    ghost predicate OwnsStaging()
      reads this`stagingStore, this`stagingRepr
    {
      forall h :: h in stagingStore ==> stagingStore[h] in stagingRepr && stagingStore[h].key == h
    }

    /** The live records belong to this object, each filed under one instance only. */
    ghost predicate OwnsLive()
      reads this`liveStore, this`liveRepr
    {
      forall id :: id in liveStore ==> liveStore[id] in liveRepr && liveStore[id].key == id
    }

    ghost function Items(): map<string, Txn>
      requires OwnsStaging()
      reads this`stagingStore, this`stagingRepr, stagingRepr
    {
      map h | h in stagingStore :: stagingStore[h].View()
    }

    ghost function Staged(): Buffer
      requires OwnsStaging()
      reads this`stagingStore, this`stagingRepr, this`stagingSize, stagingRepr
    {
      Buffer(Items(), stagingSize)
    }

    ghost function Instances(): Instances<MetricFamily>
      requires OwnsLive()
      reads this`liveStore, this`liveRepr, liveRepr
    {
      map id | id in liveStore :: liveStore[id].View()
    }

    /** The live store with every family object read as the family it denotes. */
    ghost function LiveValue(): Instances<Family>
      requires OwnsLive()
      reads this`liveStore, this`liveRepr, liveRepr, AllFamilies(Instances()), Reach(AllFamilies(Instances()))
    {
      ReadLive(Instances())
    }

    ghost predicate ValidStaging()
      reads this`stagingStore, this`stagingRepr, this`stagingSize, stagingRepr
    {
      OwnsStaging() && Inv(Staged(), maxStagingSize)
    }

    ghost predicate Valid()
      reads this, stagingRepr
    {
      ValidStaging() && OwnsLive()
    }

    constructor (maxStagingSize: int)
      ensures Valid() && fresh(stagingRepr) && fresh(liveRepr)
      ensures this.maxStagingSize == maxStagingSize
      ensures Staged() == EMPTY && Instances() == map[]
    {
      this.liveStore, this.stagingStore, this.stagingSize := map[], map[], 0;
      this.stagingRepr, this.liveRepr := {}, {};
      this.maxStagingSize := maxStagingSize;
      new;
      assert Sizes(Items()) == map[];
    }

    /** Deletes one transaction and returns its bytes to the quota. */
    method Drop(key: string)
      requires OwnsStaging() && key in stagingStore
      modifies this`stagingStore, this`stagingSize
      ensures OwnsStaging() && stagingStore.Keys == old(stagingStore).Keys - {key}
      ensures Staged() == Buffer(old(Staged()).items - {key}, old(Staged()).size - old(Staged()).items[key].byteSize)
    {
      stagingSize := stagingSize - stagingStore[key].byteSize;
      stagingStore := stagingStore - {key};
    }

    /** One turn of the eviction loop: `gone` are the transactions dropped so far. */
    method EvictOne(key: string, instanceId: string, ghost before: Buffer, ghost gone: set<string>)
      requires OwnsStaging() && key in before.items && key !in gone
      requires Staged() == Remove(before, gone)
      modifies this`stagingStore, this`stagingSize
      ensures OwnsStaging()
      ensures Staged() == Remove(before, if before.items[key].instanceId == instanceId then gone + {key} else gone)
    {
      assert Staged().items[key] == before.items[key];
      RemoveStep(before, gone, key);
      hide Remove;
      if stagingStore[key].instanceId == instanceId {
        Drop(key);
      }
    }

    /** Drops every open transaction of an instance. */
    method EvictInstance(instanceId: string)
      requires OwnsStaging()
      modifies this`stagingStore, this`stagingSize
      ensures OwnsStaging()
      ensures stagingStore.Keys <= old(stagingStore).Keys
      ensures Staged() == Remove(old(Staged()), OwnedBy(old(Staged()), instanceId))
    {
      ghost var before := Staged();
      var order := RangeOrder(stagingStore.Keys);
      NothingEvicted(before, order, instanceId);
      hide OwnedAmong, Remove, OwnedBy;
      for i := 0 to |order|
        invariant OwnsStaging()
        invariant Staged() == Remove(before, OwnedAmong(before, order[..i], instanceId))
      {
        OwnedOneMore(before, order, i, instanceId);
        EvictOne(order[i], instanceId, before, OwnedAmong(before, order[..i], instanceId));
      }
      AllOwned(before, order, instanceId);
      RemoveShrinks(before, OwnedBy(before, instanceId));
      assert stagingStore.Keys == Staged().items.Keys;
    }

    /** The chunk write at the end of an append, with its own capacity check. */
    method WriteChunk(txnHash: string, seqId: int, data: Bytes) returns (ok: bool)
      requires OwnsStaging() && txnHash in stagingStore
      modifies this`stagingSize, stagingStore[txnHash]
      ensures Appended(Staged(), ok) == Write(old(Staged()), maxStagingSize, txnHash, seqId, data)
    {
      hide OwnsLive, Instances;
      var item := stagingStore[txnHash];
      ghost var before := Staged();
      var delta := |data|;
      if seqId in item.chunks {
        delta := delta - |item.chunks[seqId]|;
      }
      if stagingSize + delta > maxStagingSize {
        return false;
      }
      item.chunks := item.chunks[seqId := data];
      item.byteSize := item.byteSize + delta;
      stagingSize := stagingSize + delta;
      assert Items() == before.items[txnHash := item.View()];
      hide Items, OwnsStaging;
      return true;
    }

    /** A transaction found past its deadline on append is dropped, to be started over. */
    method ResetIfExpired(txnHash: string, now: int)
      requires OwnsStaging()
      modifies this`stagingStore, this`stagingSize
      ensures OwnsStaging()
      ensures Staged() == AfterReset(old(Staged()), txnHash, now)
    {
      ghost var before := Staged();
      RemoveNone(before);
      if txnHash in stagingStore && now > stagingStore[txnHash].expiresAt {
        RemoveStep(before, {}, txnHash);
        Drop(txnHash);
        assert ExpiredAt(before, now) * {txnHash} == {} + {txnHash};
      } else {
        assert ExpiredAt(before, now) * {txnHash} == {};
      }
    }

    /** Enters a new, empty transaction. */
    method AddItem(txnHash: string, expiresAt: int, instanceId: string)
      requires OwnsStaging() && txnHash !in stagingStore
      modifies this`stagingStore, this`stagingRepr
      ensures OwnsStaging() && txnHash in stagingStore && fresh(stagingStore[txnHash])
      ensures stagingRepr == old(stagingRepr) + {stagingStore[txnHash]}
      ensures Staged() == Buffer(old(Staged()).items[txnHash := Txn(expiresAt, map[], instanceId, 0)], old(Staged()).size)
    {
      ghost var kept := Items();
      var item := new StagingItem(expiresAt, instanceId, txnHash);
      stagingStore := stagingStore[txnHash := item];
      stagingRepr := stagingRepr + {item};
      forall h | h in kept
        ensures Items()[h] == kept[h]
      {
      }
      assert Items() == kept[txnHash := item.View()];
    }

    /** Replaces the instance's open transaction, if any, by a new one with a deadline of its own. */
    method OpenTransaction(txnHash: string, instanceId: string, defaultTtl: int, now: int) returns (ttl: int)
      requires OwnsStaging() && OwnsLive() && txnHash !in stagingStore
      modifies this`stagingStore, this`stagingRepr, this`stagingSize
      ensures OwnsStaging() && txnHash in stagingStore && fresh(stagingStore[txnHash])
      ensures stagingRepr == old(stagingRepr) + {stagingStore[txnHash]}
      ensures ttl == Ttl(Instances(), instanceId, defaultTtl)
      ensures Staged() == OpenTxn(old(Staged()), txnHash, instanceId, now + ttl)
    {
      hide Remove, OwnedBy, Ttl, OwnsLive, OwnsStaging, Items, Staged, Instances;
      EvictInstance(instanceId);
      ttl := Lifetime(instanceId, defaultTtl);
      AddItem(txnHash, now + ttl, instanceId);
    }

    /** The lifetime of a new transaction, read from the live store. */
    method Lifetime(instanceId: string, defaultTtl: int) returns (ttl: int)
      requires OwnsLive()
      ensures ttl == Ttl(Instances(), instanceId, defaultTtl)
    {
      ttl := defaultTtl;
      if instanceId in liveStore {
        var scrapeDuration := Truncate(liveStore[instanceId].scrapeInterval) * SECOND;
        if scrapeDuration > ttl {
          ttl := scrapeDuration;
        }
      }
    }

    /** Whoever writes neither the live records nor a family leaves the live store's value. */
    twostate lemma LiveStays()
      requires old(OwnsLive()) && liveStore == old(liveStore) && liveRepr == old(liveRepr)
      requires forall r :: r in liveRepr ==> unchanged(r)
      requires forall f: MetricFamily :: old(allocated(f)) ==> f.View() == old(f.View())
      ensures OwnsLive() && Instances() == old(Instances()) && LiveValue() == old(LiveValue())
    {
      hide ReadLive;
      ReadingStays(old(Instances()));
    }

    /** The path of an append that finds no open transaction under the hash. */
    method AppendFirst(txnHash: string, instanceId: string, seqId: int, data: Bytes, defaultTtl: int, now: int)
      returns (ok: bool)
      requires OwnsStaging() && OwnsLive() && txnHash !in stagingStore
      modifies this`stagingStore, this`stagingRepr, this`stagingSize
      ensures OwnsStaging() && fresh(stagingRepr - old(stagingRepr))
      ensures Appended(Staged(), ok) == AppendNew(old(Staged()), maxStagingSize, txnHash, instanceId, seqId, data,
                                                  now + Ttl(Instances(), instanceId, defaultTtl))
    {
      hide Remove, OwnedBy, Write, OpenTxn, Items, Instances, OwnsLive, Ttl;
      if stagingSize + |data| > maxStagingSize {
        return false;
      }
      var _ := OpenTransaction(txnHash, instanceId, defaultTtl, now);
      ok := WriteChunk(txnHash, seqId, data);
    }

    /** An append step by step, for any staged value. */
    method BufferChunk(txnHash: string, instanceId: string, seqId: int, data: Bytes, defaultTtl: int, now: int)
      returns (ok: bool)
      requires OwnsStaging() && OwnsLive()
      modifies this`stagingStore, this`stagingRepr, this`stagingSize, stagingRepr
      ensures OwnsStaging() && fresh(stagingRepr - old(stagingRepr))
      ensures Appended(Staged(), ok) == Append(old(Staged()), maxStagingSize, txnHash, instanceId, seqId, data, now,
                                               Ttl(old(Instances()), instanceId, defaultTtl))
    {
      hide Inv, Write, AppendNew, AfterReset, Ttl;
      ResetIfExpired(txnHash, now);
      if txnHash in stagingStore {
        ok := WriteChunk(txnHash, seqId, data);
      } else {
        ok := AppendFirst(txnHash, instanceId, seqId, data, defaultTtl, now);
      }
    }

    /** Buffers one chunk, opening, resetting or extending a transaction. */
    method AppendToStaging(txnHash: string, instanceId: string, seqId: int, data: Bytes, defaultTtl: int, now: int)
      returns (ok: bool)
      requires Valid()
      modifies this`stagingStore, this`stagingRepr, this`stagingSize, stagingRepr
      ensures Valid() && fresh(stagingRepr - old(stagingRepr))
      ensures Appended(Staged(), ok) == Append(old(Staged()), maxStagingSize, txnHash, instanceId, seqId, data, now,
                                               Ttl(old(Instances()), instanceId, defaultTtl))
      ensures LiveValue() == old(LiveValue())
    {
      AppendKeepsInv(Staged(), maxStagingSize, txnHash, instanceId, seqId, data, now, Ttl(Instances(), instanceId, defaultTtl));
      hide Inv, Append, Ttl, OwnsLive, Instances;
      ok := BufferChunk(txnHash, instanceId, seqId, data, defaultTtl, now);
      LiveStays();
    }

    /** A retrieval step by step, for any staged value. */
    method TakeOut(txnHash: string, now: int) returns (r: Retrieved)
      requires OwnsStaging()
      modifies this`stagingStore, this`stagingSize
      ensures OwnsStaging()
      ensures (Staged(), r) == Retrieve(old(Staged()), txnHash, now)
    {
      hide Retrieve, Assemble, OwnsLive;
      assert txnHash in stagingStore <==> txnHash in Staged().items;
      if txnHash !in stagingStore {
        RetrieveMissing(Staged(), txnHash, now);
        return Missing;
      }
      RetrieveFound(Staged(), txnHash, now);
      hide Staged, Items, OwnsStaging;
      r := TakeStaged(txnHash, now);
    }

    method TakeStaged(txnHash: string, now: int) returns (r: Retrieved)
      requires OwnsStaging() && txnHash in stagingStore
      modifies this`stagingStore, this`stagingSize
      ensures OwnsStaging()
      ensures var b, t := old(Staged()), old(Staged().items[txnHash]);
        && Staged() == Buffer(b.items - {txnHash}, b.size - t.byteSize)
        && r == if now > t.expiresAt || |t.chunks| == 0 then Missing else Stream(Assemble(t.chunks), |t.chunks|, |Assemble(t.chunks)|)
    {
      hide Assemble;
      var item := stagingStore[txnHash];
      assert Staged().items[txnHash] == item.View();
      hide Staged, Items, OwnsStaging;
      Drop(txnHash);
      r := ReadItem(item, now);
    }

    /** The stream over a transaction's chunks, unless it is past its deadline or empty. */
    method ReadItem(item: StagingItem, now: int) returns (r: Retrieved)
      ensures var t := item.View();
        r == if now > t.expiresAt || |t.chunks| == 0 then Missing else Stream(Assemble(t.chunks), |t.chunks|, |Assemble(t.chunks)|)
    {
      hide Assemble;
      if now > item.expiresAt || |item.chunks| == 0 {
        return Missing;
      }
      var text, count, size := JoinChunks(item.chunks);
      return Stream(text, count, size);
    }

    /** Removes a transaction and returns its chunks joined in ascending sequence order. */
    method RetrieveStaging(txnHash: string, now: int) returns (r: Retrieved)
      requires ValidStaging()
      modifies this`stagingStore, this`stagingSize
      ensures ValidStaging()
      ensures (Staged(), r) == Retrieve(old(Staged()), txnHash, now)
    {
      RetrieveOutcome(Staged(), maxStagingSize, txnHash, now);
      hide Inv, Retrieve;
      r := TakeOut(txnHash, now);
    }

    method DropExpired(key: string)
      requires OwnsStaging() && OwnsLive() && key in stagingStore
      modifies this, liveRepr
      ensures OwnsStaging() && OwnsLive() && stagingRepr == old(stagingRepr)
      ensures fresh(liveRepr - old(liveRepr)) && stagingStore.Keys == old(stagingStore).Keys - {key}
      ensures Staged() == Buffer(old(Staged()).items - {key}, old(Staged()).size - old(Staged()).items[key].byteSize)
      ensures var owner := old(Staged()).items[key].instanceId;
        Instances() == old(Instances())[owner := Charge(StateOf(old(Instances()), owner), 1)]
    {
      hide Charge, StateOf;
      assert stagingStore[key].instanceId == Staged().items[key].instanceId;
      hide OwnsStaging, OwnsLive, Items, Instances;
      ChargeExpired(stagingStore[key].instanceId);
      Drop(key);
    }

    /** One turn of the sweep: `done` are the transactions dropped so far. */
    method SweepOne(key: string, now: int, ghost before: Store<MetricFamily>, ghost done: set<string>) returns (dropped: bool)
      requires OwnsStaging() && OwnsLive() && key in before.staging.items && key !in done
      requires Store(Staged(), Instances()) == Collected(before, done)
      modifies this, liveRepr
      ensures OwnsStaging() && OwnsLive() && stagingRepr == old(stagingRepr)
      ensures fresh(liveRepr - old(liveRepr))
      ensures dropped <==> key in ExpiredAt(before.staging, now)
      ensures Store(Staged(), Instances()) == Collected(before, if dropped then done + {key} else done)
    {
      CollectedKeeps(before, done, key);
      hide Collected, Charge, StateOf;
      assert Staged().items[key] == before.staging.items[key];
      dropped := now > stagingStore[key].expiresAt;
      assert key in stagingStore && dropped == (key in ExpiredAt(before.staging, now));
      hide OwnsStaging, OwnsLive, Staged, Instances, Items, ExpiredAt;
      if dropped {
        CollectedStep(before, done, key);
        DropExpired(key);
      }
    }

    /** One turn of the loop below. */
    method SweepTurn(order: seq<string>, i: nat, now: int, count: int, ghost before: Store<MetricFamily>) returns (removed: int)
      requires OwnsStaging() && OwnsLive()
      requires i < |order| && NoDuplicates(order) && order[i] in before.staging.items
      requires count == |Swept(before.staging, order[..i], now)|
      requires Store(Staged(), Instances()) == Collected(before, Swept(before.staging, order[..i], now))
      modifies this, liveRepr
      ensures OwnsStaging() && OwnsLive() && stagingRepr == old(stagingRepr)
      ensures fresh(liveRepr - old(liveRepr))
      ensures removed == |Swept(before.staging, order[..i + 1], now)|
      ensures Store(Staged(), Instances()) == Collected(before, Swept(before.staging, order[..i + 1], now))
    {
      OneMoreSwept(before.staging, order, i, now);
      hide Swept, Collected, ExpiredAt, OwnsStaging, OwnsLive, Staged, Instances;
      var dropped := SweepOne(order[i], now, before, Swept(before.staging, order[..i], now));
      removed := if dropped then count + 1 else count;
    }

    /** The sweep over the transactions, in any order. */
    method Sweep(now: int) returns (removed: int)
      requires OwnsStaging() && OwnsLive()
      modifies this, liveRepr
      ensures OwnsStaging() && OwnsLive() && stagingRepr == old(stagingRepr)
      ensures fresh(liveRepr - old(liveRepr))
      ensures Store(Staged(), Instances()) == Collect(old(Store(Staged(), Instances())), now)
      ensures removed == |ExpiredAt(old(Staged()), now)|
    {
      hide Swept, Collected, ExpiredAt, OwnsStaging, OwnsLive, Instances;
      ghost var before := Store(Staged(), Instances());
      assert before.staging.items.Keys == stagingStore.Keys;
      hide Staged, Items;
      var order := RangeOrder(stagingStore.Keys);
      removed := 0;
      NothingSwept(before, order, now);
      for i := 0 to |order|
        invariant OwnsStaging() && OwnsLive() && stagingRepr == old(stagingRepr)
        invariant fresh(liveRepr - old(liveRepr))
        invariant removed == |Swept(before.staging, order[..i], now)|
        invariant Store(Staged(), Instances()) == Collected(before, Swept(before.staging, order[..i], now))
      {
        removed := SweepTurn(order, i, now, removed, before);
      }
      AllSwept(before.staging, order, now);
    }

    /** Drops every expired transaction and charges it to its instance. */
    method CleanupStaging(now: int) returns (removed: int)
      requires Valid()
      modifies this, liveRepr
      ensures Valid() && stagingRepr == old(stagingRepr) && fresh(liveRepr - old(liveRepr))
      ensures Store(Staged(), Instances()) == Collect(old(Store(Staged(), Instances())), now)
      ensures Store(Staged(), LiveValue()) == Collect(old(Store(Staged(), LiveValue())), now)
      ensures removed == |ExpiredAt(old(Staged()), now)|
    {
      RemoveKeepsInv(Staged(), maxStagingSize, ExpiredAt(Staged(), now));
      assert Collect(Store(Staged(), Instances()), now).staging == Remove(Staged(), ExpiredAt(Staged(), now));
      hide Inv, Collect, Remove, ExpiredAt;
      removed := Sweep(now);
      ReadingStays(old(Instances()));
      ReadCollect(old(Store(Staged(), Instances())), now);
    }

    /** The instance's record, created blank if it is not there. */
    method GetOrCreateState(instanceId: string) returns (state: InstanceState)
      requires OwnsLive()
      modifies this`liveStore, this`liveRepr
      ensures OwnsLive() && instanceId in liveStore && state == liveStore[instanceId]
      ensures liveStore == old(liveStore)[instanceId := state]
      ensures fresh(liveRepr - old(liveRepr))
      ensures state.View() == StateOf(old(Instances()), instanceId)
      ensures Instances() == old(Instances())[instanceId := state.View()]
    {
      if instanceId in liveStore {
        state := liveStore[instanceId];
      } else {
        state := new InstanceState(instanceId);
        liveStore := liveStore[instanceId := state];
        liveRepr := liveRepr + {state};
      }
    }

    method ChargeExpired(instanceId: string)
      requires OwnsLive()
      modifies this`liveStore, this`liveRepr, liveRepr
      ensures OwnsLive() && fresh(liveRepr - old(liveRepr))
      ensures Instances() == old(Instances())[instanceId := Charge(StateOf(old(Instances()), instanceId), 1)]
    {
      var state := GetOrCreateState(instanceId);
      label Found:
      state.expiredTransactions := state.expiredTransactions + 1;
      OneRecordChanged@Found(instanceId);
      Overwrite(old(Instances()), old@Found(Instances()), Instances(), instanceId, old@Found(state.View()), state.View());
    }

    /** Writing one record changes one entry of the value. */
    twostate lemma OneRecordChanged(id: string)
      requires old(OwnsLive()) && OwnsLive() && liveStore == old(liveStore) && id in liveStore
      requires forall k :: k in liveStore && k != id ==> unchanged(liveStore[k])
      ensures Instances() == old(Instances())[id := liveStore[id].View()]
    {
      forall k | k in liveStore && k != id
        ensures liveStore[k].View() == old(liveStore[k].View())
      {
        assert unchanged(liveStore[k]);
      }
      EntrySet(old(Instances()), Instances(), id);
    }

    /** Publishes an accepted payload. */
    method UpdateIngested(instanceId: string, families: map<string, MetricFamily>, bytesAdded: int, chunksAdded: int,
                          updated: int, ingested: int)
      requires OwnsLive()
      modifies this`liveStore, this`liveRepr, liveRepr
      ensures OwnsLive() && fresh(liveRepr - old(liveRepr))
      ensures Instances() == Publish(old(Instances()), instanceId,
                                     Ingest(families, IntervalOf(old(ViewOf(families))), bytesAdded, chunksAdded, updated, ingested))
      ensures ViewOf(families) == old(ViewOf(families))
      ensures var value := old(ViewOf(families));
        LiveValue() == Publish(old(LiveValue()), instanceId,
                               Ingest(value, IntervalOf(value), bytesAdded, chunksAdded, updated, ingested))
    {
      var interval := 60.0;
      if INTERVAL_FAMILY in families {
        var mf := families[INTERVAL_FAMILY];
        if |mf.metric| > 0 && mf.metric[0].value.Gauge? {
          interval := mf.metric[0].value.v;
        }
      }
      assert interval == IntervalOf(ViewOf(families));
      hide IntervalOf, ViewOf, OwnsLive, LiveValue, Instances, Publish;
      SetIngested(instanceId, Ingest(families, interval, bytesAdded, chunksAdded, updated, ingested));
      SourceStays(Some(families));
    }

    /** The part of a publish that runs under the lock. */
    method SetIngested(instanceId: string, p: Ingest<MetricFamily>)
      requires OwnsLive()
      modifies this`liveStore, this`liveRepr, liveRepr
      ensures OwnsLive() && fresh(liveRepr - old(liveRepr))
      ensures Instances() == Publish(old(Instances()), instanceId, p)
      ensures LiveValue() == Publish(old(LiveValue()), instanceId, old(ReadIngest(p)))
    {
      hide ViewOf, StateOf, WithIngest, ReadLive, AllFamilies;
      var state := GetOrCreateState(instanceId);
      label Found:
      state.RecordIngest(p);
      OneRecordChanged@Found(instanceId);
      Overwrite(old(Instances()), old@Found(Instances()), Instances(), instanceId, old@Found(state.View()), state.View());
      ReadingStays(old(Instances()));
      SourceStays(Some(p.families));
      ReadPublish(old(Instances()), instanceId, p);
    }

    method UpdatePolled(instanceId: string, families: Option<map<string, MetricFamily>>)
      requires OwnsLive()
      modifies this`liveStore, this`liveRepr, liveRepr
      ensures OwnsLive() && fresh(liveRepr - old(liveRepr))
      ensures Instances() == SetSource(old(Instances()), instanceId, Polled, families)
      ensures LiveValue() == SetSource(old(LiveValue()), instanceId, Polled, old(ReadSource(families)))
    {
      hide StateOf, ReadLive, ReadSource, AllFamilies;
      var state := GetOrCreateState(instanceId);
      label Found:
      state.polledFamilies := families;
      OneRecordChanged@Found(instanceId);
      Overwrite(old(Instances()), old@Found(Instances()), Instances(), instanceId, old@Found(state.View()), state.View());
      ReadingStays(old(Instances()));
      SourceStays(families);
      ReadSetSource(old(Instances()), instanceId, Polled, families);
    }

    method UpdateA2S(instanceId: string, families: Option<map<string, MetricFamily>>)
      requires OwnsLive()
      modifies this`liveStore, this`liveRepr, liveRepr
      ensures OwnsLive() && fresh(liveRepr - old(liveRepr))
      ensures Instances() == SetSource(old(Instances()), instanceId, A2S, families)
      ensures LiveValue() == SetSource(old(LiveValue()), instanceId, A2S, old(ReadSource(families)))
    {
      hide StateOf, ReadLive, ReadSource, AllFamilies;
      var state := GetOrCreateState(instanceId);
      label Found:
      state.a2sFamilies := families;
      OneRecordChanged@Found(instanceId);
      Overwrite(old(Instances()), old@Found(Instances()), Instances(), instanceId, old@Found(state.View()), state.View());
      ReadingStays(old(Instances()));
      SourceStays(families);
      ReadSetSource(old(Instances()), instanceId, A2S, families);
    }

    method UpdateRCon(instanceId: string, families: Option<map<string, MetricFamily>>)
      requires OwnsLive()
      modifies this`liveStore, this`liveRepr, liveRepr
      ensures OwnsLive() && fresh(liveRepr - old(liveRepr))
      ensures Instances() == SetSource(old(Instances()), instanceId, RCon, families)
      ensures LiveValue() == SetSource(old(LiveValue()), instanceId, RCon, old(ReadSource(families)))
    {
      hide StateOf, ReadLive, ReadSource, AllFamilies;
      var state := GetOrCreateState(instanceId);
      label Found:
      state.rconFamilies := families;
      OneRecordChanged@Found(instanceId);
      Overwrite(old(Instances()), old@Found(Instances()), Instances(), instanceId, old@Found(state.View()), state.View());
      ReadingStays(old(Instances()));
      SourceStays(families);
      ReadSetSource(old(Instances()), instanceId, RCon, families);
    }

    /** A snapshot: the records are copied, the families they point to are shared. */
    method GetInstanceStates() returns (result: map<string, Instance<MetricFamily>>)
      requires OwnsLive()
      ensures result == Instances()
    {
      result := map[];
      ghost var whole := Instances();
      var order := RangeOrder(liveStore.Keys);
      PartEnds(whole, order);
      for i := 0 to |order|
        invariant result == Part(whole, order, i)
      {
        PartTurn(whole, order, i);
        result := result[order[i] := liveStore[order[i]].View()];
      }
    }
  }

  /** The key loop, the sort and the reader loop of a retrieval. */
  method JoinChunks(chunks: map<int, Bytes>) returns (text: Bytes, chunkCount: int, totalSize: int)
    ensures text == Assemble(chunks)
    ensures chunkCount == |chunks|
    ensures totalSize == |text|
  {
    var keys := RangeOrder(chunks.Keys);
    SortOfListing(keys, chunks.Keys, IntLess);
    keys := Sort(keys, IntLess);
    assert keys == KeysInOrder(chunks);
    text, totalSize := ReadChunks(chunks, keys);
    chunkCount := |keys|;
  }

  method ReadChunks(chunks: map<int, Bytes>, keys: seq<int>) returns (text: Bytes, totalSize: int)
    requires Covers(chunks, keys)
    ensures text == Joined(chunks, keys)
    ensures totalSize == |text|
  {
    var readers: seq<Bytes> := [];
    totalSize := 0;
    JoinedNone(chunks, keys);
    hide Joined, Concat, Terminate, Terminated;
    for i := 0 to |keys|
      invariant Concat(readers) == Joined(chunks, keys[..i])
      invariant totalSize == |Concat(readers)|
    {
      JoinedOneMore(chunks, keys, i);
      var size;
      readers, size := AddReaders(readers, chunks[keys[i]]);
      totalSize := totalSize + size;
    }
    assert keys[..|keys|] == keys;
    return Concat(readers), totalSize;
  }

  /** One chunk's readers: the chunk, and a newline if it lacks one. */
  method AddReaders(readers: seq<Bytes>, chunkData: Bytes) returns (more: seq<Bytes>, size: int)
    ensures Concat(more) == Concat(readers) + Terminate(chunkData)
    ensures size == |Terminate(chunkData)|
  {
    ConcatOneMore(readers, chunkData);
    more, size := readers + [chunkData], |chunkData|;
    if |chunkData| > 0 && chunkData[|chunkData| - 1] != NEWLINE {
      ConcatOneMore(more, [NEWLINE]);
      more, size := more + [[NEWLINE]], size + 1;
    }
  }

  lemma JoinedNone(chunks: map<int, Bytes>, keys: seq<int>)
    ensures Joined(chunks, keys[..0]) == [] == Concat([])
  {
  }

  lemma JoinedOneMore(chunks: map<int, Bytes>, keys: seq<int>, i: nat)
    requires i < |keys| && Covers(chunks, keys)
    ensures Joined(chunks, keys[..i + 1]) == Joined(chunks, keys[..i]) + Terminate(chunks[keys[i]])
  {
    assert keys[..i + 1][..i] == keys[..i];
  }

  lemma ConcatOneMore(readers: seq<Bytes>, piece: Bytes)
    ensures Concat(readers + [piece]) == Concat(readers) + piece
  {
    assert (readers + [piece])[..|readers|] == readers;
  }

  lemma Overwrite<V>(before: map<string, V>, middle: map<string, V>, after: map<string, V>, k: string, a: V, b: V)
    requires middle == before[k := a] && after == middle[k := b]
    ensures after == before[k := b]
  {
  }

  ghost function OwnedAmong(b: Buffer, visited: seq<string>, instanceId: string): set<string> {
    set h | h in visited && h in OwnedBy(b, instanceId)
  }

  lemma RemoveShrinks(b: Buffer, gone: set<string>)
    ensures Remove(b, gone).items.Keys <= b.items.Keys
  {
  }

  lemma NothingEvicted(b: Buffer, order: seq<string>, instanceId: string)
    ensures Remove(b, OwnedAmong(b, order[..0], instanceId)) == b
  {
    assert OwnedAmong(b, order[..0], instanceId) == {};
    RemoveNone(b);
  }

  lemma OwnedOneMore(b: Buffer, order: seq<string>, i: nat, instanceId: string)
    requires i < |order| && NoDuplicates(order) && order[i] in b.items
    ensures order[i] !in OwnedAmong(b, order[..i], instanceId)
    ensures OwnedAmong(b, order[..i + 1], instanceId)
            == if b.items[order[i]].instanceId == instanceId then OwnedAmong(b, order[..i], instanceId) + {order[i]}
               else OwnedAmong(b, order[..i], instanceId)
  {
    FirstOccurrence(order, i);
    assert order[..i + 1] == order[..i] + [order[i]];
  }

  lemma AllOwned(b: Buffer, order: seq<string>, instanceId: string)
    requires forall k :: k in order <==> k in b.items
    ensures OwnedAmong(b, order[..|order|], instanceId) == OwnedBy(b, instanceId)
  {
    assert order[..|order|] == order;
  }

  /** The expired transactions among the keys visited so far. */
  ghost function Swept(b: Buffer, visited: seq<string>, now: int): set<string> {
    set h | h in visited && h in ExpiredAt(b, now)
  }

  lemma NothingSwept<F>(s: Store<F>, order: seq<string>, now: int)
    ensures Swept(s.staging, order[..0], now) == {}
    ensures Collected(s, Swept(s.staging, order[..0], now)) == s
  {
    assert Swept(s.staging, order[..0], now) == {};
    CollectedNone(s);
  }

  lemma OneMoreSwept(b: Buffer, order: seq<string>, i: nat, now: int)
    requires i < |order| && NoDuplicates(order)
    ensures var before, after := Swept(b, order[..i], now), Swept(b, order[..i + 1], now);
      && order[i] !in before
      && after == (if order[i] in ExpiredAt(b, now) then before + {order[i]} else before)
      && |after| == |before| + (if order[i] in ExpiredAt(b, now) then 1 else 0)
  {
    FirstOccurrence(order, i);
    assert order[..i + 1] == order[..i] + [order[i]];
    var before, after := Swept(b, order[..i], now), Swept(b, order[..i + 1], now);
    assert after == (if order[i] in ExpiredAt(b, now) then before + {order[i]} else before);
  }

  lemma AllSwept(b: Buffer, order: seq<string>, now: int)
    requires forall k :: k in order <==> k in b.items
    ensures Swept(b, order[..|order|], now) == ExpiredAt(b, now)
  {
    assert order[..|order|] == order;
  }
}
