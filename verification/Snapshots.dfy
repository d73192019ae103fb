/**
 Sequences of store operations. Readers work on shallow snapshots: records are copied,
 families are shared with the store. That is safe because no store operation writes a
 family, and it makes the object store a store of values.
 */
module Snapshots {
  import opened Wrappers
  import opened Metrics
  import opened Text
  import opened Staging
  import opened Live
  import opened Reading
  import opened Storage

  /** Everything that other threads may do to the store while a reader holds a snapshot. */
  datatype Operation =
    | Append(txnHash: string, instanceId: string, seqId: int, data: Bytes, defaultTtl: int, now: int)
    | Retrieve(txnHash: string, now: int)
    | Clean(now: int)
    | Ingest(instanceId: string, families: map<string, MetricFamily>, bytes: int, chunks: int, updated: int, ingested: int)
    | Poll(instanceId: string, source: Source, polled: Option<map<string, MetricFamily>>)

  /** The same operations, with families as values. */
  datatype Update =
    | Appends(txnHash: string, instanceId: string, seqId: int, data: Bytes, defaultTtl: int, now: int)
    | Retrieves(txnHash: string, now: int)
    | Cleans(now: int)
    | Ingests(instanceId: string, families: Families, bytes: int, chunks: int, updated: int, ingested: int)
    | Polls(instanceId: string, source: Source, polled: Option<Families>)

  ghost function Updated(s: Store<Family>, max: int, u: Update): Store<Family> {
    match u
    case Appends(txnHash, instanceId, seqId, data, defaultTtl, now) =>
      s.(staging := Staging.Append(s.staging, max, txnHash, instanceId, seqId, data, now, Ttl(s.live, instanceId, defaultTtl)).buffer)
    case Retrieves(txnHash, now) =>
      s.(staging := Staging.Retrieve(s.staging, txnHash, now).0)
    case Cleans(now) =>
      Live.Collect(s, now)
    case Ingests(instanceId, families, bytes, chunks, updated, ingested) =>
      s.(live := Publish(s.live, instanceId, Live.Ingest(families, IntervalOf(families), bytes, chunks, updated, ingested)))
    case Polls(instanceId, source, polled) =>
      s.(live := SetSource(s.live, instanceId, source, polled))
  }

  ghost function AllUpdated(s: Store<Family>, max: int, us: seq<Update>): Store<Family> {
    if us == [] then s else Updated(AllUpdated(s, max, us[..|us| - 1]), max, us[|us| - 1])
  }

  ghost function Given(op: Operation): Option<Objects> {
    match op
    case Ingest(_, families, _, _, _, _) => Some(families)
    case Poll(_, _, polled) => polled
    case _ => None
  }

  /** The operation as an update of values. */
  ghost function Meaning(op: Operation): Update
    reads Values(Given(op)), Reach(Values(Given(op)))
  {
    match op
    case Append(txnHash, instanceId, seqId, data, defaultTtl, now) => Appends(txnHash, instanceId, seqId, data, defaultTtl, now)
    case Retrieve(txnHash, now) => Retrieves(txnHash, now)
    case Clean(now) => Cleans(now)
    case Ingest(instanceId, families, bytes, chunks, updated, ingested) =>
      Ingests(instanceId, ReadSource(Some(families)).value, bytes, chunks, updated, ingested)
    case Poll(instanceId, source, polled) => Polls(instanceId, source, ReadSource(polled))
  }

  twostate lemma MeaningStays(op: Operation)
    requires forall f: MetricFamily :: old(allocated(f)) ==> f.View() == old(f.View())
    ensures Meaning(op) == old(Meaning(op))
  {
    SourceStays(Given(op));
    hide ReadSource;
  }

  ghost function ValueOf(store: Storage): Store<Family>
    requires store.Valid()
    reads store, store.stagingRepr, store.liveRepr, AllFamilies(store.Instances()), Reach(AllFamilies(store.Instances()))
  {
    Store(store.Staged(), store.LiveValue())
  }

  method PerformAppend(store: Storage, op: Operation)
    requires store.Valid() && op.Append?
    modifies store, store.stagingRepr, store.liveRepr
    ensures store.Valid()
    ensures fresh(store.stagingRepr - old(store.stagingRepr)) && fresh(store.liveRepr - old(store.liveRepr))
    ensures ValueOf(store) == Updated(old(ValueOf(store)), store.maxStagingSize, old(Meaning(op)))
  {
    hide Staging.Append, Ttl, store.ValidStaging, store.Staged, ReadLive;
    ReadTtl(store.Instances(), op.instanceId, op.defaultTtl);
    var _ := store.AppendToStaging(op.txnHash, op.instanceId, op.seqId, op.data, op.defaultTtl, op.now);
  }

  method PerformRetrieve(store: Storage, op: Operation)
    requires store.Valid() && op.Retrieve?
    modifies store, store.stagingRepr, store.liveRepr
    ensures store.Valid()
    ensures fresh(store.stagingRepr - old(store.stagingRepr)) && fresh(store.liveRepr - old(store.liveRepr))
    ensures ValueOf(store) == Updated(old(ValueOf(store)), store.maxStagingSize, old(Meaning(op)))
  {
    hide Staging.Retrieve, store.LiveValue, store.Staged, store.Instances, Inv;
    var _ := store.RetrieveStaging(op.txnHash, op.now);
    store.LiveStays();
  }

  method PerformClean(store: Storage, op: Operation)
    requires store.Valid() && op.Clean?
    modifies store, store.stagingRepr, store.liveRepr
    ensures store.Valid()
    ensures fresh(store.stagingRepr - old(store.stagingRepr)) && fresh(store.liveRepr - old(store.liveRepr))
    ensures ValueOf(store) == Updated(old(ValueOf(store)), store.maxStagingSize, old(Meaning(op)))
  {
    hide store.ValidStaging, Live.Collect, ReadLive;
    var _ := store.CleanupStaging(op.now);
  }

  method PerformIngest(store: Storage, op: Operation)
    requires store.Valid() && op.Ingest?
    modifies store, store.stagingRepr, store.liveRepr
    ensures store.Valid()
    ensures fresh(store.stagingRepr - old(store.stagingRepr)) && fresh(store.liveRepr - old(store.liveRepr))
    ensures ValueOf(store) == Updated(old(ValueOf(store)), store.maxStagingSize, old(Meaning(op)))
  {
    hide store.ValidStaging, Publish, ReadLive;
    store.UpdateIngested(op.instanceId, op.families, op.bytes, op.chunks, op.updated, op.ingested);
  }

  method PerformPoll(store: Storage, op: Operation)
    requires store.Valid() && op.Poll?
    modifies store, store.stagingRepr, store.liveRepr
    ensures store.Valid()
    ensures fresh(store.stagingRepr - old(store.stagingRepr)) && fresh(store.liveRepr - old(store.liveRepr))
    ensures ValueOf(store) == Updated(old(ValueOf(store)), store.maxStagingSize, old(Meaning(op)))
  {
    hide store.ValidStaging, store.Staged, SetSource, ReadLive, ReadSource;
    match op.source {
      case Polled => store.UpdatePolled(op.instanceId, op.polled);
      case A2S => store.UpdateA2S(op.instanceId, op.polled);
      case RCon => store.UpdateRCon(op.instanceId, op.polled);
    }
  }

  /** Every operation on the object store is the update of values that it means. */
  method Perform(store: Storage, op: Operation)
    requires store.Valid()
    modifies store, store.stagingRepr, store.liveRepr
    ensures store.Valid()
    ensures fresh(store.stagingRepr - old(store.stagingRepr)) && fresh(store.liveRepr - old(store.liveRepr))
    ensures ValueOf(store) == Updated(old(ValueOf(store)), store.maxStagingSize, old(Meaning(op)))
  {
    hide store.ValidStaging, store.OwnsStaging, store.OwnsLive, ValueOf, Updated, Meaning;
    match op {
      case Append(_, _, _, _, _, _) => PerformAppend(store, op);
      case Retrieve(_, _) => PerformRetrieve(store, op);
      case Clean(_) => PerformClean(store, op);
      case Ingest(_, _, _, _, _, _) => PerformIngest(store, op);
      case Poll(_, _, _) => PerformPoll(store, op);
    }
  }

  /**
   Any sequence of operations: the store's value goes through the corresponding updates,
   and no family or sample that existed before is written.
   */
  method PerformAll(store: Storage, ops: seq<Operation>, ghost us: seq<Update>)
    requires store.Valid()
    requires |us| == |ops| && forall i :: 0 <= i < |ops| ==> Meaning(ops[i]) == us[i]
    modifies store, store.stagingRepr, store.liveRepr
    ensures store.Valid()
    ensures fresh(store.stagingRepr - old(store.stagingRepr)) && fresh(store.liveRepr - old(store.liveRepr))
    ensures ValueOf(store) == AllUpdated(old(ValueOf(store)), store.maxStagingSize, us)
    ensures forall f: MetricFamily :: old(allocated(f)) ==> f.View() == old(f.View())
    ensures forall m: Metric :: old(allocated(m)) ==> m.View() == old(m.View())
  {
    hide store.ValidStaging, store.OwnsLive, store.OwnsStaging, ValueOf, Updated, Meaning;
    for i := 0 to |ops|
      invariant store.Valid()
      invariant fresh(store.stagingRepr - old(store.stagingRepr)) && fresh(store.liveRepr - old(store.liveRepr))
      invariant forall f: MetricFamily :: old(allocated(f)) ==> f.View() == old(f.View())
      invariant ValueOf(store) == AllUpdated(old(ValueOf(store)), store.maxStagingSize, us[..i])
    {
      assert us[..i + 1][..i] == us[..i];
      MeaningStays(ops[i]);
      Perform(store, ops[i]);
    }
    assert us[..|us|] == us;
  }

  lemma {:induction false} Meanings(ops: seq<Operation>) returns (us: seq<Update>)
    ensures |us| == |ops| && forall i :: 0 <= i < |ops| ==> us[i] == Meaning(ops[i])
  {
    us := [];
    if ops != [] {
      var init := Meanings(ops[..|ops| - 1]);
      us := init + [Meaning(ops[|ops| - 1])];
    }
  }

  /**
   Takes a snapshot, then runs any sequence of store operations: the snapshot is the
   state at the time it was taken, and no family or sample that existed then, hence none
   that it reaches, has changed since.
   */
  method SnapshotIsStable(store: Storage, ops: seq<Operation>) returns (snapshot: map<string, Instance<MetricFamily>>)
    requires store.Valid()
    modifies store, store.stagingRepr, store.liveRepr
    ensures store.Valid()
    ensures snapshot == old(store.Instances()) && ReadLive(snapshot) == old(store.LiveValue())
    ensures forall f: MetricFamily :: old(allocated(f)) ==> f.View() == old(f.View())
    ensures forall m: Metric :: old(allocated(m)) ==> m.View() == old(m.View())
  {
    hide store.ValidStaging;
    snapshot := store.GetInstanceStates();
    ghost var us := Meanings(ops);
    PerformAll(store, ops, us);
    hide store.ValidStaging, ValueOf, Meaning, ReadLive;
    ReadingStays(snapshot);
  }
}
