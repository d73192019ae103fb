/**
 Reading the object store as a value: every family object stands for the family that it
 denotes. The store only moves family objects around, so its updates on objects are the
 updates on values, whenever the objects are read.
 */
module Reading {
  import opened Wrappers
  import opened Metrics
  import opened Staging
  import opened Live

  type Objects = map<string, MetricFamily>

  ghost function Values(families: Option<Objects>): set<MetricFamily> {
    if families.Some? then families.value.Values else {}
  }

  /** The family objects to which a record points. */
  ghost function FamiliesOf(s: Instance<MetricFamily>): set<MetricFamily> {
    Values(s.ingested) + Values(s.polled) + Values(s.a2s) + Values(s.rcon)
    + if s.cachedStatus.Some? then {s.cachedStatus.value} else {}
  }

  ghost function AllFamilies(live: Instances<MetricFamily>): set<MetricFamily> {
    set id, f | id in live && f in FamiliesOf(live[id]) :: f
  }

  /** All objects that are read when these families are. */
  ghost function Reach(families: set<MetricFamily>): set<object>
    reads families
  {
    set f: MetricFamily, o: object | f in families && o in f.Repr() :: o
  }

  ghost function ReadSource(families: Option<Objects>): Option<Families>
    reads Values(families), Reach(Values(families))
  {
    match families
    case None => None
    case Some(m) =>
      assert forall n :: n in m ==> m[n] in Values(families) && m[n].Repr() <= Reach(Values(families));
      Some(map n | n in m :: m[n].View())
  }

  ghost function ReadInstance(s: Instance<MetricFamily>): Instance<Family>
    reads FamiliesOf(s), Reach(FamiliesOf(s))
  {
    assert s.cachedStatus.Some? ==> s.cachedStatus.value in FamiliesOf(s) && s.cachedStatus.value.Repr() <= Reach(FamiliesOf(s));
    assert forall o :: o in Values(s.ingested) + Values(s.polled) + Values(s.a2s) + Values(s.rcon) ==> o in FamiliesOf(s);
    Instance(s.lastIngestUpdate, ReadSource(s.ingested),
             if s.cachedStatus.Some? then Some(s.cachedStatus.value.View()) else None,
             ReadSource(s.polled), ReadSource(s.a2s), ReadSource(s.rcon), s.stats, s.scrapeInterval)
  }

  ghost function ReadLive(live: Instances<MetricFamily>): Instances<Family>
    reads AllFamilies(live), Reach(AllFamilies(live))
  {
    assert forall id :: id in live ==> FamiliesOf(live[id]) <= AllFamilies(live);
    map id | id in live :: ReadInstance(live[id])
  }

  ghost function ReadIngest(p: Ingest<MetricFamily>): Ingest<Family>
    reads p.families.Values, ReprOf(p.families)
  {
    Ingest(ViewOf(p.families), p.interval, p.bytes, p.chunks, p.updated, p.ingested)
  }

  ghost predicate Denotes(objects: Option<Objects>, families: Option<Families>)
    reads Values(objects), Reach(Values(objects))
  {
    assert objects.Some? ==> forall n :: n in objects.value ==> objects.value[n] in Values(objects) && objects.value[n].Repr() <= Reach(Values(objects));
    && (objects.Some? <==> families.Some?)
    && (objects.Some? ==>
          && objects.value.Keys == families.value.Keys
          && forall n :: n in objects.value ==> ReadsAs(objects.value[n], families.value[n]))
  }

  /** Name, help, type and, sample by sample, the labels and the value. */
  ghost predicate ReadsAs(o: MetricFamily, f: Family)
    reads o, o.metric
  {
    && o.name == f.name && o.help == f.help && o.kind == f.kind && |o.metric| == |f.samples|
    && forall k :: 0 <= k < |f.samples| ==> o.metric[k].labels == f.samples[k].labels && o.metric[k].value == f.samples[k].value
  }

  /** What is read of an instance, field by field. */
  lemma ReadingIs(live: Instances<MetricFamily>, id: string)
    ensures id in ReadLive(live) <==> id in live
    ensures id in live ==>
              var s, r := live[id], ReadLive(live)[id];
              && Denotes(s.ingested, r.ingested) && Denotes(s.polled, r.polled) && Denotes(s.a2s, r.a2s) && Denotes(s.rcon, r.rcon)
              && (s.cachedStatus.Some? <==> r.cachedStatus.Some?)
              && (s.cachedStatus.Some? ==> ReadsAs(s.cachedStatus.value, r.cachedStatus.value))
              && r.lastIngestUpdate == s.lastIngestUpdate && r.stats == s.stats && r.scrapeInterval == s.scrapeInterval
  {
    if id in live {
      SourceDenotes(live[id].ingested);
      SourceDenotes(live[id].polled);
      SourceDenotes(live[id].a2s);
      SourceDenotes(live[id].rcon);
      hide ReadSource, Denotes;
    }
  }

  lemma SourceDenotes(objects: Option<Objects>)
    ensures Denotes(objects, ReadSource(objects))
  {
  }

  // ---- Updating objects and reading them is reading them and updating values ----

  lemma ReadStateOf(live: Instances<MetricFamily>, id: string)
    ensures StateOf(ReadLive(live), id) == ReadInstance(StateOf(live, id))
  {
  }

  lemma ReadUpdate(live: Instances<MetricFamily>, id: string, state: Instance<MetricFamily>)
    ensures ReadLive(live[id := state]) == ReadLive(live)[id := ReadInstance(state)]
  {
    hide ReadInstance;
  }

  lemma ReadPublish(live: Instances<MetricFamily>, id: string, p: Ingest<MetricFamily>)
    ensures ReadLive(Publish(live, id, p)) == Publish(ReadLive(live), id, ReadIngest(p))
  {
    ReadStateOf(live, id);
    ReadUpdate(live, id, WithIngest(StateOf(live, id), p));
    ReadWithIngest(StateOf(live, id), p);
    hide ReadLive, ReadInstance, StateOf, WithIngest, ReadIngest;
  }

  lemma ReadWithIngest(s: Instance<MetricFamily>, p: Ingest<MetricFamily>)
    ensures ReadInstance(WithIngest(s, p)) == WithIngest(ReadInstance(s), ReadIngest(p))
  {
  }

  lemma ReadSetSource(live: Instances<MetricFamily>, id: string, source: Source, polled: Option<Objects>)
    ensures ReadLive(SetSource(live, id, source, polled)) == SetSource(ReadLive(live), id, source, ReadSource(polled))
  {
    ReadStateOf(live, id);
    ReadUpdate(live, id, WithSource(StateOf(live, id), source, polled));
    hide ReadLive, StateOf, ReadSource;
  }

  lemma ReadCollect(s: Store<MetricFamily>, now: int)
    ensures ReadLive(Live.Collect(s, now).live) == Live.Collect(Store(s.staging, ReadLive(s.live)), now).live
  {
    var expired := ExpiredAt(s.staging, now);
    var left, right := ReadLive(Live.Collect(s, now).live), Live.Collect(Store(s.staging, ReadLive(s.live)), now).live;
    assert left.Keys == right.Keys;
    forall id | id in left
      ensures left[id] == right[id]
    {
      ReadStateOf(s.live, id);
      ReadCharge(StateOf(s.live, id), |ChargedTo(s.staging, expired, id)|);
      hide StateOf, ReadInstance, Charge, ChargedTo;
    }
    hide ReadLive, Collected;
    assert left == right;
  }

  lemma ReadCharge(s: Instance<MetricFamily>, count: nat)
    ensures ReadInstance(Charge(s, count)) == Charge(ReadInstance(s), count)
  {
    hide ReadSource;
  }

  lemma ReadTtl(live: Instances<MetricFamily>, id: string, defaultTtl: int)
    ensures Ttl(ReadLive(live), id, defaultTtl) == Ttl(live, id, defaultTtl)
  {
    hide ReadSource, Truncate;
  }

  // ---- Between two states in which no family object was written ----

  /** What was read before is read again. */
  twostate lemma ReadingStays(live: Instances<MetricFamily>)
    requires forall f: MetricFamily :: old(allocated(f)) ==> f.View() == old(f.View())
    ensures ReadLive(live) == old(ReadLive(live))
  {
    forall id | id in live
      ensures ReadInstance(live[id]) == old(ReadInstance(live[id]))
    {
      InstanceStays(live[id]);
    }
    hide ReadInstance;
  }

  twostate lemma InstanceStays(s: Instance<MetricFamily>)
    requires forall f: MetricFamily :: old(allocated(f)) ==> f.View() == old(f.View())
    ensures ReadInstance(s) == old(ReadInstance(s))
  {
    SourceStays(s.ingested);
    SourceStays(s.polled);
    SourceStays(s.a2s);
    SourceStays(s.rcon);
    hide ReadSource;
  }

  twostate lemma SourceStays(families: Option<Objects>)
    requires forall f: MetricFamily :: old(allocated(f)) ==> f.View() == old(f.View())
    ensures ReadSource(families) == old(ReadSource(families))
    ensures families.Some? ==> ViewOf(families.value) == old(ViewOf(families.value))
  {
    if families.Some? {
      var m := families.value;
      assert forall n :: n in m ==> m[n].View() == old(m[n].View());
      assert ViewOf(m) == old(ViewOf(m));
    }
  }
}
