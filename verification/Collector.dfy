/**
 The Prometheus scrape: what one `Collect` sends on the channel for a snapshot of the
 live store. Map iteration order is open, so the specification is a multiset.
 */
module Collector {
  import opened Wrappers
  import opened Ordering
  import opened MapSums
  import opened Metrics
  import opened Live
  import opened Labels
  import opened Dedup
  import opened Normaliser

  /** A metric on the channel; a status sample that the client library refuses is sent as nil. */
  datatype Sent = Sent(name: string, labels: seq<Label>, kind: Kind, value: real) | Nil

  /** The exporter's settings, and which names and labels the client library accepts. */
  datatype Exporter = Exporter(staleMultiplier: real, minStaleAge: int, acceptable: (string, seq<Label>) -> bool) {
    predicate Accepts(name: string, labels: seq<Label>) {
      acceptable(name, labels)
    }
  }

  // ---- What is emitted for one family ----

  /** The sample's value read through the getter of the family's type: zero if it is of another type. */
  function Reading(kind: Kind, value: Value): real {
    if (kind.GaugeKind? && value.Gauge?) || (kind.CounterKind? && value.Counter?) then value.v else 0.0
  }

  function EmitSample(e: Exporter, f: Family, s: Sample): seq<Sent> {
    if f.kind.OtherKind? || !e.Accepts(f.name, s.labels) then []
    else [Sent(f.name, s.labels, f.kind, Reading(f.kind, s.value))]
  }

  function EmitSamples(e: Exporter, f: Family, samples: seq<Sample>): seq<Sent> {
    if samples == [] then []
    else EmitSamples(e, f, samples[..|samples| - 1]) + EmitSample(e, f, samples[|samples| - 1])
  }

  function ZeroSample(e: Exporter, f: Family, s: Sample): Sent {
    if e.Accepts(f.name, s.labels) then Sent(f.name, s.labels, GaugeKind, 0.0) else Nil
  }

  function ZeroSamples(e: Exporter, f: Family, samples: seq<Sample>): seq<Sent> {
    seq(|samples|, i requires 0 <= i < |samples| => ZeroSample(e, f, samples[i]))
  }

  // ---- What is emitted for one instance, and for all ----

  ghost function PerFamily(e: Exporter, families: Families): map<string, multiset<Sent>> {
    map n | n in families :: multiset(EmitSamples(e, families[n], families[n].samples))
  }

  ghost function EmitFamilies(e: Exporter, families: Families): multiset<Sent> {
    Gather(PerFamily(e, families))
  }

  ghost function EmitSource(e: Exporter, families: Option<Families>): multiset<Sent> {
    if families.Some? then EmitFamilies(e, families.value) else multiset{}
  }

  function Threshold(e: Exporter, interval: real): int {
    var calculated := Truncate(interval * e.staleMultiplier * SECOND as real);
    if calculated > e.minStaleAge then calculated else e.minStaleAge
  }

  /** An update time that was never set lies before every other time. */
  predicate IsStale(e: Exporter, state: Instance<Family>, now: int) {
    state.lastIngestUpdate.None? || now - state.lastIngestUpdate.value > Threshold(e, state.scrapeInterval)
  }

  /** The ingested families while fresh; once stale only the cached status, forced to zero. */
  ghost function EmitIngested(e: Exporter, state: Instance<Family>, now: int): multiset<Sent> {
    if state.ingested.None? then multiset{}
    else if !IsStale(e, state, now) then EmitFamilies(e, state.ingested.value)
    else if state.cachedStatus.Some? then multiset(ZeroSamples(e, state.cachedStatus.value, state.cachedStatus.value.samples))
    else multiset{}
  }

  function Own(id: string, name: string, kind: Kind, value: int): Sent {
    Sent(name, [Label(INSTANCE_ID, id)], kind, value as real)
  }

  /** The exporter's own counters; the last ingest is reported in whole seconds once there was one. */
  function Technical(id: string, state: Instance<Family>): seq<Sent> {
    [Own(id, "metricz_ingest_bytes_total", CounterKind, state.stats.totalBytes),
     Own(id, "metricz_ingest_chunks_total", CounterKind, state.stats.totalChunks),
     Own(id, "metricz_ingest_transactions_expired_total", CounterKind, state.stats.expired)]
    + if state.stats.lastIngest.Some?
      then [Own(id, "metricz_ingest_last_timestamp_seconds", GaugeKind, state.stats.lastIngest.value / SECOND)] else []
  }

  ghost function EmitInstance(e: Exporter, id: string, state: Instance<Family>, now: int): multiset<Sent> {
    multiset(Technical(id, state))
    + EmitSource(e, state.polled) + EmitSource(e, state.a2s) + EmitSource(e, state.rcon)
    + EmitIngested(e, state, now)
  }

  ghost function PerInstance(e: Exporter, states: Instances<Family>, now: int): map<string, multiset<Sent>> {
    map id | id in states :: EmitInstance(e, id, states[id], now)
  }

  ghost function IngestedPerInstance(e: Exporter, states: Instances<Family>, now: int): map<string, multiset<Sent>> {
    map id | id in states :: EmitIngested(e, states[id], now)
  }

  /** Everything ingested or zeroed that one scrape sends, over all instances. */
  ghost function AllIngested(e: Exporter, states: Instances<Family>, now: int): multiset<Sent> {
    Gather(IngestedPerInstance(e, states, now))
  }

  /** The rest of an instance's part: the exporter's own counters and what was polled. */
  ghost function EmitRest(e: Exporter, id: string, state: Instance<Family>): multiset<Sent> {
    multiset(Technical(id, state)) + EmitSource(e, state.polled) + EmitSource(e, state.a2s) + EmitSource(e, state.rcon)
  }

  ghost function AllRest(e: Exporter, states: Instances<Family>): multiset<Sent> {
    Gather(map id | id in states :: EmitRest(e, id, states[id]))
  }

  /** One scrape is the pushed part and the rest; only the pushed part depends on the clock. */
  lemma ScrapeIsPushedAndRest(e: Exporter, states: Instances<Family>, now: int)
    ensures Gather(PerInstance(e, states, now)) == AllIngested(e, states, now) + AllRest(e, states)
  {
    hide EmitIngested, EmitSource, Technical;
    GatherPlus(IngestedPerInstance(e, states, now), map id | id in states :: EmitRest(e, id, states[id]), PerInstance(e, states, now));
  }

  // ---- The loops ----

  method CollectFamily(e: Exporter, family: Family) returns (ch: seq<Sent>)
    ensures ch == EmitSamples(e, family, family.samples)
  {
    ch := [];
    var samples := family.samples;
    for i := 0 to |samples|
      invariant ch == EmitSamples(e, family, samples[..i])
    {
      assert samples[..i + 1][..i] == samples[..i];
      var m := samples[i];
      var val := 0.0;
      var send := false;
      match family.kind {
        case GaugeKind =>
          send := true;
          if m.value.Gauge? {
            val := m.value.v;
          }
        case CounterKind =>
          send := true;
          if m.value.Counter? {
            val := m.value.v;
          }
        case OtherKind =>
      }
      if send && e.Accepts(family.name, m.labels) {
        ch := ch + [Sent(family.name, m.labels, family.kind, val)];
      }
    }
    assert samples[..|samples|] == samples;
  }

  method CollectFamilies(e: Exporter, families: Families) returns (ch: seq<Sent>)
    ensures multiset(ch) == EmitFamilies(e, families)
  {
    ghost var whole := PerFamily(e, families);
    ch := [];
    var order := RangeOrder(families.Keys);
    GatherEnds(whole, order);
    for i := 0 to |order|
      invariant multiset(ch) == GatherFirst(whole, order, i)
    {
      FirstOccurrence(order, i);
      assert order[i] in whole;
      GatherTurn(whole, order, i);
      hide GatherFirst, EmitSamples;
      var sent := CollectFamily(e, families[order[i]]);
      ch := ch + sent;
    }
  }

  method CollectStatusZero(e: Exporter, family: Family) returns (ch: seq<Sent>)
    ensures ch == ZeroSamples(e, family, family.samples)
  {
    ch := [];
    for i := 0 to |family.samples|
      invariant |ch| == i && forall k :: 0 <= k < i ==> ch[k] == ZeroSample(e, family, family.samples[k])
    {
      ch := ch + [ZeroSample(e, family, family.samples[i])];
    }
  }

  method CollectSource(e: Exporter, families: Option<Families>) returns (ch: seq<Sent>)
    ensures multiset(ch) == EmitSource(e, families)
  {
    ch := [];
    if families.Some? {
      ch := CollectFamilies(e, families.value);
    }
  }

  /** The staleness switch. */
  method CollectIngested(e: Exporter, state: Instance<Family>, now: int) returns (ch: seq<Sent>)
    ensures multiset(ch) == EmitIngested(e, state, now)
  {
    ch := [];
    if state.ingested.Some? {
      if IsStale(e, state, now) {
        if state.cachedStatus.Some? {
          ch := CollectStatusZero(e, state.cachedStatus.value);
        }
      } else {
        ch := CollectFamilies(e, state.ingested.value);
      }
    }
  }

  method CollectInstance(e: Exporter, id: string, state: Instance<Family>, now: int) returns (ch: seq<Sent>)
    ensures multiset(ch) == EmitInstance(e, id, state, now)
  {
    hide EmitSource, EmitIngested, Technical;
    var polled := CollectSource(e, state.polled);
    var a2s := CollectSource(e, state.a2s);
    var rcon := CollectSource(e, state.rcon);
    var ingested := CollectIngested(e, state, now);
    ch := Technical(id, state) + polled + a2s + rcon + ingested;
  }

  /** One scrape over a snapshot. */
  method Collect(e: Exporter, states: Instances<Family>, now: int) returns (ch: seq<Sent>)
    ensures multiset(ch) == Gather(PerInstance(e, states, now))
  {
    hide EmitInstance, EmitIngested, EmitSource, Technical;
    ghost var whole := PerInstance(e, states, now);
    ch := [];
    var order := RangeOrder(states.Keys);
    GatherEnds(whole, order);
    for i := 0 to |order|
      invariant multiset(ch) == GatherFirst(whole, order, i)
    {
      FirstOccurrence(order, i);
      assert order[i] in whole && whole[order[i]] == EmitInstance(e, order[i], states[order[i]], now);
      GatherTurn(whole, order, i);
      hide GatherFirst;
      var sent := CollectInstance(e, order[i], states[order[i]], now);
      ch := ch + sent;
    }
  }

  // ---- No series twice ----

  /** The live store's promise about what was ingested for an instance. */
  ghost predicate Sound(id: string, state: Instance<Family>) {
    && (state.ingested.Some? ==> WellFormed(state.ingested.value, id))
    && (state.cachedStatus.Some? ==> WellFormedFamily(state.cachedStatus.value, STATUS_FAMILY, id))
  }

  /** Sent for one family of an instance: the family's name over one of its label lists. */
  ghost predicate ComesFrom(x: Sent, f: Family) {
    x.Nil? || (x.name == f.name && exists k :: 0 <= k < |f.samples| && f.samples[k].labels == x.labels)
  }

  ghost predicate SentDiffer(ch: seq<Sent>, i: nat, j: nat)
    requires i < |ch| && j < |ch|
  {
    ch[i].Sent? && ch[j].Sent? ==> ch[i].labels != ch[j].labels
  }

  ghost predicate SeparateSeries(ch: seq<Sent>) {
    forall i, j :: 0 <= i < j < |ch| ==> SentDiffer(ch, i, j)
  }

  lemma {:induction false} EmittedOncePerSample(e: Exporter, f: Family, samples: seq<Sample>)
    requires LabelsDistinct(samples)
    ensures var ch := EmitSamples(e, f, samples);
      && SeparateSeries(ch)
      && forall x :: x in ch ==> x.Sent? && x.name == f.name && exists k :: 0 <= k < |samples| && samples[k].labels == x.labels
  {
    if samples != [] {
      var n := |samples| - 1;
      var before, ch := EmitSamples(e, f, samples[..n]), EmitSamples(e, f, samples);
      forall i, j | 0 <= i < j < n
        ensures LabelsDiffer(samples[..n], i, j)
      {
        assert LabelsDiffer(samples, i, j);
      }
      EmittedOncePerSample(e, f, samples[..n]);
      forall x | x in before
        ensures x.labels != samples[n].labels
        ensures exists k :: 0 <= k < |samples| && samples[k].labels == x.labels
      {
        var k :| 0 <= k < n && samples[..n][k].labels == x.labels;
        assert LabelsDiffer(samples, k, n);
        assert samples[k].labels == x.labels;
      }
      forall i, j | 0 <= i < j < |ch|
        ensures SentDiffer(ch, i, j)
      {
        assert ch[i] in before;
        assert j < |before| ==> SentDiffer(before, i, j);
      }
    }
  }

  lemma ZeroedOncePerSample(e: Exporter, f: Family)
    requires LabelsDistinct(f.samples)
    ensures SeparateSeries(ZeroSamples(e, f, f.samples))
    ensures forall x :: x in ZeroSamples(e, f, f.samples) ==> ComesFrom(x, f)
  {
    var ch := ZeroSamples(e, f, f.samples);
    forall i, j | 0 <= i < j < |ch|
      ensures SentDiffer(ch, i, j)
    {
      assert LabelsDiffer(f.samples, i, j);
    }
    forall x | x in ch
      ensures ComesFrom(x, f)
    {
      var k :| 0 <= k < |ch| && ch[k] == x;
      assert x.Sent? ==> f.samples[k].labels == x.labels;
    }
  }

  /** Series of one family occur once each. */
  ghost predicate OncePerLabels(m: multiset<Sent>) {
    && (forall x :: x in m && x.Sent? ==> m[x] == 1)
    && (forall x, y :: x in m && y in m && x.Sent? && y.Sent? && x.name == y.name && x.labels == y.labels ==> x == y)
  }

  lemma {:induction false} SeparateIsOnce(ch: seq<Sent>)
    requires SeparateSeries(ch)
    ensures OncePerLabels(multiset(ch))
  {
    if ch != [] {
      var n := |ch| - 1;
      var before, last := ch[..n], ch[n];
      forall i, j | 0 <= i < j < n
        ensures SentDiffer(before, i, j)
      {
        assert SentDiffer(ch, i, j);
      }
      SeparateIsOnce(before);
      assert ch == before + [last];
      forall x | x in before && x.Sent? && last.Sent?
        ensures x.labels != last.labels
      {
        var i :| 0 <= i < n && before[i] == x;
        assert SentDiffer(ch, i, n);
      }
      assert forall x :: x in multiset(before) <==> x in before;
      assert multiset(ch) == multiset(before) + multiset{last};
    }
  }

  lemma FamiliesOnce(e: Exporter, families: Families, id: string)
    requires WellFormed(families, id)
    ensures OncePerLabels(EmitFamilies(e, families))
    ensures forall x :: x in EmitFamilies(e, families) ==> x.Sent? && Normal(x.labels, id)
  {
    var per := PerFamily(e, families);
    forall x | x in EmitFamilies(e, families)
      ensures x.Sent? && Normal(x.labels, id) && x.name in per && x in per[x.name]
      ensures EmitFamilies(e, families)[x] == 1
    {
      var n := GatherMember(per, x);
      FamilyOnce(e, families, id, n);
      forall j | j in per && j != n
        ensures x !in per[j]
      {
        FamilyOnce(e, families, id, j);
      }
      GatherUnique(per, n, x);
    }
    forall x, y | x in EmitFamilies(e, families) && y in EmitFamilies(e, families) && x.name == y.name && x.labels == y.labels
      ensures x == y
    {
      FamilyOnce(e, families, id, x.name);
    }
  }

  lemma FamilyOnce(e: Exporter, families: Families, id: string, n: string)
    requires WellFormed(families, id) && n in families
    ensures OncePerLabels(PerFamily(e, families)[n])
    ensures forall x :: x in PerFamily(e, families)[n] ==> x.Sent? && x.name == n && Normal(x.labels, id)
  {
    var f := families[n];
    assert WellFormedFamily(f, n, id);
    EmittedOncePerSample(e, f, f.samples);
    var ch := EmitSamples(e, f, f.samples);
    SeparateIsOnce(ch);
    forall x | x in PerFamily(e, families)[n]
      ensures x.Sent? && x.name == n && Normal(x.labels, id)
    {
      assert x in ch;
      var k :| 0 <= k < |f.samples| && f.samples[k].labels == x.labels;
    }
  }

  /** What one instance contributes, fresh or stale, has no series twice and names that instance in every label list. */
  lemma InstanceOnce(e: Exporter, id: string, state: Instance<Family>, now: int)
    requires Sound(id, state)
    ensures OncePerLabels(EmitIngested(e, state, now))
    ensures forall x :: x in EmitIngested(e, state, now) && x.Sent? ==> Normal(x.labels, id)
  {
    if state.ingested.Some? {
      if !IsStale(e, state, now) {
        FamiliesOnce(e, state.ingested.value, id);
      } else if state.cachedStatus.Some? {
        var f := state.cachedStatus.value;
        ZeroedOncePerSample(e, f);
        var ch := ZeroSamples(e, f, f.samples);
        SeparateIsOnce(ch);
        forall x: Sent | x in multiset(ch) && x.Sent?
          ensures Normal(x.labels, id)
        {
          assert x in ch;
          var k :| 0 <= k < |f.samples| && f.samples[k].labels == x.labels;
        }
      }
    }
  }

  /** Prometheus identifies a series by its name and label set. */
  predicate SameSeries(x: Sent, y: Sent) {
    x.Sent? && y.Sent? && x.name == y.name && LabelSet(x.labels) == LabelSet(y.labels)
  }

  /**
   All ingested or zeroed samples of one scrape, over all instances together, have
   pairwise distinct name and label set, and each is sent once.
   */
  lemma NoSeriesTwice(e: Exporter, states: Instances<Family>, now: int)
    requires forall id :: id in states ==> Sound(id, states[id])
    ensures forall x :: x in AllIngested(e, states, now) && x.Sent? ==> AllIngested(e, states, now)[x] == 1
    ensures forall x, y :: x in AllIngested(e, states, now) && y in AllIngested(e, states, now) && SameSeries(x, y) ==> x == y
  {
    forall x | x in AllIngested(e, states, now) && x.Sent?
      ensures AllIngested(e, states, now)[x] == 1
    {
      SentOnce(e, states, now, x);
    }
    forall x, y | x in AllIngested(e, states, now) && y in AllIngested(e, states, now) && SameSeries(x, y)
      ensures x == y
    {
      SameSeriesSameSample(e, states, now, x, y);
    }
  }

  lemma SentOnce(e: Exporter, states: Instances<Family>, now: int, x: Sent)
    requires forall id :: id in states ==> Sound(id, states[id])
    requires x in AllIngested(e, states, now) && x.Sent?
    ensures AllIngested(e, states, now)[x] == 1
  {
    var id := SenderOf(e, states, now, x);
    InstanceOnce(e, id, states[id], now);
    GatherUnique(IngestedPerInstance(e, states, now), id, x);
  }

  lemma SameSeriesSameSample(e: Exporter, states: Instances<Family>, now: int, x: Sent, y: Sent)
    requires forall id :: id in states ==> Sound(id, states[id])
    requires x in AllIngested(e, states, now) && y in AllIngested(e, states, now) && SameSeries(x, y)
    ensures x == y
  {
    hide AllIngested, EmitIngested, Sound;
    var i := SenderOf(e, states, now, x);
    var j := SenderOf(e, states, now, y);
    SortedLabelsAreCanonical(x.labels, y.labels);
    NormalNames(x.labels, i, Label(INSTANCE_ID, i), Label(INSTANCE_ID, j));
    assert i == j;
    InstanceOnce(e, i, states[i], now);
  }

  /** A sent series belongs to exactly one instance: the one that its labels name. */
  lemma SenderOf(e: Exporter, states: Instances<Family>, now: int, x: Sent) returns (id: string)
    requires forall id :: id in states ==> Sound(id, states[id])
    requires x in AllIngested(e, states, now) && x.Sent?
    ensures id in states && x in EmitIngested(e, states[id], now) && Normal(x.labels, id)
    ensures forall j :: j in states && j != id ==> x !in EmitIngested(e, states[j], now)
  {
    id := GatherMember(IngestedPerInstance(e, states, now), x);
    InstanceOnce(e, id, states[id], now);
    forall j | j in states && j != id
      ensures x !in EmitIngested(e, states[j], now)
    {
      InstanceOnce(e, j, states[j], now);
      if Normal(x.labels, j) {
        NormalNames(x.labels, id, Label(INSTANCE_ID, j), Label(INSTANCE_ID, id));
      }
    }
  }
}
