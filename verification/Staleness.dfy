/**
 What a scrape says about pushed metrics, told from the log of an instance's published
 payloads alone: polls, collections and status requests leave no trace in it.
 */
module Staleness {
  import opened Wrappers
  import opened MapSums
  import opened Metrics
  import opened Live
  import opened Collector
  import opened System

  type Payload = Ingest<Family>

  /** The payload that an event publishes for an instance, if any. */
  ghost function PayloadsBy(s: State, e: Event, id: string): seq<Payload> {
    if e.Publish? && e.job in s.jobs && s.jobs[e.job].Parsed? && s.jobs[e.job].instanceId == id
    then [IngestOf(s.jobs[e.job], e.updated, e.ingested)]
    else []
  }

  ghost function Payloads(c: Config, es: seq<Event>, id: string): seq<Payload>
    requires IsRun(c, es)
  {
    if es == [] then []
    else
      var n := |es| - 1;
      PrefixIsRun(c, es, n);
      Payloads(c, es[..n], id) + PayloadsBy(After(c, es[..n]).value, es[n], id)
  }

  function BytesOf(log: seq<Payload>): int {
    if log == [] then 0 else BytesOf(log[..|log| - 1]) + log[|log| - 1].bytes
  }

  function ChunksOf(log: seq<Payload>): int {
    if log == [] then 0 else ChunksOf(log[..|log| - 1]) + log[|log| - 1].chunks
  }

  /** The status family of the latest payload that had one. */
  function LatestStatus(log: seq<Payload>): Option<Family> {
    if log == [] then None
    else
      var p := log[|log| - 1];
      if "dayz_metricz_status" in p.families then Some(p.families["dayz_metricz_status"]) else LatestStatus(log[..|log| - 1])
  }

  /** The pushed half of an instance is a function of its log. */
  ghost predicate Reflects(state: Instance<Family>, log: seq<Payload>) {
    && state.stats.totalBytes == BytesOf(log)
    && state.stats.totalChunks == ChunksOf(log)
    && state.cachedStatus == LatestStatus(log)
    && if log == [] then
         state.ingested.None? && state.lastIngestUpdate.None? && state.stats.lastIngest.None? && state.scrapeInterval == 0.0
       else
         var p := log[|log| - 1];
         && state.ingested == Some(p.families)
         && state.lastIngestUpdate == Some(p.updated)
         && state.stats.lastIngest == Some(p.ingested)
         && state.scrapeInterval == p.interval
  }

  lemma BlankReflectsNothing()
    ensures Reflects(Blank(), [])
  {
  }

  lemma PublishReflects(state: Instance<Family>, log: seq<Payload>, p: Payload)
    requires Reflects(state, log)
    ensures Reflects(WithIngest(state, p), log + [p])
  {
    assert (log + [p])[..|log|] == log;
  }

  /** Everything but a publish for this instance leaves its pushed half alone. */
  lemma StepReflects(c: Config, s: State, e: Event, id: string, log: seq<Payload>)
    requires Enabled(c, s, e) && Reflects(StateOf(s.store.live, id), log)
    ensures Reflects(StateOf(Step(c, s, e).store.live, id), log + PayloadsBy(s, e, id))
  {
    assert log + [] == log;
    if e.Publish? && s.jobs[e.job].instanceId == id {
      PublishReflects(StateOf(s.store.live, id), log, IngestOf(s.jobs[e.job], e.updated, e.ingested));
    } else {
      hide BytesOf, ChunksOf, LatestStatus;
      if e.Clean? {
        CollectTouchesOnlyCounters(s.store, e.now, id);
        assert PayloadsBy(s, e, id) == [];
        CollectKeepsPushed(s.store, e.now, id, log);
      }
    }
  }

  lemma CollectKeepsPushed(s: Store<Family>, now: int, id: string, log: seq<Payload>)
    requires Reflects(StateOf(s.live, id), log)
    ensures Reflects(StateOf(Live.Collect(s, now).live, id), log)
  {
    CollectTouchesOnlyCounters(s, now, id);
    hide Live.Collect;
  }

  lemma PayloadsGrow(c: Config, es: seq<Event>, id: string)
    requires IsRun(c, es) && es != []
    ensures var n := |es| - 1;
      && IsRun(c, es[..n])
      && var s := After(c, es[..n]).value;
      && Enabled(c, s, es[n])
      && After(c, es).value == Step(c, s, es[n])
      && Payloads(c, es, id) == Payloads(c, es[..n], id) + PayloadsBy(s, es[n], id)
  {
    hide PayloadsBy, Step, Enabled;
    PrefixIsRun(c, es, |es| - 1);
  }

  lemma NothingPublished(c: Config, id: string)
    ensures After(c, []) == Some(INITIAL) && Payloads(c, [], id) == []
  {
  }

  /**
   After any run, an instance's pushed families, update time, interval and totals are
   those of its published payloads; its cached status is that of the latest payload that
   had one.
   */
  lemma {:induction false} LiveReflectsPayloads(c: Config, es: seq<Event>, id: string)
    requires IsRun(c, es)
    ensures Reflects(StateOf(After(c, es).value.store.live, id), Payloads(c, es, id))
  {
    hide Reflects, PayloadsBy, Step, Enabled, After, Payloads;
    if es == [] {
      NothingPublished(c, id);
      BlankReflectsNothing();
    } else {
      var n := |es| - 1;
      PayloadsGrow(c, es, id);
      LiveReflectsPayloads(c, es[..n], id);
      StepReflects(c, After(c, es[..n]).value, es[n], id, Payloads(c, es[..n], id));
    }
  }

  // ---- The lifetime of a new transaction ----

  /** The interval learned from the last payload, or the documented one if there was no payload yet. */
  function LearnedInterval(log: seq<Payload>): real {
    if log == [] then UNKNOWN_INTERVAL else log[|log| - 1].interval
  }

  /**
   After any run, a transaction opened for an instance gets the documented lifetime
   exactly when: nothing was published for it and the default is at least 60 seconds; or
   the last payload's interval is a whole number of seconds, or neither it nor its whole
   part exceeds the default. An instance that is only polled counts as unknown.
   */
  lemma LifetimeIsDocumentedExactlyWhen(c: Config, es: seq<Event>, id: string)
    requires IsRun(c, es)
    ensures var log := Payloads(c, es, id);
      var interval := LearnedInterval(log);
      Ttl(After(c, es).value.store.live, id, c.transactionTtl) as real == DocumentedTtl(c.transactionTtl, interval)
      <==>
      if log == [] then c.transactionTtl >= 60 * SECOND
      else
        || interval == interval.Floor as real
        || (interval * SECOND as real <= c.transactionTtl as real && WholeSeconds(interval) <= c.transactionTtl)
  {
    LiveReflectsPayloads(c, es, id);
    var live, log := After(c, es).value.store.live, Payloads(c, es, id);
    hide After, Payloads, IsRun, LatestStatus, BytesOf, ChunksOf;
    if log != [] {
      assert id in live && live[id].scrapeInterval == LearnedInterval(log);
      TtlIsDocumentedExactlyWhen(live, id, c.transactionTtl);
    }
  }

  // ---- The staleness switch ----

  /** The last moment at which a payload counts as fresh. */
  function FreshUntil(e: Exporter, p: Payload): int {
    p.updated + Threshold(e, p.interval)
  }

  /**
   The switch in terms of elapsed time and the exact product, without rounding: cutting
   the product down to whole nanoseconds makes no difference unless it is negative.
   */
  lemma StaleExactlyWhen(e: Exporter, p: Payload, now: int)
    ensures var elapsed, limit := now - p.updated, p.interval * e.staleMultiplier * SECOND as real;
      now > FreshUntil(e, p) <==>
        elapsed > e.minStaleAge && if limit >= 0.0 then elapsed as real > limit else (elapsed - 1) as real >= limit
  {
    var elapsed, limit := now - p.updated, p.interval * e.staleMultiplier * SECOND as real;
    var whole := Truncate(limit);
    assert Threshold(e, p.interval) == if whole > e.minStaleAge then whole else e.minStaleAge;
    TruncatedLimit(elapsed, limit);
  }

  lemma TruncatedLimit(elapsed: int, limit: real)
    ensures elapsed > Truncate(limit) <==> if limit >= 0.0 then elapsed as real > limit else (elapsed - 1) as real >= limit
  {
    var up := (-limit).Floor;
    assert limit < 0.0 ==> Truncate(limit) == -up;
    assert up as real <= -limit < up as real + 1.0;
  }

  /** What a scrape sends as pushed metrics, given the log. */
  ghost function Reported(e: Exporter, log: seq<Payload>, now: int): multiset<Sent> {
    if log == [] then multiset{}
    else if now <= FreshUntil(e, log[|log| - 1]) then EmitFamilies(e, log[|log| - 1].families)
    else if LatestStatus(log).Some? then
      multiset(ZeroSamples(e, LatestStatus(log).value, LatestStatus(log).value.samples))
    else multiset{}
  }

  /**
   At any time after any run, a scrape reports the last payload in full up to and at its
   deadline, and from then on nothing but the cached status forced to zero.
   */
  lemma ScrapeReportsTheLog(c: Config, es: seq<Event>, e: Exporter, id: string, now: int)
    requires IsRun(c, es)
    ensures EmitIngested(e, StateOf(After(c, es).value.store.live, id), now) == Reported(e, Payloads(c, es, id), now)
  {
    LiveReflectsPayloads(c, es, id);
    var state, log := StateOf(After(c, es).value.store.live, id), Payloads(c, es, id);
    hide Payloads, After, EmitFamilies, ZeroSamples, LatestStatus, BytesOf, ChunksOf, Threshold;
    assert state.ingested.Some? ==> (IsStale(e, state, now) <==> now > FreshUntil(e, log[|log| - 1]));
  }

  /** Event `k` of the run publishes nothing for the instance. */
  ghost predicate SilentAt(c: Config, es: seq<Event>, k: nat, id: string)
    requires IsRun(c, es) && k < |es|
  {
    PayloadsBy(At(c, es, k), es[k], id) == []
  }

  ghost function PayloadsAt(c: Config, es: seq<Event>, i: nat, id: string): seq<Payload>
    requires IsRun(c, es) && i <= |es|
  {
    PrefixIsRun(c, es, i);
    Payloads(c, es[..i], id)
  }

  lemma SilentStep(c: Config, es: seq<Event>, k: nat, id: string)
    requires IsRun(c, es) && k < |es| && SilentAt(c, es, k, id)
    ensures PayloadsAt(c, es, k + 1, id) == PayloadsAt(c, es, k, id)
  {
    PrefixIsRun(c, es, k + 1);
    PayloadsGrow(c, es[..k + 1], id);
    assert es[..k + 1][..k] == es[..k];
    assert PayloadsAt(c, es, k, id) + [] == PayloadsAt(c, es, k, id);
  }

  /** Only a publish for the instance changes its log. */
  lemma {:induction false} SilenceKeepsPayloads(c: Config, es: seq<Event>, i: nat, j: nat, id: string)
    requires IsRun(c, es) && i <= j <= |es|
    requires forall k :: i <= k < j ==> SilentAt(c, es, k, id)
    ensures PayloadsAt(c, es, j, id) == PayloadsAt(c, es, i, id)
    decreases j
  {
    hide PayloadsAt, SilentAt, IsRun;
    if i < j {
      SilenceKeepsPayloads(c, es, i, j - 1, id);
      SilentStep(c, es, j - 1, id);
    }
  }

  ghost function ReportedAt(c: Config, es: seq<Event>, i: nat, e: Exporter, id: string, now: int): multiset<Sent>
    requires IsRun(c, es) && i <= |es|
  {
    EmitIngested(e, StateOf(At(c, es, i).store.live, id), now)
  }

  lemma ReportedAtIs(c: Config, es: seq<Event>, i: nat, e: Exporter, id: string, now: int)
    requires IsRun(c, es) && i <= |es|
    ensures ReportedAt(c, es, i, e, id, now) == Reported(e, PayloadsAt(c, es, i, id), now)
  {
    PrefixIsRun(c, es, i);
    ScrapeReportsTheLog(c, es[..i], e, id, now);
  }

  /**
   As long as nothing is published for an instance, its report depends on the clock
   only: polls, collections, status requests, other instances' payloads and its own
   uploads and rejected payloads do not refresh it. Fresh means fresh until the
   deadline; once stale it stays stale, with the same report, at every later time.
   */
  lemma OnlyPublishingRefreshes(c: Config, es: seq<Event>, i: nat, j: nat, e: Exporter, id: string, now: int, later: int)
    requires IsRun(c, es) && i <= j <= |es| && now <= later
    requires forall k :: i <= k < j ==> SilentAt(c, es, k, id)
    requires PayloadsAt(c, es, i, id) != []
    ensures var log := PayloadsAt(c, es, i, id);
      var deadline := FreshUntil(e, log[|log| - 1]);
      && (later <= deadline ==> ReportedAt(c, es, j, e, id, later) == EmitFamilies(e, log[|log| - 1].families))
      && (now > deadline ==> ReportedAt(c, es, j, e, id, later) == ReportedAt(c, es, i, e, id, now))
  {
    SilenceKeepsPayloads(c, es, i, j, id);
    ReportedAtIs(c, es, i, e, id, now);
    ReportedAtIs(c, es, j, e, id, later);
    hide PayloadsAt, SilentAt, ReportedAt, IsRun, EmitFamilies, ZeroSamples, LatestStatus, Threshold;
  }

  // ---- What the two branches contain ----

  /** The sample as it is to be sent: with its value, or with zero if it is not of its family's type. */
  ghost predicate IsReading(x: Sent, e: Exporter, f: Family, s: Sample) {
    && (f.kind == GaugeKind || f.kind == CounterKind) && e.Accepts(f.name, s.labels)
    && x.Sent? && x.name == f.name && x.labels == s.labels && x.kind == f.kind
    && (forall v :: f.kind == GaugeKind && s.value == Gauge(v) ==> x.value == v)
    && (forall v :: f.kind == CounterKind && s.value == Counter(v) ==> x.value == v)
    && (!(f.kind == GaugeKind && s.value.Gauge?) && !(f.kind == CounterKind && s.value.Counter?) ==> x.value == 0.0)
  }

  /** A status sample forced to zero; one that the client library refuses is sent as nil. */
  ghost predicate IsZeroed(x: Sent, e: Exporter, f: Family, s: Sample) {
    if e.Accepts(f.name, s.labels) then x == Sent(f.name, s.labels, GaugeKind, 0.0) else x == Nil
  }

  lemma {:induction false} EmitsEverySample(e: Exporter, f: Family, samples: seq<Sample>, x: Sent)
    ensures x in EmitSamples(e, f, samples) <==> exists s :: s in samples && IsReading(x, e, f, s)
  {
    if samples != [] {
      var n := |samples| - 1;
      var init, last := samples[..n], samples[n];
      EmitsEverySample(e, f, init, x);
      assert samples == init + [last];
      assert x in EmitSample(e, f, last) <==> IsReading(x, e, f, last);
      assert x in EmitSamples(e, f, samples) <==> x in EmitSamples(e, f, init) || x in EmitSample(e, f, last);
      hide IsReading, EmitSamples, EmitSample;
      assert forall s :: s in samples <==> s in init || s == last;
    }
  }

  /** While fresh, every accepted gauge or counter sample is sent with its value, and nothing else. */
  lemma FreshMeansEverySample(e: Exporter, families: Families, x: Sent)
    ensures x in EmitFamilies(e, families)
            <==> exists n, s :: n in families && s in families[n].samples && IsReading(x, e, families[n], s)
  {
    var per := PerFamily(e, families);
    if x in EmitFamilies(e, families) {
      var n := GatherMember(per, x);
      assert x in EmitSamples(e, families[n], families[n].samples);
      EmitsEverySample(e, families[n], families[n].samples, x);
    }
    if n, s :| n in families && s in families[n].samples && IsReading(x, e, families[n], s) {
      EmitsEverySample(e, families[n], families[n].samples, x);
      assert x in per[n];
      SentIsGathered(per, n, x);
    }
  }

  lemma SentIsGathered(per: map<string, multiset<Sent>>, n: string, x: Sent)
    requires n in per && x in per[n]
    ensures x in Gather(per)
  {
    GatherRemove(per, n);
  }

  /** Once stale, everything sent is a zero gauge under the name and a label list of the latest cached status. */
  lemma StaleMeansZeroedStatus(e: Exporter, log: seq<Payload>, now: int, x: Sent)
    requires log != [] && now > FreshUntil(e, log[|log| - 1])
    ensures x in Reported(e, log, now) <==>
              && LatestStatus(log).Some?
              && var f := LatestStatus(log).value;
              exists s :: s in f.samples && IsZeroed(x, e, f, s)
  {
    if LatestStatus(log).Some? {
      var f := LatestStatus(log).value;
      var zeros := ZeroSamples(e, f, f.samples);
      assert x in Reported(e, log, now) <==> x in zeros;
      if x in zeros {
        var i :| 0 <= i < |zeros| && zeros[i] == x;
        assert f.samples[i] in f.samples && IsZeroed(x, e, f, f.samples[i]);
      }
      if s :| s in f.samples && IsZeroed(x, e, f, s) {
        var i :| 0 <= i < |f.samples| && f.samples[i] == s;
        assert zeros[i] == x;
      }
    }
  }
}
