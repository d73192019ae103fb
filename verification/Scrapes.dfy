/**
 A whole scrape after any run, in plain terms: which series are sent, under which names
 and labels and with which values, told from what was published, polled and swept.
 */
module Scrapes {
  import opened Wrappers
  import opened MapSums
  import opened Metrics
  import opened Staging
  import opened Live
  import opened Normaliser
  import opened Collector
  import opened System
  import opened Staleness
  import opened Provenance
  import opened Expiry

  // ---- The queried half of an instance ----

  /** What was last polled for the instance from the source; nothing if it never was. */
  ghost function LastPolled(es: seq<Event>, id: string, source: Source): Option<Families> {
    if es == [] then None
    else
      var e := es[|es| - 1];
      if e.Poll? && e.instanceId == id && e.source == source then e.polled else LastPolled(es[..|es| - 1], id, source)
  }

  ghost predicate Queried(state: Instance<Family>, es: seq<Event>, id: string) {
    && state.polled == LastPolled(es, id, Polled)
    && state.a2s == LastPolled(es, id, A2S)
    && state.rcon == LastPolled(es, id, RCon)
  }

  lemma StepQueries(c: Config, s: State, init: seq<Event>, es: seq<Event>, id: string)
    requires es != [] && init == es[..|es| - 1] && Enabled(c, s, es[|es| - 1])
    requires Queried(StateOf(s.store.live, id), init, id)
    ensures Queried(StateOf(Step(c, s, es[|es| - 1]).store.live, id), es, id)
  {
    hide Staging.Append, Retrieve, Outcome, IntervalOf, Ttl, Live.Collect, Render, Renderable, IsHit;
    var e := es[|es| - 1];
    if e.Clean? {
      CollectTouchesOnlyCounters(s.store, e.now, id);
    }
    if e.Poll? {
      PollQueries(StateOf(s.store.live, id), init, es, id);
      hide LastPolled;
    }
  }

  lemma PollQueries(state: Instance<Family>, init: seq<Event>, es: seq<Event>, id: string)
    requires es != [] && init == es[..|es| - 1] && es[|es| - 1].Poll? && Queried(state, init, id)
    ensures var e := es[|es| - 1];
      Queried(if e.instanceId == id then WithSource(state, e.source, e.polled) else state, es, id)
  {
  }

  /** After any run each queried source holds what was last polled for it: publishes and sweeps leave it alone. */
  lemma {:induction false} QueriedIsLastPolled(c: Config, es: seq<Event>, id: string)
    requires IsRun(c, es)
    ensures Queried(StateOf(After(c, es).value.store.live, id), es, id)
  {
    if es == [] {
      NothingPublished(c, id);
      hide After, IsRun;
    } else {
      var init := es[..|es| - 1];
      PayloadsGrow(c, es, id);
      hide After, IsRun, Step, Enabled, Queried, Payloads;
      QueriedIsLastPolled(c, init, id);
      StepQueries(c, After(c, init).value, init, es, id);
    }
  }

  // ---- The parts of a scrape ----

  ghost predicate FromFamilies(e: Exporter, families: Families, x: Sent) {
    exists n, s :: n in families && s in families[n].samples && IsReading(x, e, families[n], s)
  }

  ghost predicate FromSource(e: Exporter, families: Option<Families>, x: Sent) {
    families.Some? && FromFamilies(e, families.value, x)
  }

  lemma SourceSends(e: Exporter, families: Option<Families>, x: Sent)
    ensures x in EmitSource(e, families) <==> FromSource(e, families, x)
  {
    if families.Some? {
      FreshMeansEverySample(e, families.value, x);
    }
    hide IsReading;
  }

  /** The exporter's own series of an instance. */
  ghost predicate IsOwn(id: string, x: Sent, bytes: int, chunks: int, expired: int, lastIngest: Option<int>) {
    var labels := [Label("instance_id", id)];
    || x == Sent("metricz_ingest_bytes_total", labels, CounterKind, bytes as real)
    || x == Sent("metricz_ingest_chunks_total", labels, CounterKind, chunks as real)
    || x == Sent("metricz_ingest_transactions_expired_total", labels, CounterKind, expired as real)
    || (lastIngest.Some? &&
        x == Sent("metricz_ingest_last_timestamp_seconds", labels, GaugeKind, (lastIngest.value / 1_000_000_000) as real))
  }

  lemma TechnicalIsOwn(id: string, state: Instance<Family>, x: Sent)
    ensures x in Technical(id, state)
            <==> IsOwn(id, x, state.stats.totalBytes, state.stats.totalChunks, state.stats.expired, state.stats.lastIngest)
  {
  }

  ghost predicate OwnAfter(c: Config, es: seq<Event>, id: string, x: Sent)
    requires IsRun(c, es)
  {
    var log := Payloads(c, es, id);
    IsOwn(id, x, BytesOf(log), ChunksOf(log), DropsOf(c, es, Some(id), true), if log == [] then None else Some(log[|log| - 1].ingested))
  }

  ghost predicate QueriedAfter(e: Exporter, es: seq<Event>, id: string, x: Sent) {
    || FromSource(e, LastPolled(es, id, Polled), x)
    || FromSource(e, LastPolled(es, id, A2S), x)
    || FromSource(e, LastPolled(es, id, RCon), x)
  }

  /** The last payload while fresh; once stale, the cached status forced to zero. */
  ghost predicate PushedAfter(e: Exporter, log: seq<Payload>, now: int, x: Sent) {
    && log != []
    && var p := log[|log| - 1];
    if now <= FreshUntil(e, p) then FromFamilies(e, p.families, x)
    else
      && LatestStatus(log).Some?
      && exists s :: s in LatestStatus(log).value.samples && IsZeroed(x, e, LatestStatus(log).value, s)
  }

  lemma ReportedIsPushed(e: Exporter, log: seq<Payload>, now: int, x: Sent)
    ensures x in Reported(e, log, now) <==> PushedAfter(e, log, now, x)
  {
    hide IsReading, IsZeroed, LatestStatus, FreshUntil, EmitFamilies, ZeroSamples;
    if log != [] {
      if now <= FreshUntil(e, log[|log| - 1]) {
        FreshMeansEverySample(e, log[|log| - 1].families, x);
      } else {
        StaleMeansZeroedStatus(e, log, now, x);
      }
    }
  }

  lemma PushedIsSent(c: Config, es: seq<Event>, e: Exporter, id: string, now: int, x: Sent)
    requires IsRun(c, es)
    ensures x in EmitIngested(e, StateOf(After(c, es).value.store.live, id), now) <==> PushedAfter(e, Payloads(c, es, id), now, x)
  {
    hide IsRun, Payloads, EmitIngested, PushedAfter, Reported;
    ScrapeReportsTheLog(c, es, e, id, now);
    ReportedIsPushed(e, Payloads(c, es, id), now, x);
  }

  lemma OwnIsSent(c: Config, es: seq<Event>, id: string, x: Sent)
    requires IsRun(c, es)
    ensures x in Technical(id, StateOf(After(c, es).value.store.live, id)) <==> OwnAfter(c, es, id, x)
  {
    TechnicalIsOwn(id, StateOf(After(c, es).value.store.live, id), x);
    LiveReflectsPayloads(c, es, id);
    CounterCountsOwnSweeps(c, es, id);
    hide IsRun, After, Payloads, DropsOf, Technical, StateOf, LatestStatus, BytesOf, ChunksOf;
  }

  lemma QueriedIsSent(c: Config, es: seq<Event>, e: Exporter, id: string, x: Sent)
    requires IsRun(c, es)
    ensures var state := StateOf(After(c, es).value.store.live, id);
      x in EmitSource(e, state.polled) + EmitSource(e, state.a2s) + EmitSource(e, state.rcon) <==> QueriedAfter(e, es, id, x)
  {
    QueriedIsLastPolled(c, es, id);
    SourceSends(e, LastPolled(es, id, Polled), x);
    SourceSends(e, LastPolled(es, id, A2S), x);
    SourceSends(e, LastPolled(es, id, RCon), x);
    hide IsRun, After, LastPolled, EmitSource, FromSource, StateOf;
  }

  ghost predicate SentFor(c: Config, es: seq<Event>, e: Exporter, id: string, now: int, x: Sent)
    requires IsRun(c, es)
  {
    OwnAfter(c, es, id, x) || QueriedAfter(e, es, id, x) || PushedAfter(e, Payloads(c, es, id), now, x)
  }

  lemma InstanceSends(c: Config, es: seq<Event>, e: Exporter, id: string, now: int, x: Sent)
    requires IsRun(c, es)
    ensures x in EmitInstance(e, id, StateOf(After(c, es).value.store.live, id), now) <==> SentFor(c, es, e, id, now, x)
  {
    OwnIsSent(c, es, id, x);
    QueriedIsSent(c, es, e, id, x);
    PushedIsSent(c, es, e, id, now, x);
    hide IsRun, After, Payloads, StateOf, Technical, EmitSource, EmitIngested, OwnAfter, QueriedAfter, PushedAfter;
  }

  /**
   After any run, one scrape sends exactly: for every known instance its own counters, every
   accepted gauge and counter sample of what was last polled for it, and of its last payload
   while that is fresh, or else its cached status as zeros.
   */
  lemma ScrapeIsExactly(c: Config, es: seq<Event>, e: Exporter, now: int, x: Sent)
    requires IsRun(c, es)
    ensures var live := After(c, es).value.store.live;
      x in Gather(PerInstance(e, live, now)) <==> exists id :: id in live && SentFor(c, es, e, id, now, x)
  {
    var live := After(c, es).value.store.live;
    var per := PerInstance(e, live, now);
    forall id | id in live
      ensures x in per[id] <==> SentFor(c, es, e, id, now, x)
    {
      InstanceSends(c, es, e, id, now, x);
      hide SentFor, EmitInstance;
    }
    assert per.Keys == live.Keys;
    hide SentFor, EmitInstance, IsRun, After, PerInstance;
    GatheredExactlyIfHeld(per, x);
  }

  lemma GatheredExactlyIfHeld(per: map<string, multiset<Sent>>, x: Sent)
    ensures x in Gather(per) <==> exists id :: id in per && x in per[id]
  {
    if x in Gather(per) {
      var id := GatherMember(per, x);
      assert id in per && x in per[id];
    }
    if id :| id in per && x in per[id] {
      SentIsGathered(per, id, x);
    }
  }

  // ---- The announced interval ----

  lemma LearnedIsAnnounced(c: Config, es: seq<Event>, id: string, v: real)
    requires IsRun(c, es) && Payloads(c, es, id) != []
    requires IntervalFor(Payloads(c, es, id)[|Payloads(c, es, id)| - 1].families, v)
    ensures Payloads(c, es, id)[|Payloads(c, es, id)| - 1].interval == v
    ensures id in After(c, es).value.store.live && After(c, es).value.store.live[id].scrapeInterval == v
  {
    var log := Payloads(c, es, id);
    var p := log[|log| - 1];
    EveryPayloadWasSent(c, es, id, p);
    IntervalIsAnnounced(p.families, v);
    LiveReflectsPayloads(c, es, id);
    hide After, IsRun, Payloads, ParsedFrom, IntervalFor, IntervalOf, LatestStatus, BytesOf, ChunksOf;
  }

  lemma WholeSecondsLive(live: Instances<Family>, id: string, defaultTtl: int)
    requires id in live
    ensures var v := live[id].scrapeInterval;
      var whole := v.Floor * 1_000_000_000;
      && (v >= 0.0 ==> Ttl(live, id, defaultTtl) == if whole > defaultTtl then whole else defaultTtl)
      && (v < 0.0 && defaultTtl >= 0 ==> Ttl(live, id, defaultTtl) == defaultTtl)
  {
    WholeSecondsTruncate(live[id].scrapeInterval);
    TtlBounds(live, id, defaultTtl);
    hide Truncate;
  }

  lemma StaleByAnnounced(e: Exporter, p: Payload, now: int)
    ensures var elapsed, limit := now - p.updated, p.interval * e.staleMultiplier * 1_000_000_000.0;
      now > FreshUntil(e, p) <==>
        elapsed > e.minStaleAge && if limit >= 0.0 then elapsed as real > limit else (elapsed - 1) as real >= limit
  {
    StaleExactlyWhen(e, p, now);
    hide Threshold, FreshUntil;
  }

  /**
   After any run, with `v` announced by the last payload, or 60 where it announces none:
   the next transaction lives `v` in whole seconds if that is more than the default, and the
   payload counts as stale once both the minimum age and `v` times the multiplier are over.
   */
  lemma AnnouncedIntervalRules(c: Config, es: seq<Event>, e: Exporter, id: string, now: int, v: real)
    requires IsRun(c, es) && Payloads(c, es, id) != []
    requires IntervalFor(Payloads(c, es, id)[|Payloads(c, es, id)| - 1].families, v)
    ensures var whole := v.Floor * 1_000_000_000;
      var ttl := Ttl(After(c, es).value.store.live, id, c.transactionTtl);
      && (v >= 0.0 ==> ttl == if whole > c.transactionTtl then whole else c.transactionTtl)
      && (v < 0.0 && c.transactionTtl >= 0 ==> ttl == c.transactionTtl)
    ensures var p := Payloads(c, es, id)[|Payloads(c, es, id)| - 1];
      var elapsed, limit := now - p.updated, v * e.staleMultiplier * 1_000_000_000.0;
      now > FreshUntil(e, p) <==>
        elapsed > e.minStaleAge && if limit >= 0.0 then elapsed as real > limit else (elapsed - 1) as real >= limit
  {
    hide After, Payloads, IntervalFor, Ttl, FreshUntil;
    LearnedIsAnnounced(c, es, id, v);
    WholeSecondsLive(After(c, es).value.store.live, id, c.transactionTtl);
    StaleByAnnounced(e, Payloads(c, es, id)[|Payloads(c, es, id)| - 1], now);
  }
}
