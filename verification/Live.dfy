/**
 The live store as a value: one entry per instance, with its pushed and polled
 families. `F` is the type of a family: the store only moves families around, so
 the same functions describe it over objects and over values.
 */
module Live {
  import opened Wrappers
  import opened MapSums
  import opened Metrics
  import opened Staging

  datatype Stats = Stats(lastIngest: Option<int>, totalBytes: int, totalChunks: int, expired: int)

  datatype Instance<F> = Instance(
    lastIngestUpdate: Option<int>,
    ingested: Option<map<string, F>>,
    cachedStatus: Option<F>,
    polled: Option<map<string, F>>,
    a2s: Option<map<string, F>>,
    rcon: Option<map<string, F>>,
    stats: Stats,
    scrapeInterval: real)

  type Instances<F> = map<string, Instance<F>>

  datatype Store<F> = Store(staging: Buffer, live: Instances<F>)

  /** A freshly created state: everything absent or zero. */
  function Blank<F>(): Instance<F> {
    Instance(None, None, None, None, None, None, Stats(None, 0, 0, 0), 0.0)
  }

  function StateOf<F>(live: Instances<F>, id: string): Instance<F> {
    if id in live then live[id] else Blank()
  }

  /** One accepted payload: what `UpdateIngested` is called with, and the two clock readings it takes. */
  datatype Ingest<F> = Ingest(families: map<string, F>, interval: real, bytes: int, chunks: int, updated: int, ingested: int)

  function WithIngest<F>(state: Instance<F>, p: Ingest<F>): Instance<F> {
    state.(
      ingested := Some(p.families),
      lastIngestUpdate := Some(p.updated),
      scrapeInterval := p.interval,
      stats := state.stats.(
        lastIngest := Some(p.ingested),
        totalBytes := state.stats.totalBytes + p.bytes,
        totalChunks := state.stats.totalChunks + p.chunks),
      cachedStatus := if STATUS_FAMILY in p.families then Some(p.families[STATUS_FAMILY]) else state.cachedStatus)
  }

  function Publish<F>(live: Instances<F>, id: string, p: Ingest<F>): Instances<F> {
    live[id := WithIngest(StateOf(live, id), p)]
  }

  datatype Source = Polled | A2S | RCon

  function WithSource<F>(state: Instance<F>, source: Source, families: Option<map<string, F>>): Instance<F> {
    match source
    case Polled => state.(polled := families)
    case A2S => state.(a2s := families)
    case RCon => state.(rcon := families)
  }

  function SetSource<F>(live: Instances<F>, id: string, source: Source, families: Option<map<string, F>>): Instances<F> {
    live[id := WithSource(StateOf(live, id), source, families)]
  }

  const SECOND := 1_000_000_000

  /** Conversion of a float to an integer drops the fraction, towards zero. */
  function Truncate(r: real): int {
    if r >= 0.0 then r.Floor else -((-r).Floor)
  }

  /** Lifetime of a new transaction: the default, or the instance's known interval in whole seconds if longer. */
  function Ttl<F>(live: Instances<F>, id: string, defaultTtl: int): int {
    if id in live && Truncate(live[id].scrapeInterval) * SECOND > defaultTtl
    then Truncate(live[id].scrapeInterval) * SECOND
    else defaultTtl
  }

  /** The transactions among `done` that belong to an instance. */
  ghost function ChargedTo(b: Buffer, done: set<string>, id: string): set<string> {
    set h | h in done && h in b.items && b.items[h].instanceId == id
  }

  ghost function Owners(b: Buffer, done: set<string>): set<string> {
    set h | h in done && h in b.items :: b.items[h].instanceId
  }

  function Charge<F>(state: Instance<F>, count: nat): Instance<F> {
    state.(stats := state.stats.(expired := state.stats.expired + count))
  }

  /** The state of a garbage collection that has dropped the transactions in `done` so far. */
  ghost function Collected<F>(s: Store<F>, done: set<string>): Store<F> {
    Store(
      Remove(s.staging, done),
      map id | id in s.live.Keys + Owners(s.staging, done) ::
        Charge(StateOf(s.live, id), |ChargedTo(s.staging, done, id)|))
  }

  ghost function Collect<F>(s: Store<F>, now: int): Store<F> {
    Collected(s, ExpiredAt(s.staging, now))
  }

  /** The documented lifetime: the default, or the instance's interval if that is longer. */
  function DocumentedTtl(defaultTtl: int, interval: real): real {
    if interval * SECOND as real > defaultTtl as real then interval * SECOND as real else defaultTtl as real
  }

  /** The interval that the documentation assumes for an instance of which none is known. */
  const UNKNOWN_INTERVAL := 60.0

  /**
   An instance never heard of gets the default lifetime, not the documented 60 seconds;
   that makes a difference exactly when the default is shorter.
   */
  lemma UnknownInstanceGetsDefaultTtl<F>(live: Instances<F>, id: string, defaultTtl: int)
    requires id !in live
    ensures Ttl(live, id, defaultTtl) == defaultTtl
    ensures Ttl(live, id, defaultTtl) as real == DocumentedTtl(defaultTtl, UNKNOWN_INTERVAL) <==> defaultTtl >= 60 * SECOND
  {
  }

  /** The interval in whole seconds, cut towards zero, as nanoseconds. */
  function WholeSeconds(interval: real): int {
    SECOND * if interval >= 0.0 || interval == interval.Floor as real then interval.Floor else interval.Floor + 1
  }

  /**
   A known instance gets the documented lifetime exactly when its interval is a whole
   number of seconds, or neither it nor its whole part exceeds the default.
   */
  lemma TtlIsDocumentedExactlyWhen<F>(live: Instances<F>, id: string, defaultTtl: int)
    requires id in live
    ensures var interval := live[id].scrapeInterval;
      Ttl(live, id, defaultTtl) as real == DocumentedTtl(defaultTtl, interval)
      <==>
      || interval == interval.Floor as real
      || (interval * SECOND as real <= defaultTtl as real && WholeSeconds(interval) <= defaultTtl)
    ensures var interval := live[id].scrapeInterval;
      interval >= 0.0 && interval * SECOND as real <= defaultTtl as real ==> WholeSeconds(interval) <= defaultTtl
  {
    var interval := live[id].scrapeInterval;
    WholeSecondsTruncate(interval);
    hide Truncate;
  }

  lemma WholeSecondsTruncate(interval: real)
    ensures Truncate(interval) * SECOND == WholeSeconds(interval)
    ensures interval == interval.Floor as real ==> WholeSeconds(interval) as real == interval * SECOND as real
    ensures interval >= 0.0 ==> WholeSeconds(interval) as real <= interval * SECOND as real
    ensures interval <= 0.0 ==> WholeSeconds(interval) as real >= interval * SECOND as real
    ensures interval != interval.Floor as real ==> WholeSeconds(interval) as real != interval * SECOND as real
  {
    var up := (-interval).Floor;
    assert up as real <= -interval < up as real + 1.0;
    assert interval.Floor as real <= interval < interval.Floor as real + 1.0;
  }

  /** An interval of 15.5 seconds and a default of 15 seconds: the half second is lost. */
  lemma FractionIsLost<F>(id: string) returns (live: Instances<F>)
    ensures id in live && live[id].scrapeInterval == 15.5
    ensures Ttl(live, id, 15 * SECOND) == 15 * SECOND
    ensures DocumentedTtl(15 * SECOND, 15.5) == 15.5 * SECOND as real
  {
    live := map[id := Blank().(scrapeInterval := 15.5)];
  }

  /**
   A known instance's lifetime is the default or the interval without its fraction: never
   longer than both, and less than a second short of the interval. A negative interval
   never prolongs it.
   */
  lemma TtlBounds<F>(live: Instances<F>, id: string, defaultTtl: int)
    requires id in live
    ensures Ttl(live, id, defaultTtl) >= defaultTtl
    ensures Ttl(live, id, defaultTtl) as real > (live[id].scrapeInterval - 1.0) * SECOND as real
    ensures Ttl(live, id, defaultTtl) == defaultTtl
            || Ttl(live, id, defaultTtl) as real <= live[id].scrapeInterval * SECOND as real
            || (live[id].scrapeInterval < 0.0 && defaultTtl < Ttl(live, id, defaultTtl) <= 0)
    ensures live[id].scrapeInterval < 0.0 && defaultTtl >= 0 ==> Ttl(live, id, defaultTtl) == defaultTtl
  {
    var interval := live[id].scrapeInterval;
    var whole := Truncate(interval);
    assert interval >= 0.0 ==> whole as real <= interval < whole as real + 1.0;
    assert interval < 0.0 ==> interval <= whole as real <= 0.0;
    assert (whole * SECOND) as real == whole as real * SECOND as real;
  }

  /** With one open transaction per instance, one collection charges an instance at most once. */
  lemma AtMostOneChargePerPass<F>(s: Store<F>, max: int, now: int, id: string)
    requires Inv(s.staging, max)
    ensures id in Collect(s, now).live ==>
              var before, after := StateOf(s.live, id).stats.expired, Collect(s, now).live[id].stats.expired;
              && before <= after <= before + 1
              && (after == before + 1 <==> exists h :: h in ExpiredAt(s.staging, now) && s.staging.items[h].instanceId == id)
  {
    var charged := ChargedTo(s.staging, ExpiredAt(s.staging, now), id);
    if h :| h in charged {
      forall g | g in charged
        ensures g == h
      {
        assert g != h ==> Unrelated(s.staging.items, g, h);
      }
      assert charged == {h};
    } else {
      assert charged == {};
      assert forall h :: h in ExpiredAt(s.staging, now) && s.staging.items[h].instanceId == id ==> h in charged;
    }
  }

  /** A collection changes nothing in the live store but the expiry counters. */
  lemma CollectTouchesOnlyCounters<F>(s: Store<F>, now: int, id: string)
    ensures s.live.Keys <= Collect(s, now).live.Keys
    ensures id in Collect(s, now).live ==>
              var before, after := StateOf(s.live, id), Collect(s, now).live[id];
              after == before.(stats := before.stats.(expired := after.stats.expired))
  {
  }

  // ---- A sweep, one transaction at a time ----

  lemma CollectedNone<F>(s: Store<F>)
    ensures Collected(s, {}) == s
  {
    RemoveNone(s.staging);
    assert Owners(s.staging, {}) == {};
    forall id
      ensures ChargedTo(s.staging, {}, id) == {}
    {
    }
    assert Collected(s, {}).live == s.live;
  }

  lemma CollectedKeeps<F>(s: Store<F>, done: set<string>, key: string)
    requires key !in done
    ensures key in Collected(s, done).staging.items <==> key in s.staging.items
    ensures key in s.staging.items ==> Collected(s, done).staging.items[key] == s.staging.items[key]
  {
  }

  lemma CollectedAt<F>(s: Store<F>, done: set<string>, id: string)
    ensures StateOf(Collected(s, done).live, id) == Charge(StateOf(s.live, id), |ChargedTo(s.staging, done, id)|)
  {
    if id !in Collected(s, done).live {
      assert ChargedTo(s.staging, done, id) == {} by {
        forall h | h in ChargedTo(s.staging, done, id)
          ensures id in Owners(s.staging, done)
        {
        }
      }
    }
  }

  lemma ChargedStep(b: Buffer, done: set<string>, key: string, id: string)
    requires key in b.items && key !in done
    ensures |ChargedTo(b, done + {key}, id)| == |ChargedTo(b, done, id)| + (if b.items[key].instanceId == id then 1 else 0)
    ensures Owners(b, done + {key}) == Owners(b, done) + {b.items[key].instanceId}
  {
    var more := if b.items[key].instanceId == id then {key} else {};
    assert ChargedTo(b, done + {key}, id) == ChargedTo(b, done, id) + more;
  }

  /** Dropping one more transaction adds one to its owner's counter and nothing elsewhere. */
  lemma CollectedStep<F>(s: Store<F>, done: set<string>, key: string)
    requires key in s.staging.items && key !in done
    ensures var owner := s.staging.items[key].instanceId;
      var before, after := Collected(s, done), Collected(s, done + {key});
      && after.staging == Buffer(before.staging.items - {key}, before.staging.size - s.staging.items[key].byteSize)
      && after.live == before.live[owner := Charge(StateOf(before.live, owner), 1)]
  {
    RemoveStep(s.staging, done, key);
    var owner := s.staging.items[key].instanceId;
    ChargedStep(s.staging, done, key, owner);
    CollectedAt(s, done, owner);
    CollectedAt(s, done + {key}, owner);
    var before, after := Collected(s, done).live, Collected(s, done + {key}).live;
    assert after.Keys == before.Keys + {owner};
    forall id | id in before && id != owner
      ensures after[id] == before[id]
    {
      ChargedStep(s.staging, done, key, id);
    }
    EntrySet(before, after, owner);
  }
}
