/** What holds in every reachable state, whatever the interleaving. */
module Reachable {
  import opened Wrappers
  import opened MapSums
  import opened Metrics
  import opened Staging
  import opened Live
  import opened Labels
  import opened Normaliser
  import opened Collector
  import opened PublicStatus
  import opened System

  // ---- The staging buffer ----

  lemma StepKeepsStaging(c: Config, s: State, e: Event)
    requires Inv(s.store.staging, c.maxStaging) && Enabled(c, s, e)
    ensures Inv(Step(c, s, e).store.staging, c.maxStaging)
  {
    hide Inv, Ttl;
    match e
    case Append(_, _, _, _, _) =>
      AppendKeepsInv(s.store.staging, c.maxStaging, e.txnHash, e.instanceId, e.seqId, e.data, e.now,
                     Ttl(s.store.live, e.instanceId, c.transactionTtl));
    case Commit(_, _, txnHash, now) =>
      RetrieveOutcome(s.store.staging, c.maxStaging, txnHash, now);
    case Clean(now) =>
      RemoveKeepsInv(s.store.staging, c.maxStaging, ExpiredAt(s.store.staging, now));
    case _ =>
  }

  lemma NothingStaged(c: Config)
    ensures After(c, []) == Some(INITIAL) && Inv(EMPTY, c.maxStaging)
  {
    assert Sizes(map[]) == map[];
  }

  /** The staging invariant holds in every reachable state, whatever the libraries do. */
  lemma {:induction false} ReachableStaging(c: Config, es: seq<Event>)
    requires IsRun(c, es)
    ensures Inv(After(c, es).value.store.staging, c.maxStaging)
  {
    hide Inv, Step, Enabled;
    if es == [] {
      NothingStaged(c);
    } else {
      var init := es[..|es| - 1];
      ReachableStaging(c, init);
      StepKeepsStaging(c, After(c, init).value, es[|es| - 1]);
    }
  }

  // ---- The live store ----

  /**
   Pushed families are present exactly when an ingest time is set and chunks have been
   counted; a cached status never stands alone.
   */
  ghost predicate Agrees(state: Instance<Family>) {
    && (state.ingested.Some? <==> state.lastIngestUpdate.Some?)
    && (state.ingested.Some? <==> state.stats.lastIngest.Some?)
    && (state.ingested.Some? <==> state.stats.totalChunks >= 1)
    && state.stats.totalChunks >= 0 && state.stats.totalBytes >= 0 && state.stats.expired >= 0
    && (state.cachedStatus.Some? ==> state.ingested.Some?)
  }

  ghost predicate AllAgree(live: Instances<Family>) {
    forall id :: id in live ==> Agrees(live[id])
  }

  ghost predicate Counted(job: Job) {
    match job
    case Received(_, _, bytes, chunks) => bytes >= 0 && chunks >= 1
    case Parsed(_, _, bytes, chunks) => bytes >= 0 && chunks >= 1
    case Missed(_, _) => true
    case Rendering(_, _, snapshot) => AllAgree(snapshot)
  }

  ghost predicate Fields(s: State) {
    && AllAgree(s.store.live)
    && forall j :: j in s.jobs ==> Counted(s.jobs[j])
  }

  /** Pushed families are well formed for their instance, in the store and on their way there. */
  ghost predicate AllSound(live: Instances<Family>) {
    forall id :: id in live ==> Sound(id, live[id])
  }

  ghost predicate Formed(job: Job) {
    match job
    case Received(_, _, _, _) => true
    case Parsed(id, families, _, _) => WellFormed(families, id)
    case Missed(_, _) => true
    case Rendering(_, _, snapshot) => AllSound(snapshot)
  }

  ghost predicate Contents(s: State) {
    && AllSound(s.store.live)
    && forall j :: j in s.jobs ==> Formed(s.jobs[j])
  }

  lemma CleanKeepsFields(s: Store<Family>, now: int)
    requires AllAgree(s.live)
    ensures AllAgree(Live.Collect(s, now).live)
  {
    var expired := ExpiredAt(s.staging, now);
    forall id | id in Live.Collect(s, now).live
      ensures Agrees(Live.Collect(s, now).live[id])
    {
      assert Agrees(StateOf(s.live, id));
      CollectTouchesOnlyCounters(s, now, id);
    }
  }

  lemma CommitKeepsFields(c: Config, s: State, e: Event)
    requires Inv(s.store.staging, c.maxStaging) && Fields(s) && e.Commit? && Enabled(c, s, e)
    ensures Fields(Step(c, s, e))
  {
    RetrieveOutcome(s.store.staging, c.maxStaging, e.txnHash, e.now);
    hide Inv, Retrieve, Agrees;
  }

  lemma PublishKeepsFields(c: Config, s: State, e: Event)
    requires Fields(s) && e.Publish? && Enabled(c, s, e)
    ensures Fields(Step(c, s, e))
  {
    var id := s.jobs[e.job].instanceId;
    assert Counted(s.jobs[e.job]) && Agrees(StateOf(s.store.live, id));
    assert Agrees(WithIngest(StateOf(s.store.live, id), IngestOf(s.jobs[e.job], e.updated, e.ingested)));
    hide Agrees, Counted;
  }

  lemma StepKeepsFields(c: Config, s: State, e: Event)
    requires Inv(s.store.staging, c.maxStaging) && Fields(s) && Enabled(c, s, e)
    ensures Fields(Step(c, s, e))
  {
    hide Inv, Outcome, Staging.Append, Retrieve, Live.Publish, Live.Collect, Ttl, IntervalOf, Agrees;
    match e
    case Commit(_, _, _, _) => CommitKeepsFields(c, s, e);
    case Publish(_, _, _) => PublishKeepsFields(c, s, e);
    case Poll(id, source, polled) => PollKeepsFields(StateOf(s.store.live, id), source, polled);
    case Clean(now) => CleanKeepsFields(s.store, now);
    case _ =>
  }

  lemma PollKeepsFields(state: Instance<Family>, source: Source, polled: Option<Families>)
    ensures Agrees(WithSource(state, source, polled)) <==> Agrees(state)
    ensures Agrees(Blank())
  {
  }

  lemma StepKeepsContents(c: Config, s: State, e: Event)
    requires DecodesDistinctNames(c.lib) && Contents(s) && Enabled(c, s, e)
    ensures Contents(Step(c, s, e))
  {
    hide Staging.Append, Staging.Retrieve, Ttl, IntervalOf;
    match e
    case Parse(job, result) =>
      if result.Ok? {
        OutcomeIsWellFormed(c.lib, s.jobs[job].text, s.jobs[job].instanceId, c.overwrite, result.value);
      }
      hide Outcome;
    case Publish(job, updated, ingested) =>
      PublishKeepsSound(s.store.live, s.jobs[job], updated, ingested);
    case Poll(id, source, polled) =>
      assert Sound(id, WithSource(StateOf(s.store.live, id), source, polled));
    case Clean(now) =>
      CleanKeepsSound(s.store, now);
    case _ =>
  }

  lemma PublishKeepsSound(live: Instances<Family>, job: Job, updated: int, ingested: int)
    requires AllSound(live) && job.Parsed? && Formed(job)
    ensures AllSound(Live.Publish(live, job.instanceId, IngestOf(job, updated, ingested)))
  {
    var id, p := job.instanceId, IngestOf(job, updated, ingested);
    assert Sound(id, StateOf(live, id));
    if STATUS_FAMILY in job.families {
      assert WellFormedFamily(job.families[STATUS_FAMILY], STATUS_FAMILY, id);
    }
    assert Sound(id, WithIngest(StateOf(live, id), p));
  }

  lemma CleanKeepsSound(s: Store<Family>, now: int)
    requires AllSound(s.live)
    ensures AllSound(Live.Collect(s, now).live)
  {
    forall id | id in Live.Collect(s, now).live
      ensures Sound(id, Live.Collect(s, now).live[id])
    {
      assert Sound(id, StateOf(s.live, id));
      CollectTouchesOnlyCounters(s, now, id);
    }
  }

  /** The fields of every instance agree in every reachable state, whatever the libraries do. */
  lemma {:induction false} ReachableFields(c: Config, es: seq<Event>)
    requires IsRun(c, es)
    ensures Fields(After(c, es).value)
  {
    if es == [] {
      NothingStaged(c);
    } else {
      hide Fields, Step, Enabled, Inv;
      var init := es[..|es| - 1];
      ReachableFields(c, init);
      ReachableStaging(c, init);
      StepKeepsFields(c, After(c, init).value, es[|es| - 1]);
    }
  }

  /** With distinct label names from the decoder, all pushed families are well formed in every reachable state. */
  lemma {:induction false} ReachableContents(c: Config, es: seq<Event>)
    requires DecodesDistinctNames(c.lib) && IsRun(c, es)
    ensures Contents(After(c, es).value)
  {
    if es == [] {
      NothingStaged(c);
    } else {
      hide Contents, Step, Enabled;
      var init := es[..|es| - 1];
      ReachableContents(c, init);
      StepKeepsContents(c, After(c, init).value, es[|es| - 1]);
    }
  }

  // ---- Consequences ----

  /** At any time, no scrape sends an ingested or zeroed series twice. */
  lemma ScrapesNeverRepeatASeries(c: Config, es: seq<Event>, e: Exporter, now: int)
    requires DecodesDistinctNames(c.lib) && IsRun(c, es)
    ensures var sent := AllIngested(e, After(c, es).value.store.live, now);
      && (forall x :: x in sent && x.Sent? ==> sent[x] == 1)
      && (forall x, y :: x in sent && y in sent && SameSeries(x, y) ==> x == y)
  {
    ReachableContents(c, es);
    NoSeriesTwice(e, After(c, es).value.store.live, now);
  }

  /** The byte total is exact and within the quota, and no instance has two open transactions. */
  lemma StagingIsAccountedFor(c: Config, es: seq<Event>)
    requires IsRun(c, es)
    ensures var b := After(c, es).value.store.staging;
      && b.size == Sum(Sizes(b.items)) == Sum(ChunkBytes(b.items))
      && 0 <= b.size && (0 <= c.maxStaging ==> b.size <= c.maxStaging)
      && (forall h :: h in b.items ==> b.items[h].chunks != map[])
      && (forall g, h :: g in b.items && h in b.items && b.items[g].instanceId == b.items[h].instanceId ==> g == h)
  {
    ReachableStaging(c, es);
    var b := After(c, es).value.store.staging;
    Accounting(b, c.maxStaging);
    forall g, h | g in b.items && h in b.items && g != h
      ensures b.items[g].instanceId != b.items[h].instanceId
    {
      assert Unrelated(b.items, g, h);
    }
  }

  /** The public status never falls back to a cached status family. */
  lemma {:induction false} FallbackIsUnreachable(c: Config, es: seq<Event>, id: string)
    requires IsRun(c, es)
    requires id in After(c, es).value.store.live
    ensures Pushed(After(c, es).value.store.live[id]) == After(c, es).value.store.live[id].ingested
  {
    ReachableFields(c, es);
    assert Agrees(After(c, es).value.store.live[id]);
  }

  /** After any run, the family that counts under a name is the pushed one, else RCon's, else A2S's, else the polled one. */
  lemma PublicFollowsPrecedence(c: Config, es: seq<Event>, id: string, n: string, f: Family)
    requires IsRun(c, es) && id in After(c, es).value.store.live
    ensures var state := After(c, es).value.store.live[id];
      SourceOf(state, n) == Some(f)
      <==>
      || Has(state.ingested, n, f)
      || (HasNone(state.ingested, n) && Has(state.rcon, n, f))
      || (HasNone(state.ingested, n) && HasNone(state.rcon, n) && Has(state.a2s, n, f))
      || (HasNone(state.ingested, n) && HasNone(state.rcon, n) && HasNone(state.a2s, n) && Has(state.polled, n, f))
  {
    ReachableFields(c, es);
    var state := After(c, es).value.store.live[id];
    assert Agrees(state);
    hide After, IsRun, Fields, SourceOf, Has, HasNone;
    Precedence(state, n, f);
  }

  /** Live keys are never removed. */
  lemma StepKeepsInstances(c: Config, s: State, e: Event)
    requires Enabled(c, s, e)
    ensures s.store.live.Keys <= Step(c, s, e).store.live.Keys
  {
  }

  lemma {:induction false} InstancesStay(c: Config, es: seq<Event>, i: nat, j: nat)
    requires IsRun(c, es) && i <= j <= |es|
    ensures At(c, es, i).store.live.Keys <= At(c, es, j).store.live.Keys
    decreases j
  {
    hide IsRun, At;
    if i < j {
      InstancesStay(c, es, i, j - 1);
      NextKeepsInstances(c, es, j - 1);
    }
  }

  lemma NextKeepsInstances(c: Config, es: seq<Event>, i: nat)
    requires IsRun(c, es) && i < |es|
    ensures At(c, es, i).store.live.Keys <= At(c, es, i + 1).store.live.Keys
  {
    RunStep(c, es, i);
    hide At, Step, Enabled;
    StepKeepsInstances(c, At(c, es, i), es[i]);
  }

  /** Only a publish, a poll or a collection changes the live store; in particular a refused payload does not. */
  lemma WhoChangesLive(c: Config, s: State, e: Event)
    requires Enabled(c, s, e) && Step(c, s, e).store.live != s.store.live
    ensures e.Publish? || e.Poll? || e.Clean?
  {
  }
}
