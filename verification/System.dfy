/**
 The exporter as one state machine. Every method of the store is one step, which its locks
 make it (see `Refinement` and `Interleaving`); a commit is three steps (retrieve, parse,
 publish) and a status request three (look up, snapshot, fill), and steps of different
 requests interleave freely.
 Clock readings are arguments of the steps and need not be ordered: readings taken under
 different locks may come out of order.
 */
module System {
  import opened Wrappers
  import opened Metrics
  import opened Text
  import opened Staging
  import opened Live
  import opened Labels
  import opened Normaliser
  import opened PublicStatus

  datatype Config = Config(lib: Libraries, maxStaging: int, transactionTtl: int, overwrite: bool, cacheTtl: int, public: ExportConfig)

  datatype Body = One(data: PublicData) | Full(all: map<string, PublicData>)

  datatype CacheItem = CacheItem(body: Body, expiresAt: int)

  /** A request between two of its steps. */
  datatype Job =
    | Received(instanceId: string, text: Bytes, bytes: int, chunks: int)
    | Parsed(instanceId: string, families: Families, bytes: int, chunks: int)
    | Missed(key: string, all: bool)
    | Rendering(key: string, all: bool, snapshot: Instances<Family>)

  datatype State = State(store: Store<Family>, cache: map<string, CacheItem>, jobs: map<nat, Job>)

  const INITIAL := State(Store(EMPTY, map[]), map[], map[])

  datatype Event =
    | Append(txnHash: string, instanceId: string, seqId: int, data: Bytes, now: int)
    | Commit(job: nat, instanceId: string, txnHash: string, now: int)
    | Post(job: nat, instanceId: string, body: Bytes)
    | Parse(job: nat, result: Result<Families, ParseError>)
    | Publish(job: nat, updated: int, ingested: int)
    | Poll(instanceId: string, source: Source, polled: Option<Families>)
    | Clean(now: int)
    | Lookup(job: nat, key: string, all: bool, now: int)
    | Snapshot(job: nat)
    | Fill(job: nat, now: int)

  /** The cache key of the full status. */
  const ALL := "all"

  ghost predicate Enabled(c: Config, s: State, e: Event) {
    match e
    case Append(_, _, _, _, _) => true
    case Commit(job, _, _, _) => job !in s.jobs
    case Post(job, _, _) => job !in s.jobs
    case Parse(job, result) =>
      job in s.jobs && s.jobs[job].Received? && Outcome(c.lib, s.jobs[job].text, s.jobs[job].instanceId, c.overwrite, result)
    case Publish(job, _, _) => job in s.jobs && s.jobs[job].Parsed?
    case Poll(_, _, _) => true
    case Clean(_) => true
    case Lookup(job, key, all, _) => job !in s.jobs && (all ==> key == ALL)
    case Snapshot(job) => job in s.jobs && s.jobs[job].Missed?
    case Fill(job, _) => job in s.jobs && s.jobs[job].Rendering? && Renderable(s.jobs[job])
  }

  ghost function AppendAt(c: Config, s: State, e: Event): Appended
    requires e.Append?
  {
    Staging.Append(s.store.staging, c.maxStaging, e.txnHash, e.instanceId, e.seqId, e.data, e.now,
                   Ttl(s.store.live, e.instanceId, c.transactionTtl))
  }

  function IngestOf(job: Job, updated: int, ingested: int): Ingest<Family>
    requires job.Parsed?
  {
    Ingest(job.families, IntervalOf(job.families), job.bytes, job.chunks, updated, ingested)
  }

  predicate IsHit(s: State, key: string, now: int) {
    key in s.cache && now < s.cache[key].expiresAt
  }

  /** A single status needs its instance in the snapshot. */
  predicate Renderable(job: Job)
    requires job.Rendering?
  {
    job.all || job.key in job.snapshot
  }

  ghost function Render(c: Config, job: Job): Body
    requires job.Rendering? && Renderable(job)
  {
    if job.all then Full(map id | id in job.snapshot :: PublicOf(job.snapshot[id], c.public))
    else One(PublicOf(job.snapshot[job.key], c.public))
  }

  ghost function Step(c: Config, s: State, e: Event): State
    requires Enabled(c, s, e)
  {
    match e
    case Append(_, _, _, _, _) =>
      s.(store := s.store.(staging := AppendAt(c, s, e).buffer))
    case Commit(job, instanceId, txnHash, now) =>
      var (rest, found) := Retrieve(s.store.staging, txnHash, now);
      s.(store := s.store.(staging := rest),
         jobs := if found.Stream? then s.jobs[job := Received(instanceId, found.text, found.totalSize, found.chunkCount)] else s.jobs)
    case Post(job, instanceId, body) =>
      s.(jobs := s.jobs[job := Received(instanceId, body, |body|, 1)])
    case Parse(job, result) =>
      var j := s.jobs[job];
      s.(jobs := match result
                 case Ok(families) => s.jobs[job := Parsed(j.instanceId, families, j.bytes, j.chunks)]
                 case Err(_) => s.jobs - {job})
    case Publish(job, updated, ingested) =>
      var j := s.jobs[job];
      s.(store := s.store.(live := Live.Publish(s.store.live, j.instanceId, IngestOf(j, updated, ingested))), jobs := s.jobs - {job})
    case Poll(instanceId, source, polled) =>
      s.(store := s.store.(live := SetSource(s.store.live, instanceId, source, polled)))
    case Clean(now) =>
      s.(store := Live.Collect(s.store, now))
    case Lookup(job, key, all, now) =>
      if IsHit(s, key, now) then s else s.(jobs := s.jobs[job := Missed(key, all)])
    case Snapshot(job) =>
      var j := Rendering(s.jobs[job].key, s.jobs[job].all, s.store.live);
      s.(jobs := if Renderable(j) then s.jobs[job := j] else s.jobs - {job})
    case Fill(job, now) =>
      var j := s.jobs[job];
      s.(cache := s.cache[j.key := CacheItem(Render(c, j), now + c.cacheTtl)], jobs := s.jobs - {job})
  }

  /** The state after a sequence of events from the start, if every event was possible where it happened. */
  ghost function After(c: Config, es: seq<Event>): Option<State> {
    if es == [] then Some(INITIAL)
    else
      match After(c, es[..|es| - 1])
      case None => None
      case Some(s) => if Enabled(c, s, es[|es| - 1]) then Some(Step(c, s, es[|es| - 1])) else None
  }

  ghost predicate IsRun(c: Config, es: seq<Event>) {
    After(c, es).Some?
  }

  /** The state in which event `i` of a run happens. */
  ghost function At(c: Config, es: seq<Event>, i: nat): State
    requires IsRun(c, es) && i <= |es|
  {
    PrefixIsRun(c, es, i);
    After(c, es[..i]).value
  }

  lemma {:induction false} PrefixIsRun(c: Config, es: seq<Event>, i: nat)
    requires IsRun(c, es) && i <= |es|
    ensures IsRun(c, es[..i])
  {
    if i == |es| {
      assert es[..i] == es;
    } else {
      var init := es[..|es| - 1];
      PrefixIsRun(c, init, i);
      assert init[..i] == es[..i];
    }
  }

  /** A run's events happen one after the other. */
  lemma RunStep(c: Config, es: seq<Event>, i: nat)
    requires IsRun(c, es) && i < |es|
    ensures Enabled(c, At(c, es, i), es[i])
    ensures At(c, es, i + 1) == Step(c, At(c, es, i), es[i])
    ensures At(c, es, |es|) == After(c, es).value
  {
    PrefixIsRun(c, es, i + 1);
    PrefixIsRun(c, es, i);
    assert es[..i + 1][..i] == es[..i];
    assert es[..|es|] == es;
  }

  /** A run goes on with any event that is possible where it ends. */
  lemma OneMore(c: Config, es: seq<Event>, e: Event)
    requires IsRun(c, es) && Enabled(c, After(c, es).value, e)
    ensures IsRun(c, es + [e]) && After(c, es + [e]).value == Step(c, After(c, es).value, e)
  {
    assert (es + [e])[..|es|] == es;
    hide Enabled, Step;
  }

  lemma RunEnd(c: Config, es: seq<Event>)
    requires IsRun(c, es)
    ensures At(c, es, |es|) == After(c, es).value
  {
    assert es[..|es|] == es;
  }

  lemma AtPrefix(c: Config, es: seq<Event>, n: nat, i: nat)
    requires IsRun(c, es) && i <= n <= |es|
    ensures IsRun(c, es[..n]) && At(c, es[..n], i) == At(c, es, i)
  {
    PrefixIsRun(c, es, n);
    assert es[..n][..i] == es[..i];
  }
}
