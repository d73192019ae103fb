/**
 What a transaction holds, told from the events alone: the log of the accepted writes
 since the transaction was last opened. The quota, replacement, retrieval and sweeping
 decide whether a transaction is still there, never what it contains.
 */
module History {
  import opened Wrappers
  import opened Ordering
  import opened MapSums
  import opened Metrics
  import opened Text
  import opened Staging
  import opened Live
  import opened Normaliser
  import opened System
  import opened Reachable

  datatype Write = Write(seqId: int, data: Bytes)

  /** An upload since it was opened: by whom, until when, and what was accepted, in order. */
  datatype Upload = Upload(owner: string, deadline: int, writes: seq<Write>)

  ghost predicate Accepts(c: Config, s: State, e: Event) {
    e.Append? && AppendAt(c, s, e).accepted
  }

  /** An accepted append that finds nothing open under its hash starts a new upload. */
  ghost predicate Opens(c: Config, s: State, e: Event) {
    Accepts(c, s, e) && !IsOpen(s.store.staging, e.txnHash, e.now)
  }

  /** The upload last opened under a hash. */
  ghost function UploadOf(c: Config, es: seq<Event>, hash: string): Option<Upload>
    requires IsRun(c, es)
  {
    if es == [] then None
    else
      var init, e := es[..|es| - 1], es[|es| - 1];
      PrefixIsRun(c, es, |es| - 1);
      var before, s := UploadOf(c, init, hash), After(c, init).value;
      if !Accepts(c, s, e) || e.txnHash != hash then before
      else if Opens(c, s, e) then
        Some(Upload(e.instanceId, e.now + Ttl(s.store.live, e.instanceId, c.transactionTtl), [Write(e.seqId, e.data)]))
      else if before.Some? then Some(before.value.(writes := before.value.writes + [Write(e.seqId, e.data)]))
      else None
  }

  /** The last data written per sequence id. */
  function LastWritten(writes: seq<Write>): map<int, Bytes> {
    if writes == [] then map[]
    else LastWritten(writes[..|writes| - 1])[writes[|writes| - 1].seqId := writes[|writes| - 1].data]
  }

  ghost function TxnOf(u: Upload): Txn {
    Txn(u.deadline, LastWritten(u.writes), u.owner, Sum(Lengths(LastWritten(u.writes))))
  }

  lemma LastWrittenSnoc(writes: seq<Write>, w: Write)
    ensures LastWritten(writes + [w]) == LastWritten(writes)[w.seqId := w.data]
  {
    assert (writes + [w])[..|writes|] == writes;
  }

  /** The data under an id is that of the last write with this id. */
  ghost predicate IsLastWrite(writes: seq<Write>, i: nat, k: int, data: Bytes) {
    && i < |writes| && writes[i] == Write(k, data)
    && forall j :: i < j < |writes| ==> writes[j].seqId != k
  }

  lemma {:induction false} LastWrittenIsLast(writes: seq<Write>, k: int)
    ensures k in LastWritten(writes) <==> exists i: nat :: i < |writes| && writes[i].seqId == k
    ensures k in LastWritten(writes) ==> exists i: nat :: IsLastWrite(writes, i, k, LastWritten(writes)[k])
  {
    if writes != [] {
      var n := |writes| - 1;
      var init := writes[..n];
      LastWrittenIsLast(init, k);
      assert forall i :: 0 <= i < n ==> init[i] == writes[i];
      if writes[n].seqId == k {
        assert IsLastWrite(writes, n, k, writes[n].data);
      } else if k in LastWritten(init) {
        var i: nat :| IsLastWrite(init, i, k, LastWritten(init)[k]);
        assert IsLastWrite(writes, i, k, LastWritten(init)[k]);
      }
    }
  }

  /** What one event does to the transaction under a hash. */
  lemma StepOnTxn(c: Config, s: State, e: Event, hash: string)
    requires Inv(s.store.staging, c.maxStaging) && Enabled(c, s, e)
    requires hash in Step(c, s, e).store.staging.items
    ensures var t' := Step(c, s, e).store.staging.items[hash];
      if !Accepts(c, s, e) || e.txnHash != hash then hash in s.store.staging.items && t' == s.store.staging.items[hash]
      else if Opens(c, s, e) then
        && t'.instanceId == e.instanceId && t'.chunks == map[e.seqId := e.data]
        && t'.expiresAt == e.now + Ttl(s.store.live, e.instanceId, c.transactionTtl)
      else
        && hash in s.store.staging.items
        && var t := s.store.staging.items[hash];
        && t'.instanceId == t.instanceId && t'.expiresAt == t.expiresAt && t'.chunks == t.chunks[e.seqId := e.data]
  {
    if e.Append? {
      AppendOnTxn(c, s, e);
    }
  }

  lemma AppendOnTxn(c: Config, s: State, e: Event)
    requires Inv(s.store.staging, c.maxStaging) && e.Append?
    ensures var b, r := s.store.staging, AppendAt(c, s, e);
      && (!r.accepted ==> forall h :: h in r.buffer.items ==> h in b.items && r.buffer.items[h] == b.items[h])
      && (r.accepted ==>
            && e.txnHash in r.buffer.items
            && (forall h :: h in r.buffer.items && h != e.txnHash ==> h in b.items && r.buffer.items[h] == b.items[h])
            && var t' := r.buffer.items[e.txnHash];
            if IsOpen(b, e.txnHash, e.now) then
              && t'.instanceId == b.items[e.txnHash].instanceId && t'.expiresAt == b.items[e.txnHash].expiresAt
              && t'.chunks == b.items[e.txnHash].chunks[e.seqId := e.data]
            else
              && t'.instanceId == e.instanceId && t'.chunks == map[e.seqId := e.data]
              && t'.expiresAt == e.now + Ttl(s.store.live, e.instanceId, c.transactionTtl))
  {
    var b, ttl := s.store.staging, Ttl(s.store.live, e.instanceId, c.transactionTtl);
    hide Staging.Append, Inv, Ttl;
    if IsOpen(b, e.txnHash, e.now) {
      AppendToOpen(b, c.maxStaging, e.txnHash, e.instanceId, e.seqId, e.data, e.now, ttl);
    } else {
      AppendToNew(b, c.maxStaging, e.txnHash, e.instanceId, e.seqId, e.data, e.now, ttl);
    }
  }

  // ---- When a transaction leaves ----

  /**
   A commit takes it, a collection finds it expired, a refused append resets it after its
   deadline, or its instance opens another one.
   */
  ghost predicate Ends(c: Config, s: State, e: Event, hash: string)
    requires hash in s.store.staging.items
  {
    var t := s.store.staging.items[hash];
    match e
    case Commit(_, _, txnHash, _) => txnHash == hash
    case Clean(now) => IsExpired(t, now)
    case Append(txnHash, instanceId, _, _, now) =>
      if txnHash == hash then IsExpired(t, now) && !Accepts(c, s, e)
      else instanceId == t.instanceId && Opens(c, s, e)
    case _ => false
  }

  lemma LeavesExactlyWhenEnded(c: Config, s: State, e: Event, hash: string)
    requires Inv(s.store.staging, c.maxStaging) && Enabled(c, s, e) && hash in s.store.staging.items
    ensures hash !in Step(c, s, e).store.staging.items <==> Ends(c, s, e, hash)
  {
    hide Inv, Staging.Append, Assemble, Outcome, Live.Publish, Ttl;
    if e.Append? {
      AppendLeaves(c, s, e, hash);
    }
  }

  lemma AppendLeaves(c: Config, s: State, e: Event, hash: string)
    requires Inv(s.store.staging, c.maxStaging) && e.Append? && hash in s.store.staging.items
    ensures hash !in AppendAt(c, s, e).buffer.items <==> Ends(c, s, e, hash)
  {
    var b, ttl := s.store.staging, Ttl(s.store.live, e.instanceId, c.transactionTtl);
    hide Staging.Append, Inv, Ttl;
    if IsOpen(b, e.txnHash, e.now) {
      AppendToOpen(b, c.maxStaging, e.txnHash, e.instanceId, e.seqId, e.data, e.now, ttl);
    } else {
      AppendToNew(b, c.maxStaging, e.txnHash, e.instanceId, e.seqId, e.data, e.now, ttl);
    }
  }

  ghost predicate EndsAt(c: Config, es: seq<Event>, k: nat, hash: string)
    requires IsRun(c, es) && k < |es|
  {
    hash in At(c, es, k).store.staging.items && Ends(c, At(c, es, k), es[k], hash)
  }

  lemma StaysOneStep(c: Config, es: seq<Event>, k: nat, hash: string)
    requires IsRun(c, es) && k < |es|
    requires hash in At(c, es, k).store.staging.items && !EndsAt(c, es, k, hash)
    ensures hash in At(c, es, k + 1).store.staging.items
  {
    RunStep(c, es, k);
    PrefixIsRun(c, es, k);
    ReachableStaging(c, es[..k]);
    hide Inv, Enabled, Step, Ends;
    LeavesExactlyWhenEnded(c, At(c, es, k), es[k], hash);
  }

  /** A staged transaction stays staged as long as nothing ends it: no other event, of whatever instance, touches it. */
  lemma {:induction false} StaysUntilEnded(c: Config, es: seq<Event>, i: nat, j: nat, hash: string)
    requires IsRun(c, es) && i <= j <= |es|
    requires hash in At(c, es, i).store.staging.items
    requires forall k :: i <= k < j ==> !EndsAt(c, es, k, hash)
    ensures hash in At(c, es, j).store.staging.items
    decreases j
  {
    hide IsRun, At, EndsAt;
    if i < j {
      StaysUntilEnded(c, es, i, j - 1, hash);
      StaysOneStep(c, es, j - 1, hash);
    }
  }

  /**
   After any run, a staged transaction is exactly what its log says: the last accepted
   data per sequence id since it was opened, its opener and the deadline set then.
   */
  lemma {:induction false} StagedIsLastAccepted(c: Config, es: seq<Event>, hash: string)
    requires IsRun(c, es)
    requires hash in After(c, es).value.store.staging.items
    ensures UploadOf(c, es, hash).Some?
    ensures After(c, es).value.store.staging.items[hash] == TxnOf(UploadOf(c, es, hash).value)
  {
    if es != [] {
      var n := |es| - 1;
      var init, e := es[..n], es[n];
      PrefixIsRun(c, es, n);
      var s := After(c, init).value;
      ReachableStaging(c, init);
      ReachableStaging(c, es);
      StepOnTxn(c, s, e, hash);
      assert Coherent(After(c, es).value.store.staging.items[hash]);
      hide Step, Enabled, Inv, Accepts, Opens;
      if !Accepts(c, s, e) || e.txnHash != hash {
        StagedIsLastAccepted(c, init, hash);
      } else if Opens(c, s, e) {
        LastWrittenSnoc([], Write(e.seqId, e.data));
        assert [] + [Write(e.seqId, e.data)] == [Write(e.seqId, e.data)];
      } else {
        StagedIsLastAccepted(c, init, hash);
        LastWrittenSnoc(UploadOf(c, init, hash).value.writes, Write(e.seqId, e.data));
      }
    }
  }

  /** A successful retrieval returns the ascending assembly of the last accepted data per sequence id. */
  lemma RetrievalReturnsTheUpload(c: Config, es: seq<Event>, hash: string, now: int)
    requires IsRun(c, es)
    ensures var b := After(c, es).value.store.staging;
      var r := Retrieve(b, hash, now).1;
      r.Stream? ==>
        && UploadOf(c, es, hash).Some?
        && var u := UploadOf(c, es, hash).value;
        && now <= u.deadline
        && r == Stream(Assemble(LastWritten(u.writes)), |LastWritten(u.writes)|, |Assemble(LastWritten(u.writes))|)
  {
    if hash in After(c, es).value.store.staging.items {
      StagedIsLastAccepted(c, es, hash);
    }
  }

  // ---- Arrival order ----

  /** Writes that agree with a plan, and cover it. */
  ghost predicate Fulfil(writes: seq<Write>, plan: map<int, Bytes>) {
    && (forall i :: 0 <= i < |writes| ==> writes[i].seqId in plan && writes[i].data == plan[writes[i].seqId])
    && (forall k :: k in plan ==> Write(k, plan[k]) in writes)
  }

  lemma {:induction false} LastWrittenAgrees(writes: seq<Write>, plan: map<int, Bytes>)
    requires forall i :: 0 <= i < |writes| ==> writes[i].seqId in plan && writes[i].data == plan[writes[i].seqId]
    ensures forall k :: k in LastWritten(writes) ==> k in plan && LastWritten(writes)[k] == plan[k]
    ensures forall i :: 0 <= i < |writes| ==> writes[i].seqId in LastWritten(writes)
  {
    if writes != [] {
      var init := writes[..|writes| - 1];
      forall i | 0 <= i < |init|
        ensures init[i].seqId in plan && init[i].data == plan[init[i].seqId]
      {
        assert init[i] == writes[i];
      }
      LastWrittenAgrees(init, plan);
      assert forall i :: 0 <= i < |init| ==> init[i] == writes[i];
    }
  }

  /** Order of arrival and identical retransmissions do not matter. */
  lemma ArrivalOrderDoesNotMatter(writes: seq<Write>, plan: map<int, Bytes>)
    requires Fulfil(writes, plan)
    ensures LastWritten(writes) == plan
  {
    LastWrittenAgrees(writes, plan);
    hide LastWritten;
    forall k
      ensures k in LastWritten(writes) <==> k in plan
    {
      if k in plan {
        assert Write(k, plan[k]) in writes;
        var i :| 0 <= i < |writes| && writes[i] == Write(k, plan[k]);
        assert writes[i].seqId in LastWritten(writes);
      }
    }
    var m := LastWritten(writes);
    assert m.Keys == plan.Keys;
    assert forall k :: k in m ==> m[k] == plan[k];
    assert m == plan;
  }

  // ---- Chunked ingest refines single-shot ingest ----

  /** The upload under a hash consists of these pieces, sent in any order and any number of times. */
  ghost predicate Uploaded(c: Config, es: seq<Event>, hash: string, ids: seq<int>, pieces: seq<Bytes>)
    requires IsRun(c, es) && |ids| == |pieces|
  {
    && hash in After(c, es).value.store.staging.items
    && UploadOf(c, es, hash).Some?
    && Fulfil(UploadOf(c, es, hash).value.writes, Planned(ids, pieces))
  }

  lemma RetrieveRestoresText(c: Config, es: seq<Event>, hash: string, ids: seq<int>, pieces: seq<Bytes>, now: int)
    requires IsRun(c, es)
    requires |ids| == |pieces| && forall i, j :: 0 <= i < j < |ids| ==> ids[i] < ids[j]
    requires forall i :: 0 <= i < |pieces| ==> Terminated(pieces[i])
    requires Uploaded(c, es, hash, ids, pieces)
    requires now <= UploadOf(c, es, hash).value.deadline
    ensures Retrieve(After(c, es).value.store.staging, hash, now).1 == Stream(Concat(pieces), |pieces|, |Concat(pieces)|)
  {
    var b, plan := After(c, es).value.store.staging, Planned(ids, pieces);
    ReachableStaging(c, es);
    assert Coherent(b.items[hash]);
    StagedIsLastAccepted(c, es, hash);
    ArrivalOrderDoesNotMatter(UploadOf(c, es, hash).value.writes, plan);
    AssembleRestoresText(ids, pieces);
    IncreasingIsRising(ids);
    PlannedAt(ids, pieces);
    RetrieveFound(b, hash, now);
    hide Assemble, Planned, Concat, UploadOf, Inv, Retrieve, After;
  }

  /**
   A text cut after newlines, uploaded in pieces with increasing ids in any order and
   with retransmissions, and committed while still staged and not expired, is received
   exactly as if it had been posted at once: same text, same byte count. Only the
   number of chunks differs.
   */
  lemma CommitReceivesWhatPostReceives(c: Config, es: seq<Event>, hash: string, ids: seq<int>, pieces: seq<Bytes>,
                                       job: nat, instanceId: string, now: int)
    requires IsRun(c, es)
    requires |ids| == |pieces| && forall i, j :: 0 <= i < j < |ids| ==> ids[i] < ids[j]
    requires forall i :: 0 <= i < |pieces| ==> Terminated(pieces[i])
    requires Uploaded(c, es, hash, ids, pieces)
    requires now <= UploadOf(c, es, hash).value.deadline
    requires job !in After(c, es).value.jobs
    ensures var s, text := After(c, es).value, Concat(pieces);
      && Step(c, s, Commit(job, instanceId, hash, now)).jobs == s.jobs[job := Received(instanceId, text, |text|, |pieces|)]
      && Step(c, s, Post(job, instanceId, text)).jobs == s.jobs[job := Received(instanceId, text, |text|, 1)]
  {
    hide Retrieve, Concat, Uploaded, UploadOf, Staging.Append, Outcome;
    RetrieveRestoresText(c, es, hash, ids, pieces, now);
  }

  /** The live store after publishing a payload that arrived in `chunks` chunks and `bytes` bytes. */
  function Updated(live: Instances<Family>, id: string, families: Families, bytes: int, chunks: int, updated: int, ingested: int)
    : Instances<Family>
  {
    Live.Publish(live, id, Ingest(families, IntervalOf(families), bytes, chunks, updated, ingested))
  }

  /** The machine's parse and publish of a received payload, uninterrupted, are what the handlers do with it. */
  lemma ReceivedIsPublished(c: Config, s: State, s1: State, job: nat, id: string, text: Bytes, bytes: int, chunks: int,
                            r: Result<Families, ParseError>, updated: int, ingested: int)
    requires job !in s.jobs && s1.jobs == s.jobs[job := Received(id, text, bytes, chunks)]
    ensures Enabled(c, s1, Parse(job, r)) <==> Outcome(c.lib, text, id, c.overwrite, r)
    ensures Outcome(c.lib, text, id, c.overwrite, r) ==>
              var s2 := Step(c, s1, Parse(job, r));
              match r
              case Err(_) => s2 == s1.(jobs := s.jobs)
              case Ok(families) =>
                && Enabled(c, s2, Publish(job, updated, ingested))
                && Step(c, s2, Publish(job, updated, ingested))
                   == s1.(jobs := s.jobs, store := s1.store.(live := Updated(s1.store.live, id, families, bytes, chunks, updated, ingested)))
  {
    hide Outcome;
    if Outcome(c.lib, text, id, c.overwrite, r) {
      var s2 := Step(c, s1, Parse(job, r));
      assert s2.jobs - {job} == s.jobs;
    }
  }

  /**
   An uninterrupted commit does what `HandleCommit` promises: nothing found leaves the
   live store and forgets the transaction, a refused payload likewise, an accepted one is
   published for the instance named by the commit.
   */
  lemma CommitIsThreeSteps(c: Config, s: State, job: nat, id: string, hash: string, now: int,
                           r: Result<Families, ParseError>, updated: int, ingested: int)
    requires job !in s.jobs
    ensures var (rest, found) := Retrieve(s.store.staging, hash, now);
      var s1, kept := Step(c, s, Commit(job, id, hash, now)), s.(store := s.store.(staging := rest));
      match found
      case Missing => s1 == kept
      case Stream(text, count, size) =>
        && (Enabled(c, s1, Parse(job, r)) <==> Outcome(c.lib, text, id, c.overwrite, r))
        && (Outcome(c.lib, text, id, c.overwrite, r) ==>
              var s2 := Step(c, s1, Parse(job, r));
              match r
              case Err(_) => s2 == kept
              case Ok(families) =>
                && Enabled(c, s2, Publish(job, updated, ingested))
                && Step(c, s2, Publish(job, updated, ingested))
                   == kept.(store := Store(rest, Updated(s.store.live, id, families, size, count, updated, ingested))))
  {
    hide Outcome, Retrieve, Updated;
    var found := Retrieve(s.store.staging, hash, now).1;
    if found.Stream? {
      ReceivedIsPublished(c, s, Step(c, s, Commit(job, id, hash, now)), job, id, found.text, found.totalSize, found.chunkCount,
                          r, updated, ingested);
    }
  }

  /** Publishing a received payload: parse it with the given result, then update the live store. */
  ghost function Published(c: Config, s: State, job: nat, families: Families, updated: int, ingested: int): Instances<Family>
    requires Enabled(c, s, Parse(job, Ok(families)))
  {
    Step(c, Step(c, s, Parse(job, Ok(families))), Publish(job, updated, ingested)).store.live
  }

  lemma PublishedIs(c: Config, s: State, job: nat, families: Families, updated: int, ingested: int)
    requires Enabled(c, s, Parse(job, Ok(families)))
    ensures var j := s.jobs[job];
      Published(c, s, job, families, updated, ingested)
      == Live.Publish(s.store.live, j.instanceId, Ingest(families, IntervalOf(families), j.bytes, j.chunks, updated, ingested))
  {
    hide Outcome;
  }

  /** The same instance state but for this many more chunks. */
  function MoreChunks(state: Instance<Family>, more: int): Instance<Family> {
    state.(stats := state.stats.(totalChunks := state.stats.totalChunks + more))
  }

  lemma ChunksOnlyCount(live: Instances<Family>, id: string, p: Ingest<Family>, q: Ingest<Family>)
    requires p == q.(chunks := p.chunks)
    ensures Live.Publish(live, id, p)
            == Live.Publish(live, id, q)[id := MoreChunks(Live.Publish(live, id, q)[id], p.chunks - q.chunks)]
  {
  }

  /** Two states in which a job has the same parse results and, published, the same effect up to the chunk count. */
  ghost predicate SameButForChunks(c: Config, a: State, b: State, job: nat, id: string, more: int,
                                   r: Result<Families, ParseError>, updated: int, ingested: int)
  {
    && (Enabled(c, a, Parse(job, r)) <==> Enabled(c, b, Parse(job, r)))
    && (r.Ok? && Enabled(c, a, Parse(job, r)) ==>
          var x, y := Published(c, a, job, r.value, updated, ingested), Published(c, b, job, r.value, updated, ingested);
          id in y && x == y[id := MoreChunks(y[id], more)])
  }

  /**
   Both ways of sending a text allow the same parse results, and publishing one leaves
   the same live store, up to the chunk count of the instance.
   */
  lemma ChunkedRefinesSingleShot(c: Config, es: seq<Event>, hash: string, ids: seq<int>, pieces: seq<Bytes>,
                                 job: nat, instanceId: string, now: int,
                                 r: Result<Families, ParseError>, updated: int, ingested: int)
    requires IsRun(c, es)
    requires |ids| == |pieces| && forall i, j :: 0 <= i < j < |ids| ==> ids[i] < ids[j]
    requires forall i :: 0 <= i < |pieces| ==> Terminated(pieces[i])
    requires Uploaded(c, es, hash, ids, pieces)
    requires now <= UploadOf(c, es, hash).value.deadline
    requires job !in After(c, es).value.jobs
    ensures var chunked := Step(c, After(c, es).value, Commit(job, instanceId, hash, now));
      var single := Step(c, After(c, es).value, Post(job, instanceId, Concat(pieces)));
      SameButForChunks(c, chunked, single, job, instanceId, |pieces| - 1, r, updated, ingested)
  {
    CommitReceivesWhatPostReceives(c, es, hash, ids, pieces, job, instanceId, now);
    var s := After(c, es).value;
    var chunked, single := Step(c, s, Commit(job, instanceId, hash, now)), Step(c, s, Post(job, instanceId, Concat(pieces)));
    assert chunked.store.live == single.store.live;
    hide SameButForChunks, Step, Enabled, Uploaded, Concat, After;
    SameTextSameEffect(c, chunked, single, job, instanceId, Concat(pieces), |pieces|, r, updated, ingested);
  }

  lemma SameTextSameEffect(c: Config, a: State, b: State, job: nat, id: string, text: Bytes, chunks: int,
                           r: Result<Families, ParseError>, updated: int, ingested: int)
    requires job in a.jobs && a.jobs[job] == Received(id, text, |text|, chunks)
    requires job in b.jobs && b.jobs[job] == Received(id, text, |text|, 1)
    requires a.store.live == b.store.live
    ensures SameButForChunks(c, a, b, job, id, chunks - 1, r, updated, ingested)
  {
    hide Outcome;
    if r.Ok? && Enabled(c, b, Parse(job, r)) {
      PublishedIs(c, a, job, r.value, updated, ingested);
      PublishedIs(c, b, job, r.value, updated, ingested);
      var interval := IntervalOf(r.value);
      ChunksOnlyCount(a.store.live, id, Ingest(r.value, interval, |text|, chunks, updated, ingested),
                      Ingest(r.value, interval, |text|, 1, updated, ingested));
      hide Published, MoreChunks, IntervalOf;
    }
  }
}
