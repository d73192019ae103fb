/**
 The ingest handlers as sequences of store and parser calls. Request plumbing is left
 out: path segments, bodies and clock readings are parameters.
 */
module Handlers {
  import opened Wrappers
  import opened Metrics
  import opened Text
  import opened Staging
  import opened Live
  import opened Reading
  import opened Storage
  import opened Labels
  import opened Normaliser

  datatype Status = Ok200 | Accepted202 | BadRequest400 | NotFound404 | Unavailable503

  /** A request body that counts the bytes taken from it. */
  class CountingReader {
    var unread: Bytes
    var count: int

    constructor (body: Bytes)
      ensures unread == body && count == 0
    {
      unread, count := body, 0;
    }

    /** At most `size` bytes; none only at the end. */
    method Read(size: nat) returns (p: Bytes)
      requires size > 0
      modifies this
      ensures old(unread) == p + unread && |p| <= size
      ensures p == [] <==> old(unread) == []
      ensures count == old(count) + |p|
    {
      var n := if |unread| < size then |unread| else size;
      p := unread[..n];
      unread := unread[n..];
      count := count + n;
    }

    /** A decoder that succeeds has read its input to the end. */
    method Drain(size: nat) returns (input: Bytes)
      requires size > 0
      modifies this
      ensures input == old(unread) && unread == []
      ensures count == old(count) + |input|
    {
      input := [];
      var done := false;
      while !done
        invariant old(unread) == input + unread
        invariant count == old(count) + |input|
        invariant done ==> unread == []
        decreases |unread|, !done
      {
        var p := Read(size);
        input := input + p;
        done := p == [];
      }
    }
  }

  class Handler {
    const store: Storage
    const lib: Libraries
    const transactionTtl: int
    const overwriteInstanceId: bool

    constructor (store: Storage, lib: Libraries, transactionTtl: int, overwriteInstanceId: bool)
      ensures this.store == store && this.lib == lib
      ensures this.transactionTtl == transactionTtl && this.overwriteInstanceId == overwriteInstanceId
    {
      this.store, this.lib := store, lib;
      this.transactionTtl, this.overwriteInstanceId := transactionTtl, overwriteInstanceId;
    }

    method HandleChunkIngest(txnHash: string, instanceId: string, seqId: int, body: Bytes, now: int) returns (status: Status)
      requires store.Valid()
      modifies store`stagingStore, store`stagingRepr, store`stagingSize, store.stagingRepr
      ensures store.Valid() && fresh(store.stagingRepr - old(store.stagingRepr))
      ensures status == Accepted202 || status == Unavailable503
      ensures Appended(store.Staged(), status == Accepted202)
              == Append(old(store.Staged()), store.maxStagingSize, txnHash, instanceId, seqId, body, now,
                        Ttl(old(store.Instances()), instanceId, transactionTtl))
    {
      hide Append, Inv, Ttl;
      var ok := store.AppendToStaging(txnHash, instanceId, seqId, body, transactionTtl, now);
      status := if ok then Accepted202 else Unavailable503;
    }

    /** Parses a payload into new objects; the live store does not change. */
    method Parse(instanceId: string, text: Bytes) returns (r: Result<map<string, MetricFamily>, ParseError>)
      requires store.OwnsLive()
      ensures Outcome(lib, text, instanceId, overwriteInstanceId, ViewOfResult(r))
      ensures r.Ok? ==> fresh(ReprOf(r.value))
      ensures store.OwnsLive() && store.Instances() == old(store.Instances()) && store.LiveValue() == old(store.LiveValue())
    {
      r := ParseAndValidate(lib, text, instanceId, overwriteInstanceId);
      hide Outcome;
      ReadingStays(old(store.Instances()));
    }

    /** Parses a payload for an instance and publishes it; a refused payload leaves the live store as it was. */
    method Publish(instanceId: string, text: Bytes, bytes: int, chunks: int, updated: int, ingested: int)
      returns (status: Status, ghost families: map<string, MetricFamily>)
      requires store.OwnsLive()
      modifies store`liveStore, store`liveRepr, store.liveRepr
      ensures store.OwnsLive() && fresh(store.liveRepr - old(store.liveRepr))
      ensures status == Ok200 || status == BadRequest400
      ensures status == BadRequest400 ==>
                && store.Instances() == old(store.Instances()) && store.LiveValue() == old(store.LiveValue())
                && exists e :: Outcome(lib, text, instanceId, overwriteInstanceId, Err(e))
      ensures status == Ok200 ==>
                && fresh(ReprOf(families))
                && Outcome(lib, text, instanceId, overwriteInstanceId, Ok(ViewOf(families)))
                && store.Instances() == Live.Publish(old(store.Instances()), instanceId,
                     Ingest(families, IntervalOf(ViewOf(families)), bytes, chunks, updated, ingested))
                && store.LiveValue() == Live.Publish(old(store.LiveValue()), instanceId,
                     Ingest(ViewOf(families), IntervalOf(ViewOf(families)), bytes, chunks, updated, ingested))
    {
      hide Outcome, IntervalOf, Live.Publish, ViewOf, ReprOf;
      families := map[];
      var parsed := Parse(instanceId, text);
      match parsed {
        case Err(e) =>
          status := BadRequest400;
        case Ok(metrics) =>
          families := metrics;
          store.UpdateIngested(instanceId, metrics, bytes, chunks, updated, ingested);
          status := Ok200;
      }
    }

    /** Takes a transaction out of the staging buffer; the live store does not change. */
    method Take(txnHash: string, now: int) returns (found: Retrieved)
      requires store.Valid()
      modifies store`stagingStore, store`stagingSize
      ensures store.Valid() && store.stagingRepr == old(store.stagingRepr)
      ensures (store.Staged(), found) == Retrieve(old(store.Staged()), txnHash, now)
      ensures store.Instances() == old(store.Instances()) && store.LiveValue() == old(store.LiveValue())
    {
      hide Retrieve, Inv;
      found := store.RetrieveStaging(txnHash, now);
      hide store.ValidStaging, store.OwnsStaging, store.Staged, ReadLive;
      store.LiveStays();
    }

    /** Retrieve, parse, update. The instance is the one in the URL, not the one that opened the transaction. */
    method HandleCommit(instanceId: string, txnHash: string, now: int, updated: int, ingested: int)
      returns (status: Status, ghost families: map<string, MetricFamily>)
      requires store.Valid()
      modifies store, store.liveRepr
      ensures store.Valid() && fresh(store.liveRepr - old(store.liveRepr))
      ensures store.Staged() == Retrieve(old(store.Staged()), txnHash, now).0
      ensures var found := Retrieve(old(store.Staged()), txnHash, now).1;
        match found
        case Missing =>
          status == NotFound404 && store.Instances() == old(store.Instances()) && store.LiveValue() == old(store.LiveValue())
        case Stream(text, count, size) =>
          && (status == Ok200 || status == BadRequest400)
          && (status == BadRequest400 ==>
                && store.Instances() == old(store.Instances()) && store.LiveValue() == old(store.LiveValue())
                && exists e :: Outcome(lib, text, instanceId, overwriteInstanceId, Err(e)))
          && (status == Ok200 ==>
                && Outcome(lib, text, instanceId, overwriteInstanceId, Ok(ViewOf(families)))
                && store.Instances() == Live.Publish(old(store.Instances()), instanceId,
                     Ingest(families, IntervalOf(ViewOf(families)), size, count, updated, ingested))
                && store.LiveValue() == Live.Publish(old(store.LiveValue()), instanceId,
                     Ingest(ViewOf(families), IntervalOf(ViewOf(families)), size, count, updated, ingested)))
    {
      hide Retrieve, Outcome, IntervalOf, Live.Publish, ViewOf, ReprOf, Inv;
      families := map[];
      var found := Take(txnHash, now);
      match found {
        case Missing =>
          status := NotFound404;
        case Stream(text, count, size) =>
          status, families := Publish(instanceId, text, size, count, updated, ingested);
      }
    }

    /** Reads a body to the end and counts its bytes; the live store does not change. */
    method ReadAll(body: Bytes) returns (input: Bytes, count: int)
      requires store.OwnsLive()
      ensures input == body && count == |body|
      ensures store.OwnsLive() && store.Instances() == old(store.Instances()) && store.LiveValue() == old(store.LiveValue())
    {
      var counter := new CountingReader(body);
      input := counter.Drain(4096);
      count := counter.count;
      ReadingStays(old(store.Instances()));
    }

    /** The whole payload in one request: counts as one chunk of as many bytes as were read. */
    method HandleSingleShot(instanceId: string, body: Bytes, updated: int, ingested: int)
      returns (status: Status, ghost families: map<string, MetricFamily>)
      requires store.OwnsLive()
      modifies store`liveStore, store`liveRepr, store.liveRepr
      ensures store.OwnsLive() && fresh(store.liveRepr - old(store.liveRepr))
      ensures status == Ok200 || status == BadRequest400
      ensures status == BadRequest400 ==>
                && store.Instances() == old(store.Instances()) && store.LiveValue() == old(store.LiveValue())
                && exists e :: Outcome(lib, body, instanceId, overwriteInstanceId, Err(e))
      ensures status == Ok200 ==>
                && Outcome(lib, body, instanceId, overwriteInstanceId, Ok(ViewOf(families)))
                && store.Instances() == Live.Publish(old(store.Instances()), instanceId,
                     Ingest(families, IntervalOf(ViewOf(families)), |body|, 1, updated, ingested))
                && store.LiveValue() == Live.Publish(old(store.LiveValue()), instanceId,
                     Ingest(ViewOf(families), IntervalOf(ViewOf(families)), |body|, 1, updated, ingested))
    {
      hide Outcome, IntervalOf, Live.Publish, ViewOf, ReprOf;
      var input, count := ReadAll(body);
      status, families := Publish(instanceId, input, count, 1, updated, ingested);
    }
  }

  // ---- Oversized bodies ----

  const TOO_LARGE := "http: request body too large"

  /** Compares the last 26 characters with a text of 28. */
  function ContainsBodyTooLarge(message: string): bool {
    |message| >= 26 && message[|message| - 26..] == TOO_LARGE
  }

  /** The test by which a failed single-shot request is to be answered with 413 rather than 400. */
  function RecognisedAsTooLarge(message: string): bool {
    message == TOO_LARGE || (message != "" && ContainsBodyTooLarge(message))
  }

  /**
   The suffix comparison never succeeds, and the parser prefixes every read error, so an
   oversized body is always answered with 400: what `HandleSingleShot` returns.
   */
  lemma OversizedIsNeverRecognised(message: string, detail: string)
    ensures RecognisedAsTooLarge(message) <==> message == TOO_LARGE
    ensures !RecognisedAsTooLarge("parsing failed: " + detail)
  {
    assert |TOO_LARGE| == 28;
    assert ("parsing failed: " + detail)[0] == 'p' && TOO_LARGE[0] == 'h';
  }
}
