/**
 Where published payloads come from: every payload in an instance's log is the parse of a
 text that was posted for it, or that was uploaded in chunks and committed for it.
 */
module Provenance {
  import opened Wrappers
  import opened Metrics
  import opened Text
  import opened Staging
  import opened Live
  import opened Labels
  import opened Normaliser
  import opened Collector
  import opened System
  import opened History
  import opened Staleness

  /**
   Event `i` brings in this text for the instance, counted as so many bytes and chunks: a
   post with its body, or a commit, still in time, of an upload whose log assembles to it.
   */
  ghost predicate BringsAt(c: Config, es: seq<Event>, i: nat, id: string, text: Bytes, bytes: int, chunks: int)
    requires IsRun(c, es)
  {
    && i < |es|
    && bytes == |text|
    && ((es[i].Post? && es[i].instanceId == id && text == es[i].body && chunks == 1)
        || (es[i].Commit? && es[i].instanceId == id && IsUploadAt(c, es, i, es[i].txnHash, es[i].now, text, chunks)))
  }

  /** The text is the ascending assembly of the last accepted data per sequence id of the upload under a hash. */
  ghost predicate IsUploadAt(c: Config, es: seq<Event>, i: nat, hash: string, now: int, text: Bytes, chunks: int)
    requires IsRun(c, es) && i < |es|
  {
    PrefixIsRun(c, es, i);
    var u := UploadOf(c, es[..i], hash);
    && u.Some? && now <= u.value.deadline
    && text == Assemble(LastWritten(u.value.writes))
    && chunks == |LastWritten(u.value.writes)| >= 1
  }

  ghost predicate TextFrom(c: Config, es: seq<Event>, id: string, text: Bytes, bytes: int, chunks: int)
    requires IsRun(c, es)
  {
    exists i: nat :: BringsAt(c, es, i, id, text, bytes, chunks)
  }

  /** These families are a parse result of a text that was brought in for the instance. */
  ghost predicate ParsedFrom(c: Config, es: seq<Event>, id: string, families: Families, bytes: int, chunks: int)
    requires IsRun(c, es)
  {
    exists text :: TextFrom(c, es, id, text, bytes, chunks) && Outcome(c.lib, text, id, c.overwrite, Ok(families))
  }

  ghost predicate PayloadFrom(c: Config, es: seq<Event>, id: string, p: Payload)
    requires IsRun(c, es)
  {
    p.interval == IntervalOf(p.families) && ParsedFrom(c, es, id, p.families, p.bytes, p.chunks)
  }

  ghost predicate JobFrom(c: Config, es: seq<Event>, job: Job)
    requires IsRun(c, es)
  {
    match job
    case Received(id, text, bytes, chunks) => TextFrom(c, es, id, text, bytes, chunks)
    case Parsed(id, families, bytes, chunks) => ParsedFrom(c, es, id, families, bytes, chunks)
    case _ => true
  }

  // ---- What was brought in stays brought in ----

  lemma BroughtBefore(c: Config, init: seq<Event>, es: seq<Event>, i: nat, id: string, text: Bytes, bytes: int, chunks: int)
    requires IsRun(c, es) && es != [] && init == es[..|es| - 1] && IsRun(c, init)
    requires BringsAt(c, init, i, id, text, bytes, chunks)
    ensures BringsAt(c, es, i, id, text, bytes, chunks)
  {
    assert init[i] == es[i] && init[..i] == es[..i];
    hide IsRun, UploadOf, Assemble, LastWritten;
  }

  lemma TextBefore(c: Config, init: seq<Event>, es: seq<Event>, id: string, text: Bytes, bytes: int, chunks: int)
    requires IsRun(c, es) && es != [] && init == es[..|es| - 1] && IsRun(c, init)
    requires TextFrom(c, init, id, text, bytes, chunks)
    ensures TextFrom(c, es, id, text, bytes, chunks)
  {
    var i: nat :| BringsAt(c, init, i, id, text, bytes, chunks);
    BroughtBefore(c, init, es, i, id, text, bytes, chunks);
    hide IsRun, BringsAt;
  }

  lemma ParsedBefore(c: Config, init: seq<Event>, es: seq<Event>, id: string, families: Families, bytes: int, chunks: int)
    requires IsRun(c, es) && es != [] && init == es[..|es| - 1] && IsRun(c, init)
    requires ParsedFrom(c, init, id, families, bytes, chunks)
    ensures ParsedFrom(c, es, id, families, bytes, chunks)
  {
    var text :| TextFrom(c, init, id, text, bytes, chunks) && Outcome(c.lib, text, id, c.overwrite, Ok(families));
    TextBefore(c, init, es, id, text, bytes, chunks);
    hide IsRun, TextFrom, Outcome;
  }

  // ---- Jobs ----

  /** What one event leaves as a received or parsed job: one that was there, a new text, or a parse of a received one. */
  lemma NewJob(c: Config, s: State, e: Event, j: nat)
    requires Enabled(c, s, e) && j in Step(c, s, e).jobs
    ensures var job := Step(c, s, e).jobs[j];
      || (j in s.jobs && job == s.jobs[j])
      || job.Missed? || job.Rendering?
      || (e.Post? && job == Received(e.instanceId, e.body, |e.body|, 1))
      || (e.Commit?
          && var found := Retrieve(s.store.staging, e.txnHash, e.now).1;
          found.Stream? && job == Received(e.instanceId, found.text, found.totalSize, found.chunkCount))
      || (j in s.jobs && s.jobs[j].Received? && job.Parsed?
          && Outcome(c.lib, s.jobs[j].text, s.jobs[j].instanceId, c.overwrite, Ok(job.families))
          && job == Parsed(s.jobs[j].instanceId, job.families, s.jobs[j].bytes, s.jobs[j].chunks))
  {
    hide Outcome, Render, Staging.Append, Retrieve;
  }

  lemma PostBrings(c: Config, es: seq<Event>)
    requires IsRun(c, es) && es != [] && es[|es| - 1].Post?
    ensures var e := es[|es| - 1];
      TextFrom(c, es, e.instanceId, e.body, |e.body|, 1)
  {
    assert BringsAt(c, es, |es| - 1, es[|es| - 1].instanceId, es[|es| - 1].body, |es[|es| - 1].body|, 1);
  }

  lemma StreamHasChunks(b: Buffer, hash: string, now: int)
    ensures Retrieve(b, hash, now).1.Stream? ==> Retrieve(b, hash, now).1.chunkCount >= 1
  {
    if hash in b.items {
      RetrieveFound(b, hash, now);
    }
    hide Remove, Assemble;
  }

  lemma CommitBrings(c: Config, init: seq<Event>, es: seq<Event>)
    requires IsRun(c, es) && es != [] && init == es[..|es| - 1] && IsRun(c, init)
    requires es[|es| - 1].Commit?
    ensures var e := es[|es| - 1];
      var found := Retrieve(After(c, init).value.store.staging, e.txnHash, e.now).1;
      found.Stream? ==> TextFrom(c, es, e.instanceId, found.text, found.totalSize, found.chunkCount)
  {
    var n, e := |es| - 1, es[|es| - 1];
    RetrievalReturnsTheUpload(c, init, e.txnHash, e.now);
    var b := After(c, init).value.store.staging;
    var found := Retrieve(b, e.txnHash, e.now).1;
    hide IsRun, After, Retrieve, UploadOf, Assemble, LastWritten;
    StreamHasChunks(b, e.txnHash, e.now);
    if found.Stream? {
      assert BringsAt(c, es, n, e.instanceId, found.text, found.totalSize, found.chunkCount);
    }
  }

  lemma JobStaysFrom(c: Config, init: seq<Event>, es: seq<Event>, j: nat)
    requires IsRun(c, es) && es != [] && init == es[..|es| - 1] && IsRun(c, init)
    requires forall k :: k in After(c, init).value.jobs ==> JobFrom(c, init, After(c, init).value.jobs[k])
    requires j in After(c, es).value.jobs
    ensures JobFrom(c, es, After(c, es).value.jobs[j])
  {
    var s, e := After(c, init).value, es[|es| - 1];
    PayloadsGrow(c, es, "");
    assert Enabled(c, s, e) && After(c, es).value == Step(c, s, e);
    NewJob(c, s, e, j);
    var job := Step(c, s, e).jobs[j];
    hide IsRun, After, Step, Enabled, TextFrom, ParsedFrom, Outcome, Retrieve;
    if j in s.jobs && job == s.jobs[j] {
      assert JobFrom(c, init, s.jobs[j]);
      if job.Received? {
        TextBefore(c, init, es, job.instanceId, job.text, job.bytes, job.chunks);
      } else if job.Parsed? {
        ParsedBefore(c, init, es, job.instanceId, job.families, job.bytes, job.chunks);
      }
    } else if e.Post? && job.Received? {
      PostBrings(c, es);
    } else if e.Commit? && job.Received? {
      CommitBrings(c, init, es);
    } else if job.Parsed? {
      assert JobFrom(c, init, s.jobs[j]);
      TextBefore(c, init, es, job.instanceId, s.jobs[j].text, job.bytes, job.chunks);
      ParsedFromText(c, es, job.instanceId, s.jobs[j].text, job.families, job.bytes, job.chunks);
    }
  }

  lemma ParsedFromText(c: Config, es: seq<Event>, id: string, text: Bytes, families: Families, bytes: int, chunks: int)
    requires IsRun(c, es) && TextFrom(c, es, id, text, bytes, chunks)
    requires Outcome(c.lib, text, id, c.overwrite, Ok(families))
    ensures ParsedFrom(c, es, id, families, bytes, chunks)
  {
    hide IsRun, TextFrom, Outcome;
  }

  /** Every received or parsed job of a reachable state has its text from a post or a commit. */
  lemma {:induction false} JobsComeFromRequests(c: Config, es: seq<Event>, j: nat)
    requires IsRun(c, es) && j in After(c, es).value.jobs
    ensures JobFrom(c, es, After(c, es).value.jobs[j])
  {
    if es == [] {
      NothingPublished(c, "");
      hide After, IsRun;
    } else {
      var init := es[..|es| - 1];
      PrefixIsRun(c, es, |es| - 1);
      hide After, IsRun, JobFrom;
      forall k | k in After(c, init).value.jobs
        ensures JobFrom(c, init, After(c, init).value.jobs[k])
      {
        JobsComeFromRequests(c, init, k);
      }
      JobStaysFrom(c, init, es, j);
    }
  }

  // ---- Payloads ----

  lemma NewPayload(c: Config, init: seq<Event>, es: seq<Event>, id: string)
    requires IsRun(c, es) && es != [] && init == es[..|es| - 1] && IsRun(c, init)
    ensures forall p :: p in PayloadsBy(After(c, init).value, es[|es| - 1], id) ==> PayloadFrom(c, es, id, p)
  {
    var s, e := After(c, init).value, es[|es| - 1];
    if PayloadsBy(s, e, id) != [] {
      var job := s.jobs[e.job];
      JobsComeFromRequests(c, init, e.job);
      hide IsRun, After, ParsedFrom, IntervalOf;
      ParsedBefore(c, init, es, id, job.families, job.bytes, job.chunks);
    }
  }

  /**
   After any run, every payload in an instance's log is a possible parse, for this very
   instance, of a text that an earlier request brought in for it: a body as posted, or the
   ascending assembly of what an upload in time had last accepted, with its bytes and chunks.
   */
  lemma {:induction false} EveryPayloadWasSent(c: Config, es: seq<Event>, id: string, p: Payload)
    requires IsRun(c, es) && p in Payloads(c, es, id)
    ensures PayloadFrom(c, es, id, p)
  {
    if es == [] {
      NothingPublished(c, id);
      hide Payloads, IsRun, After;
    } else {
      var init := es[..|es| - 1];
      PayloadsGrow(c, es, id);
      hide IsRun, After, Payloads, PayloadsBy, ParsedFrom, Step, Enabled;
      if p in Payloads(c, init, id) {
        EveryPayloadWasSent(c, init, id, p);
        ParsedBefore(c, init, es, id, p.families, p.bytes, p.chunks);
      } else {
        NewPayload(c, init, es, id);
      }
    }
  }

  /** A text that decodes to its end and, unless overwriting is on, names no instance but this one. */
  ghost predicate Whole(c: Config, id: string, text: Bytes) {
    !c.lib.Decode(text).failed && (c.overwrite || !NamesAnother(c.lib.Decode(text), id))
  }

  /** No text that broke off in an error, and none that names another instance while overwriting is off, is ever published. */
  lemma OnlyWholeTextsArePublished(c: Config, es: seq<Event>, id: string, p: Payload)
    requires DecodesDistinctNames(c.lib) && IsRun(c, es) && p in Payloads(c, es, id)
    ensures exists text :: TextFrom(c, es, id, text, p.bytes, p.chunks) && Whole(c, id, text)
                           && Outcome(c.lib, text, id, c.overwrite, Ok(p.families))
  {
    EveryPayloadWasSent(c, es, id, p);
    hide IsRun, Payloads, TextFrom, Outcome, NamesAnother;
    var text :| TextFrom(c, es, id, text, p.bytes, p.chunks) && Outcome(c.lib, text, id, c.overwrite, Ok(p.families));
    AcceptedExactlyWhen(c.lib, text, id, c.overwrite);
  }

  /** What a fresh instance reports is read off a text that was sent for it. */
  lemma FreshReportWasSent(c: Config, es: seq<Event>, e: Exporter, id: string, now: int) returns (i: nat, text: Bytes, families: Families)
    requires IsRun(c, es) && Payloads(c, es, id) != []
    requires now <= FreshUntil(e, Payloads(c, es, id)[|Payloads(c, es, id)| - 1])
    ensures exists chunks :: BringsAt(c, es, i, id, text, |text|, chunks)
    ensures Outcome(c.lib, text, id, c.overwrite, Ok(families))
    ensures EmitIngested(e, StateOf(After(c, es).value.store.live, id), now) == EmitFamilies(e, families)
  {
    var log := Payloads(c, es, id);
    var p := log[|log| - 1];
    EveryPayloadWasSent(c, es, id, p);
    ScrapeReportsTheLog(c, es, e, id, now);
    hide IsRun, After, Payloads, BringsAt, Outcome, EmitFamilies, EmitIngested, LatestStatus, Threshold;
    families := p.families;
    text :| TextFrom(c, es, id, text, p.bytes, p.chunks) && Outcome(c.lib, text, id, c.overwrite, Ok(families));
    i :| BringsAt(c, es, i, id, text, p.bytes, p.chunks);
    BroughtBytes(c, es, i, id, text, p.bytes, p.chunks);
  }

  lemma BroughtBytes(c: Config, es: seq<Event>, i: nat, id: string, text: Bytes, bytes: int, chunks: int)
    requires IsRun(c, es) && BringsAt(c, es, i, id, text, bytes, chunks)
    ensures bytes == |text|
  {
    hide IsRun;
  }
}
