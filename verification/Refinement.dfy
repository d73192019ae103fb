/**
 From the objects to the machine, and from the locks to its steps. The object store goes
 through the states of the machine's runs; and an append, which lets go of the live store
 while it works, may be interrupted by everything that its lock lets through and is still
 one step of the machine.
 */
module Refinement {
  import opened Wrappers
  import opened MapSums
  import opened Metrics
  import opened Staging
  import opened Live
  import opened Storage
  import opened Normaliser
  import opened System
  import Snapshots

  // ---- Events as operations on the store ----

  ghost function UpdateOf(c: Config, s: State, e: Event): Option<Snapshots.Update>
    requires Enabled(c, s, e)
  {
    match e
    case Append(txnHash, instanceId, seqId, data, now) =>
      Some(Snapshots.Appends(txnHash, instanceId, seqId, data, c.transactionTtl, now))
    case Commit(_, _, txnHash, now) => Some(Snapshots.Retrieves(txnHash, now))
    case Clean(now) => Some(Snapshots.Cleans(now))
    case Publish(job, updated, ingested) =>
      var j := s.jobs[job];
      Some(Snapshots.Ingests(j.instanceId, j.families, j.bytes, j.chunks, updated, ingested))
    case Poll(instanceId, source, polled) => Some(Snapshots.Polls(instanceId, source, polled))
    case _ => None
  }

  function Listed<T>(o: Option<T>): seq<T> {
    if o.Some? then [o.value] else []
  }

  ghost function UpdatesOf(c: Config, es: seq<Event>): seq<Snapshots.Update>
    requires IsRun(c, es)
  {
    if es == [] then []
    else
      var n := |es| - 1;
      PrefixIsRun(c, es, n);
      UpdatesOf(c, es[..n]) + Listed(UpdateOf(c, After(c, es[..n]).value, es[n]))
  }

  lemma StepIsUpdate(c: Config, s: State, e: Event)
    requires Enabled(c, s, e)
    ensures Step(c, s, e).store
            == if UpdateOf(c, s, e).Some? then Snapshots.Updated(s.store, c.maxStaging, UpdateOf(c, s, e).value) else s.store
  {
    hide Staging.Append, Staging.Retrieve, Live.Collect, Live.Publish, SetSource, Outcome, IntervalOf, Ttl;
  }

  lemma UpdatesGrow(c: Config, es: seq<Event>)
    requires IsRun(c, es) && es != []
    ensures var n := |es| - 1;
      && IsRun(c, es[..n])
      && var s := After(c, es[..n]).value;
      && Enabled(c, s, es[n]) && After(c, es).value == Step(c, s, es[n])
      && UpdatesOf(c, es) == UpdatesOf(c, es[..n]) + Listed(UpdateOf(c, s, es[n]))
  {
    hide Step, Enabled, UpdateOf;
    PrefixIsRun(c, es, |es| - 1);
  }

  lemma NoUpdates(c: Config)
    ensures After(c, []) == Some(INITIAL) && UpdatesOf(c, []) == []
  {
  }

  /** The store of a run is the empty store after the run's updates. */
  lemma {:induction false} RunIsUpdates(c: Config, es: seq<Event>)
    requires IsRun(c, es)
    ensures After(c, es).value.store == Snapshots.AllUpdated(INITIAL.store, c.maxStaging, UpdatesOf(c, es))
  {
    if es == [] {
      NoUpdates(c);
      hide After, UpdatesOf;
    } else {
      var n := |es| - 1;
      UpdatesGrow(c, es);
      var s, before := After(c, es[..n]).value, UpdatesOf(c, es[..n]);
      hide After, UpdatesOf, Step, Enabled, UpdateOf, Snapshots.Updated;
      RunIsUpdates(c, es[..n]);
      StepIsUpdate(c, s, es[n]);
      if UpdateOf(c, s, es[n]).Some? {
        assert (before + [UpdateOf(c, s, es[n]).value])[..|before|] == before;
      } else {
        assert before + [] == before;
      }
    }
  }

  /**
   The object store, put through operations that mean the updates of a run, holds
   exactly the staging buffer and the live store with which the run ends.
   */
  method ObjectStoreFollowsRun(c: Config, ghost es: seq<Event>, ops: seq<Snapshots.Operation>) returns (store: Storage)
    requires IsRun(c, es)
    requires |ops| == |UpdatesOf(c, es)| && forall i :: 0 <= i < |ops| ==> Snapshots.Meaning(ops[i]) == UpdatesOf(c, es)[i]
    ensures store.Valid() && Snapshots.ValueOf(store) == After(c, es).value.store
  {
    store := new Storage(c.maxStaging);
    ghost var us := UpdatesOf(c, es);
    RunIsUpdates(c, es);
    assert Snapshots.ValueOf(store) == INITIAL.store;
    hide Snapshots.ValueOf, Snapshots.AllUpdated, UpdatesOf, After, IsRun, store.ValidStaging;
    forall i | 0 <= i < |ops|
      ensures Snapshots.Meaning(ops[i]) == us[i]
    {
      Snapshots.MeaningStays(ops[i]);
    }
    Snapshots.PerformAll(store, ops, us);
  }

  // ---- The inside of an append ----

  /**
   An append that holds `stagingMu`, has made room for a new transaction, and has still to
   read the live store, or has read a lifetime there. `before` is the buffer that it found.
   */
  datatype Pending =
    | Opening(append: Event, before: Buffer)
    | Opened(append: Event, before: Buffer, ttl: int)

  /** The fields as they are at some moment, and the append, if any, that is under way. */
  datatype Split = Split(s: State, inside: Option<Pending>)

  datatype Micro = Begin(append: Event) | ReadInterval | Finish | Other(e: Event)

  /** Events that take `stagingMu`. */
  predicate TakesStaging(e: Event) {
    e.Append? || e.Commit? || e.Clean?
  }

  ghost predicate MayHappen(c: Config, x: Split, m: Micro) {
    match m
    case Begin(e) => x.inside.None? && e.Append?
    case ReadInterval => x.inside.Some? && x.inside.value.Opening? && x.inside.value.append.Append?
    case Finish => x.inside.Some? && x.inside.value.Opened? && x.inside.value.append.Append?
    case Other(e) => !e.Append? && Enabled(c, x.s, e) && (TakesStaging(e) ==> x.inside.None?)
  }

  function WithStaging(s: State, b: Buffer): State {
    s.(store := s.store.(staging := b))
  }

  ghost function ResetBy(b: Buffer, e: Event): Buffer
    requires e.Append?
  {
    AfterReset(b, e.txnHash, e.now)
  }

  /** A new transaction that passes the first quota test: its append has to read the live store. */
  ghost predicate NeedsInterval(c: Config, b: Buffer, e: Event)
    requires e.Append?
  {
    e.txnHash !in ResetBy(b, e).items && ResetBy(b, e).size + |e.data| <= c.maxStaging
  }

  ghost function MadeRoom(b: Buffer, e: Event): Buffer
    requires e.Append?
  {
    Remove(ResetBy(b, e), OwnedBy(ResetBy(b, e), e.instanceId))
  }

  /** An append to an open transaction, or one that is refused at once. */
  ghost function AtOnce(c: Config, b: Buffer, e: Event): Appended
    requires e.Append? && !NeedsInterval(c, b, e)
  {
    var reset := ResetBy(b, e);
    if e.txnHash in reset.items then Staging.Write(reset, c.maxStaging, e.txnHash, e.seqId, e.data) else Appended(reset, false)
  }

  ghost function Written(c: Config, room: Buffer, e: Event, ttl: int): Appended
    requires e.Append?
  {
    var entered := Buffer(room.items[e.txnHash := Txn(e.now + ttl, map[], e.instanceId, 0)], room.size);
    Staging.Write(entered, c.maxStaging, e.txnHash, e.seqId, e.data)
  }

  ghost function Happens(c: Config, x: Split, m: Micro): Split
    requires MayHappen(c, x, m)
  {
    match m
    case Begin(e) =>
      var b := x.s.store.staging;
      if NeedsInterval(c, b, e) then Split(WithStaging(x.s, MadeRoom(b, e)), Some(Opening(e, b)))
      else Split(WithStaging(x.s, AtOnce(c, b, e).buffer), None)
    case ReadInterval =>
      var p := x.inside.value;
      x.(inside := Some(Opened(p.append, p.before, Ttl(x.s.store.live, p.append.instanceId, c.transactionTtl))))
    case Finish =>
      var p := x.inside.value;
      Split(WithStaging(x.s, Written(c, x.s.store.staging, p.append, p.ttl).buffer), None)
    case Other(e) => x.(s := Step(c, x.s, e))
  }

  /** What an append under way has done so far. */
  ghost predicate OnItsWay(c: Config, x: Split) {
    x.inside.Some? ==>
      var p := x.inside.value;
      p.append.Append? && NeedsInterval(c, p.before, p.append) && x.s.store.staging == MadeRoom(p.before, p.append)
  }

  /** The machine's state: an append counts from the moment at which it reads the live store. */
  ghost function Seen(c: Config, x: Split): State
    requires OnItsWay(c, x)
  {
    match x.inside
    case None => x.s
    case Some(Opening(_, before)) => WithStaging(x.s, before)
    case Some(Opened(e, before, ttl)) =>
      WithStaging(x.s, Staging.Append(before, c.maxStaging, e.txnHash, e.instanceId, e.seqId, e.data, e.now, ttl).buffer)
  }

  /** The event with which the machine follows, if any. */
  ghost function Follows(c: Config, x: Split, m: Micro): Option<Event>
    requires MayHappen(c, x, m)
  {
    match m
    case Begin(e) => if NeedsInterval(c, x.s.store.staging, e) then None else Some(e)
    case ReadInterval => Some(x.inside.value.append)
    case Finish => None
    case Other(e) => Some(e)
  }

  lemma AppendInPieces(c: Config, b: Buffer, e: Event, ttl: int)
    requires e.Append?
    ensures Staging.Append(b, c.maxStaging, e.txnHash, e.instanceId, e.seqId, e.data, e.now, ttl)
            == if NeedsInterval(c, b, e) then Written(c, MadeRoom(b, e), e, ttl) else AtOnce(c, b, e)
  {
    hide Remove, Staging.Write, AfterReset;
  }

  /** Events that do not take `stagingMu` neither read nor write the staging buffer. */
  lemma OtherEventsLeaveStaging(c: Config, s: State, e: Event, b: Buffer)
    requires Enabled(c, s, e) && !TakesStaging(e)
    ensures Step(c, s, e).store.staging == s.store.staging
    ensures Enabled(c, WithStaging(s, b), e) && Step(c, WithStaging(s, b), e) == WithStaging(Step(c, s, e), b)
  {
    hide Outcome, Live.Publish, SetSource, IntervalOf, Render;
  }

  /** Each piece is a step of the machine, or invisible to it. */
  lemma MicroFollows(c: Config, x: Split, m: Micro)
    requires OnItsWay(c, x) && MayHappen(c, x, m)
    ensures OnItsWay(c, Happens(c, x, m))
    ensures match Follows(c, x, m)
            case None => Seen(c, Happens(c, x, m)) == Seen(c, x)
            case Some(e) => Enabled(c, Seen(c, x), e) && Seen(c, Happens(c, x, m)) == Step(c, Seen(c, x), e)
  {
    hide NeedsInterval, MadeRoom, AtOnce, Written, Staging.Append, Ttl, Outcome;
    match m
    case Begin(e) =>
      AppendInPieces(c, x.s.store.staging, e, Ttl(x.s.store.live, e.instanceId, c.transactionTtl));
    case ReadInterval =>
    case Finish =>
      var p := x.inside.value;
      AppendInPieces(c, p.before, p.append, p.ttl);
    case Other(e) =>
      OtherFollows(c, x, e);
  }

  lemma OtherFollows(c: Config, x: Split, e: Event)
    requires OnItsWay(c, x) && MayHappen(c, x, Micro.Other(e))
    ensures var x' := x.(s := Step(c, x.s, e));
      OnItsWay(c, x') && Enabled(c, Seen(c, x), e) && Seen(c, x') == Step(c, Seen(c, x), e)
  {
    hide Step, Enabled, NeedsInterval, MadeRoom, Staging.Append;
    if x.inside.Some? {
      OtherEventsLeaveStaging(c, x.s, e, Seen(c, x).store.staging);
    }
  }

  ghost predicate Schedule(c: Config, x: Split, ms: seq<Micro>)
    decreases |ms|
  {
    ms == [] || (MayHappen(c, x, ms[0]) && Schedule(c, Happens(c, x, ms[0]), ms[1..]))
  }

  ghost function Ends(c: Config, x: Split, ms: seq<Micro>): Split
    requires Schedule(c, x, ms)
    decreases |ms|
  {
    if ms == [] then x else Ends(c, Happens(c, x, ms[0]), ms[1..])
  }

  lemma {:induction false} ScheduleContinuesRun(c: Config, es: seq<Event>, x: Split, ms: seq<Micro>) returns (more: seq<Event>)
    requires IsRun(c, es) && OnItsWay(c, x) && After(c, es).value == Seen(c, x)
    requires Schedule(c, x, ms)
    ensures IsRun(c, es + more)
    ensures OnItsWay(c, Ends(c, x, ms)) && After(c, es + more).value == Seen(c, Ends(c, x, ms))
    decreases |ms|
  {
    hide After, IsRun, OnItsWay, MayHappen, Happens, Follows, Seen, Step, Enabled;
    if ms == [] {
      more := [];
      assert es + [] == es;
    } else {
      MicroFollows(c, x, ms[0]);
      var first := Listed(Follows(c, x, ms[0]));
      if Follows(c, x, ms[0]).Some? {
        OneMore(c, es, Follows(c, x, ms[0]).value);
      } else {
        assert es + [] == es;
      }
      var rest := ScheduleContinuesRun(c, es + first, Happens(c, x, ms[0]), ms[1..]);
      more := first + rest;
      assert es + more == es + first + rest;
    }
  }

  /**
   However appends are interrupted by everything that their lock lets through, the fields
   end up as after a run of the machine whose events are ordered by their steps under the
   locks, an append by its read of the live store.
   */
  lemma InterruptedAppendsAreAtomic(c: Config, ms: seq<Micro>) returns (es: seq<Event>)
    requires Schedule(c, Split(INITIAL, None), ms)
    ensures IsRun(c, es)
    ensures var x := Ends(c, Split(INITIAL, None), ms);
      && OnItsWay(c, x) && After(c, es).value == Seen(c, x)
      && (x.inside.None? ==> After(c, es).value == x.s)
  {
    NoUpdates(c);
    assert IsRun(c, []);
    hide After, IsRun, Schedule, Ends;
    es := ScheduleContinuesRun(c, [], Split(INITIAL, None), ms);
    assert [] + es == es;
  }

  /**
   The caller of an append is told the same: at once what the machine's step answers, and
   after an interruption that the chunk was accepted, as the machine's step had it.
   */
  lemma AnswersAgree(c: Config, s: State, e: Event, ttl: int)
    requires e.Append? && Inv(s.store.staging, c.maxStaging)
    ensures var b := s.store.staging;
      if NeedsInterval(c, b, e) then Written(c, MadeRoom(b, e), e, ttl).accepted && AppendAt(c, s, e).accepted
      else AtOnce(c, b, e).accepted == AppendAt(c, s, e).accepted
  {
    var b := s.store.staging;
    AppendInPieces(c, b, e, Ttl(s.store.live, e.instanceId, c.transactionTtl));
    hide Staging.Append, Ttl, Sum;
    if NeedsInterval(c, b, e) {
      RemoveKeepsInv(b, c.maxStaging, ExpiredAt(b, e.now) * {e.txnHash});
      RemoveKeepsInv(ResetBy(b, e), c.maxStaging, OwnedBy(ResetBy(b, e), e.instanceId));
      assert MadeRoom(b, e).size <= ResetBy(b, e).size;
    }
    hide Inv, Remove;
  }
}
