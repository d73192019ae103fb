/**
 Which expired transactions are dropped in a run, who drops them, and which of them the
 expiry counters tell.
 */
module Expiry {
  import opened Wrappers
  import opened MapSums
  import opened Metrics
  import opened Text
  import opened Staging
  import opened Live
  import opened Normaliser
  import opened System
  import opened Reachable
  import opened History
  import opened Conservation

  // ---- The transactions that one event removes ----

  ghost function Removed(c: Config, s: State, e: Event): set<string> {
    match e
    case Append(txnHash, _, _, _, _) =>
      (if ResetsExpired(s, e) then {txnHash} else {}) + (if Opens(c, s, e) then Replaced(s, e) else {})
    case Commit(_, _, txnHash, _) => if txnHash in s.store.staging.items then {txnHash} else {}
    case Clean(now) => ExpiredAt(s.store.staging, now)
    case _ => {}
  }

  /**
   Nothing else is removed: a staged transaction is missing afterwards, or has made way for
   a new one under its own hash, exactly if it is among these.
   */
  lemma RemovedIsWhatLeaves(c: Config, s: State, e: Event, hash: string)
    requires Inv(s.store.staging, c.maxStaging) && Enabled(c, s, e) && hash in s.store.staging.items
    ensures hash in Removed(c, s, e)
            <==> hash !in Step(c, s, e).store.staging.items || (Opens(c, s, e) && e.txnHash == hash)
  {
    LeavesExactlyWhenEnded(c, s, e, hash);
    hide Inv, Step, Enabled, AppendAt;
  }

  /** The removed transactions that were past their deadline: of all instances, or of one. */
  ghost function ExpiredDrops(c: Config, s: State, e: Event, who: Option<string>): set<string> {
    if e.Append? || e.Commit? || e.Clean? then
      set h | h in Removed(c, s, e) && h in ExpiredAt(s.store.staging, e.now) && Concerns(who, s.store.staging.items[h].instanceId)
    else {}
  }

  predicate Concerns(who: Option<string>, instanceId: string) {
    who == None || who == Some(instanceId)
  }

  // ---- The drops of a run ----

  ghost function DropsOf(c: Config, es: seq<Event>, who: Option<string>, sweepsOnly: bool): nat
    requires IsRun(c, es)
  {
    if es == [] then 0
    else
      var n := |es| - 1;
      PrefixIsRun(c, es, n);
      DropsOf(c, es[..n], who, sweepsOnly)
      + if sweepsOnly ==> es[n].Clean? then |ExpiredDrops(c, After(c, es[..n]).value, es[n], who)| else 0
  }

  lemma DropsGrow(c: Config, es: seq<Event>, who: Option<string>, sweepsOnly: bool)
    requires IsRun(c, es) && es != []
    ensures var n := |es| - 1;
      && IsRun(c, es[..n])
      && var s := After(c, es[..n]).value;
      && s == At(c, es, n) && Enabled(c, s, es[n]) && After(c, es).value == Step(c, s, es[n])
      && DropsOf(c, es, who, sweepsOnly)
         == DropsOf(c, es[..n], who, sweepsOnly) + if sweepsOnly ==> es[n].Clean? then |ExpiredDrops(c, s, es[n], who)| else 0
  {
    hide Step, Enabled, ExpiredDrops;
    PrefixIsRun(c, es, |es| - 1);
  }

  lemma NothingDropped(c: Config, who: Option<string>, sweepsOnly: bool)
    requires IsRun(c, [])
    ensures DropsOf(c, [], who, sweepsOnly) == 0
  {
  }

  // ---- They are all in the ledger ----

  /** An append drops what it resets, and what has lapsed of what it replaces. */
  lemma AppendDrops(c: Config, s: State, e: Event)
    requires e.Append?
    ensures var own, others := if ResetsExpired(s, e) then {e.txnHash} else {}, if Opens(c, s, e) then Lapsed(s, e) else {};
      ExpiredDrops(c, s, e, None) == own + others && own !! others
  {
    hide Opens;
  }

  lemma SizeOfUnion(a: set<string>, b: set<string>)
    requires a !! b
    ensures |a + b| == |a| + |b|
  {
  }

  lemma AppendDropsAreBooked(c: Config, l: Ledger, s: State, e: Event)
    requires e.Append?
    ensures var l' := Entry(c, l, s, e);
      && |ExpiredDrops(c, s, e, None)| == l'.lapsed - l.lapsed + l'.reset - l.reset
      && l'.swept == l.swept && l'.late == l.late
  {
    AppendDrops(c, s, e);
    hide Opens, ResetsExpired, Replaced, Lapsed, ExpiredDrops;
    SizeOfUnion(if ResetsExpired(s, e) then {e.txnHash} else {}, if Opens(c, s, e) then Lapsed(s, e) else {});
  }

  lemma CommitDropsAreBooked(c: Config, l: Ledger, s: State, e: Event)
    requires Inv(s.store.staging, c.maxStaging) && e.Commit?
    ensures var l' := Entry(c, l, s, e);
      l' == l.(handed := l'.handed, late := l.late + |ExpiredDrops(c, s, e, None)|)
  {
    CommitDrops(c, s, e);
    RetrieveOutcome(s.store.staging, c.maxStaging, e.txnHash, e.now);
    hide Inv, Retrieve, Assemble, ExpiredDrops, Lines, LinesOfEach, Terminated;
  }

  lemma CommitDrops(c: Config, s: State, e: Event)
    requires e.Commit?
    ensures ExpiredDrops(c, s, e, None) == if FoundLate(s, e) then {e.txnHash} else {}
  {
  }

  lemma DropsAreBooked(c: Config, l: Ledger, s: State, e: Event)
    requires Inv(s.store.staging, c.maxStaging) && Enabled(c, s, e)
    ensures var l' := Entry(c, l, s, e);
      |ExpiredDrops(c, s, e, None)| == l'.swept + l'.late + l'.reset + l'.lapsed - (l.swept + l.late + l.reset + l.lapsed)
  {
    hide Inv;
    if e.Append? {
      AppendDropsAreBooked(c, l, s, e);
      hide Entry;
    } else if e.Commit? {
      CommitDropsAreBooked(c, l, s, e);
      hide Entry;
    } else if e.Clean? {
      SweepDrops(c, s, e, "");
    }
  }

  /** The dropped expired transactions of a run are those that the ledger has as swept, late, reset or lapsed. */
  lemma {:induction false} AllDropsAreBooked(c: Config, es: seq<Event>)
    requires IsRun(c, es)
    ensures var l := LedgerOf(c, es);
      DropsOf(c, es, None, false) == l.swept + l.late + l.reset + l.lapsed
  {
    if es == [] {
      NothingDropped(c, None, false);
      EmptyLedger(c);
      hide DropsOf, LedgerOf;
    } else {
      var n := |es| - 1;
      DropsGrow(c, es, None, false);
      LedgerGrows(c, es);
      hide DropsOf, LedgerOf, After, At, Step, Enabled, Inv, ExpiredDrops, Entry, IsRun;
      AllDropsAreBooked(c, es[..n]);
      ReachableStaging(c, es[..n]);
      DropsAreBooked(c, LedgerOf(c, es[..n]), After(c, es[..n]).value, es[n]);
    }
  }

  // ---- What the counters tell ----

  lemma SweepDrops(c: Config, s: State, e: Event, id: string)
    requires e.Clean?
    ensures ExpiredDrops(c, s, e, None) == ExpiredAt(s.store.staging, e.now)
    ensures ExpiredDrops(c, s, e, Some(id)) == ChargedTo(s.store.staging, ExpiredAt(s.store.staging, e.now), id)
  {
  }

  lemma StepCountsOwn(c: Config, s: State, e: Event, id: string)
    requires Enabled(c, s, e)
    ensures StateOf(Step(c, s, e).store.live, id).stats.expired
            == StateOf(s.store.live, id).stats.expired + if e.Clean? then |ExpiredDrops(c, s, e, Some(id))| else 0
  {
    if e.Clean? {
      CollectedAt(s.store, ExpiredAt(s.store.staging, e.now), id);
      SweepDrops(c, s, e, id);
      hide ExpiredDrops, Collected, ChargedTo, StateOf;
    } else {
      hide ExpiredDrops, Staging.Append, Retrieve, Outcome, IntervalOf, Ttl;
    }
  }

  /** Over any run, an instance's counter is the number of its transactions that sweeps dropped. */
  lemma {:induction false} CounterCountsOwnSweeps(c: Config, es: seq<Event>, id: string)
    requires IsRun(c, es)
    ensures StateOf(After(c, es).value.store.live, id).stats.expired == DropsOf(c, es, Some(id), true)
  {
    if es == [] {
      NothingAtStart(c);
      NothingDropped(c, Some(id), true);
      hide DropsOf, After;
    } else {
      var n := |es| - 1;
      DropsGrow(c, es, Some(id), true);
      hide DropsOf, After, At, Step, Enabled, ExpiredDrops, StateOf, IsRun;
      CounterCountsOwnSweeps(c, es[..n], id);
      StepCountsOwn(c, After(c, es[..n]).value, es[n], id);
    }
  }

  lemma {:induction false} CountersCountAllSweeps(c: Config, es: seq<Event>)
    requires IsRun(c, es)
    ensures Sum(Counters(After(c, es).value.store.live)) == DropsOf(c, es, None, true)
  {
    if es == [] {
      NothingAtStart(c);
      NothingDropped(c, None, true);
      hide DropsOf, After;
      assert Counters(map[]) == map[];
    } else {
      var n := |es| - 1;
      DropsGrow(c, es, None, true);
      hide DropsOf, After, At, Step, Enabled, ExpiredDrops, Counters, IsRun;
      CountersCountAllSweeps(c, es[..n]);
      StepCounts(c, After(c, es[..n]).value, es[n]);
      if es[n].Clean? {
        SweepDrops(c, After(c, es[..n]).value, es[n], "");
      }
    }
  }

  // ---- What the counters miss ----

  ghost predicate FoundLate(s: State, e: Event) {
    e.Commit? && e.txnHash in s.store.staging.items && IsExpired(s.store.staging.items[e.txnHash], e.now)
  }

  /** An append that opens a transaction in the place of an older one past its deadline. */
  ghost predicate EvictsExpired(c: Config, s: State, e: Event) {
    e.Append? && Opens(c, s, e) && exists h :: h in Replaced(s, e) && IsExpired(s.store.staging.items[h], e.now)
  }

  /**
   An append or a commit that drops an expired transaction of the instance, or of any: the
   one under its own hash, or an older one that a newly opened one replaces.
   */
  ghost predicate DropsUncounted(c: Config, s: State, e: Event, who: Option<string>) {
    || ((ResetsExpired(s, e) || FoundLate(s, e)) && Concerns(who, s.store.staging.items[e.txnHash].instanceId))
    || (EvictsExpired(c, s, e) && Concerns(who, e.instanceId))
  }

  lemma UncountedExactlyIfDropped(c: Config, s: State, e: Event, who: Option<string>)
    requires !e.Clean?
    ensures DropsUncounted(c, s, e, who) <==> ExpiredDrops(c, s, e, who) != {}
  {
    hide Opens;
    if DropsUncounted(c, s, e, who) {
      if EvictsExpired(c, s, e) && Concerns(who, e.instanceId) {
        var h :| h in Replaced(s, e) && IsExpired(s.store.staging.items[h], e.now);
        assert h in ExpiredDrops(c, s, e, who);
      } else {
        assert e.txnHash in ExpiredDrops(c, s, e, who);
      }
    }
    if h :| h in ExpiredDrops(c, s, e, who) {
      if e.Append? && !(ResetsExpired(s, e) && h == e.txnHash) {
        assert h in Replaced(s, e) && IsExpired(s.store.staging.items[h], e.now);
      }
    }
  }

  ghost predicate MissesDropAt(c: Config, es: seq<Event>, i: nat, who: Option<string>)
    requires IsRun(c, es) && i < |es|
  {
    DropsUncounted(c, At(c, es, i), es[i], who)
  }

  /** Splitting off the last event from a statement about all events of a run. */
  lemma MissedBefore(c: Config, init: seq<Event>, es: seq<Event>, who: Option<string>)
    requires IsRun(c, es) && es != [] && init == es[..|es| - 1] && IsRun(c, init)
    ensures (forall i :: 0 <= i < |es| ==> !MissesDropAt(c, es, i, who))
            <==> (forall i :: 0 <= i < |init| ==> !MissesDropAt(c, init, i, who)) && !MissesDropAt(c, es, |es| - 1, who)
  {
    hide IsRun, MissesDropAt;
    forall i | 0 <= i < |init|
      ensures MissesDropAt(c, init, i, who) <==> MissesDropAt(c, es, i, who)
    {
      MissedInPrefix(c, init, es, i, who);
    }
  }

  lemma MissedInPrefix(c: Config, init: seq<Event>, es: seq<Event>, i: nat, who: Option<string>)
    requires IsRun(c, es) && es != [] && init == es[..|es| - 1] && IsRun(c, init) && i < |init|
    ensures MissesDropAt(c, init, i, who) <==> MissesDropAt(c, es, i, who)
  {
    AtPrefix(c, es, |init|, i);
    hide At, IsRun, DropsUncounted;
  }

  lemma SweepsMissNothing(c: Config, s: State, e: Event, who: Option<string>)
    requires e.Clean?
    ensures !DropsUncounted(c, s, e, who)
  {
  }

  lemma {:induction false} MissedDrops(c: Config, es: seq<Event>, who: Option<string>)
    requires IsRun(c, es)
    ensures DropsOf(c, es, who, true) <= DropsOf(c, es, who, false)
    ensures DropsOf(c, es, who, true) == DropsOf(c, es, who, false) <==> forall i :: 0 <= i < |es| ==> !MissesDropAt(c, es, i, who)
  {
    if es == [] {
      NothingDropped(c, who, true);
      NothingDropped(c, who, false);
      hide DropsOf;
    } else {
      var n := |es| - 1;
      DropsGrow(c, es, who, true);
      DropsGrow(c, es, who, false);
      var s := At(c, es, n);
      if es[n].Clean? {
        SweepsMissNothing(c, s, es[n], who);
      } else {
        UncountedExactlyIfDropped(c, s, es[n], who);
      }
      hide DropsOf, After, At, Step, Enabled, DropsUncounted, ExpiredDrops, IsRun;
      MissedDrops(c, es[..n], who);
      MissedBefore(c, es[..n], es, who);
    }
  }

  /**
   The counters are documented as the total of transactions dropped because they expired.
   They are that total exactly when no append and no commit ever dropped an expired one,
   be it under its own hash or as the older transaction of the instance.
   */
  lemma CountersAreCompleteExactlyWhen(c: Config, es: seq<Event>)
    requires IsRun(c, es)
    ensures Sum(Counters(After(c, es).value.store.live)) == DropsOf(c, es, None, false)
            <==> forall i :: 0 <= i < |es| ==> !MissesDropAt(c, es, i, None)
  {
    CountersCountAllSweeps(c, es);
    MissedDrops(c, es, None);
    hide DropsOf, After, MissesDropAt, IsRun;
  }

  /** So is each instance's own counter the total of its own expired transactions that were dropped. */
  lemma OwnCounterIsCompleteExactlyWhen(c: Config, es: seq<Event>, id: string)
    requires IsRun(c, es)
    ensures StateOf(After(c, es).value.store.live, id).stats.expired == DropsOf(c, es, Some(id), false)
            <==> forall i :: 0 <= i < |es| ==> !MissesDropAt(c, es, i, Some(id))
  {
    CounterCountsOwnSweeps(c, es, id);
    MissedDrops(c, es, Some(id));
    hide DropsOf, After, MissesDropAt, IsRun;
  }

  // ---- Runs in which the counters miss a drop ----

  /** One chunk under a hash, for an instance that nothing else is known of. */
  lemma OneChunkIsStaged(c: Config, e: Event)
    requires c.maxStaging >= 1 && e == Append("old", "srv", 0, [NEWLINE], 0)
    ensures Enabled(c, INITIAL, e)
    ensures Step(c, INITIAL, e).store.staging.items == map["old" := Txn(c.transactionTtl, map[0 := [NEWLINE]], "srv", 1)]
    ensures Step(c, INITIAL, e).store.live == map[] && Step(c, INITIAL, e).jobs == map[]
    ensures forall l: Ledger :: Entry(c, l, INITIAL, e).late == l.late && Entry(c, l, INITIAL, e).swept == l.swept
                                && Entry(c, l, INITIAL, e).lapsed == l.lapsed
  {
    NothingStaged(c);
    assert !IsOpen(EMPTY, "old", 0);
    assert Replaced(INITIAL, e) == {} && Lapsed(INITIAL, e) == {};
    hide Staging.Append, Inv, Opens, ResetsExpired, Replaced, Lapsed;
    AppendToNew(EMPTY, c.maxStaging, "old", "srv", 0, [NEWLINE], 0, Ttl(INITIAL.store.live, "srv", c.transactionTtl));
    assert EMPTY.items - {"old"} - OwnedBy(EMPTY, "srv") == map[];
  }

  /** One chunk, committed a nanosecond too late: dropped as expired, and no counter says so. */
  lemma LateCommitIsNotCounted(c: Config) returns (es: seq<Event>)
    requires c.maxStaging >= 1
    ensures |es| == 2 && IsRun(c, es)
    ensures LedgerOf(c, es).late == 1 && Sum(Counters(After(c, es).value.store.live)) == 0
  {
    var append := Append("old", "srv", 0, [NEWLINE], 0);
    var commit := Commit(0, "srv", "old", c.transactionTtl + 1);
    es := [] + [append] + [commit];
    NothingAtStart(c);
    EmptyLedger(c);
    OneChunkIsStaged(c, append);
    LateCommitDrops(c, Step(c, INITIAL, append), commit);
    hide Step, Enabled, After, Entry, LedgerOf, IsRun;
    LedgerOneMore(c, [], append);
    LedgerOneMore(c, [] + [append], commit);
    ExpiryCountersCountSweepsOnly(c, es);
  }

  lemma LateCommitDrops(c: Config, s: State, e: Event)
    requires s.jobs == map[] && "old" in s.store.staging.items && s.store.staging.items["old"].expiresAt == c.transactionTtl
    requires e == Commit(0, "srv", "old", c.transactionTtl + 1)
    ensures Enabled(c, s, e)
    ensures forall l: Ledger :: Entry(c, l, s, e).late == l.late + 1 && Entry(c, l, s, e).swept == l.swept
  {
    RetrieveFound(s.store.staging, "old", e.now);
    hide Retrieve;
  }

  /**
   The ordinary fate of an abandoned upload: the next one of the instance, started after
   its deadline, drops it before any sweep does, and no counter says so.
   */
  lemma EvictionIsNotCounted(c: Config) returns (es: seq<Event>)
    requires c.maxStaging >= 2
    ensures |es| == 2 && IsRun(c, es)
    ensures LedgerOf(c, es).lapsed == 1 && Sum(Counters(After(c, es).value.store.live)) == 0
  {
    var first := Append("old", "srv", 0, [NEWLINE], 0);
    var next := Append("new", "srv", 0, [NEWLINE], c.transactionTtl + 1);
    es := [] + [first] + [next];
    NothingAtStart(c);
    EmptyLedger(c);
    OneChunkIsStaged(c, first);
    hide After, LedgerOf, IsRun;
    LedgerOneMore(c, [], first);
    ReachableStaging(c, [] + [first]);
    NextUploadEvicts(c, Step(c, INITIAL, first), next);
    hide Step, Enabled, Entry, Inv;
    LedgerOneMore(c, [] + [first], next);
    ExpiryCountersCountSweepsOnly(c, es);
  }

  lemma NextUploadEvicts(c: Config, s: State, e: Event)
    requires c.maxStaging >= 2 && Inv(s.store.staging, c.maxStaging)
    requires s.store.staging.items == map["old" := Txn(c.transactionTtl, map[0 := [NEWLINE]], "srv", 1)]
    requires e == Append("new", "srv", 0, [NEWLINE], c.transactionTtl + 1)
    ensures Enabled(c, s, e)
    ensures forall l: Ledger :: Entry(c, l, s, e).lapsed == l.lapsed + 1 && Entry(c, l, s, e).swept == l.swept
  {
    NextUploadOpens(c, s, e);
    OneIsLapsed(s, e);
    hide Inv, Opens, Replaced, Lapsed, ResetsExpired;
  }

  lemma OneIsLapsed(s: State, e: Event)
    requires e.Append? && e.txnHash == "new" && e.instanceId == "srv"
    requires s.store.staging.items.Keys == {"old"}
    requires s.store.staging.items["old"].instanceId == "srv" && e.now > s.store.staging.items["old"].expiresAt
    ensures Lapsed(s, e) == {"old"} && |Lapsed(s, e)| == 1
  {
    assert Lapsed(s, e) == {"old"};
  }

  lemma NextUploadOpens(c: Config, s: State, e: Event)
    requires c.maxStaging >= 2 && Inv(s.store.staging, c.maxStaging)
    requires s.store.staging.items == map["old" := Txn(c.transactionTtl, map[0 := [NEWLINE]], "srv", 1)]
    requires e == Append("new", "srv", 0, [NEWLINE], c.transactionTtl + 1)
    ensures Opens(c, s, e)
  {
    var b := s.store.staging;
    OneTransactionSize(b, c.maxStaging, "old");
    assert b.size == 1 && "new" !in b.items;
    hide Staging.Append, Inv, Ttl;
    QuotaIgnoresReplaceableBytes(b, c.maxStaging, "new", "srv", 0, [NEWLINE], e.now, Ttl(s.store.live, "srv", c.transactionTtl));
  }

  lemma OneTransactionSize(b: Buffer, max: int, hash: string)
    requires Inv(b, max) && b.items.Keys == {hash}
    ensures b.size == b.items[hash].byteSize
  {
    SumRemove(Sizes(b.items), hash);
    assert Sizes(b.items) - {hash} == map[];
  }
}
