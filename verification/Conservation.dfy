/** Where transactions go: a ledger kept over the events of a run, and its balance. */
module Conservation {
  import opened Wrappers
  import opened MapSums
  import opened Metrics
  import opened Text
  import opened Staging
  import opened Live
  import opened Normaliser
  import opened System
  import opened Reachable
  import opened History

  /**
   Transactions opened, handed to a commit, found too late by a commit, replaced by a newer
   one of the instance before or after (`lapsed`) their deadline, reset by a late append,
   and swept by the collector.
   */
  datatype Ledger = Ledger(created: int, handed: int, late: int, replaced: int, lapsed: int, reset: int, swept: int) {
    function Closed(): int {
      handed + late + replaced + lapsed + reset + swept
    }
  }

  ghost predicate ResetsExpired(s: State, e: Event) {
    e.Append? && e.txnHash in s.store.staging.items && IsExpired(s.store.staging.items[e.txnHash], e.now)
  }

  /** The other open transactions of the instance for which a transaction is opened. */
  ghost function Replaced(s: State, e: Event): set<string>
    requires e.Append?
  {
    OwnedBy(s.store.staging, e.instanceId) - {e.txnHash}
  }

  /** Those of them that are past their deadline and were not swept yet. */
  ghost function Lapsed(s: State, e: Event): set<string>
    requires e.Append?
  {
    Replaced(s, e) * ExpiredAt(s.store.staging, e.now)
  }

  ghost function Entry(c: Config, l: Ledger, s: State, e: Event): Ledger {
    match e
    case Append(_, _, _, _, _) =>
      l.(created := l.created + if Opens(c, s, e) then 1 else 0,
         replaced := l.replaced + if Opens(c, s, e) then |Replaced(s, e) - Lapsed(s, e)| else 0,
         lapsed := l.lapsed + if Opens(c, s, e) then |Lapsed(s, e)| else 0,
         reset := l.reset + if ResetsExpired(s, e) then 1 else 0)
    case Commit(_, _, txnHash, now) =>
      var found := Retrieve(s.store.staging, txnHash, now).1;
      l.(handed := l.handed + if found.Stream? then 1 else 0,
         late := l.late + if txnHash in s.store.staging.items && found.Missing? then 1 else 0)
    case Clean(now) =>
      l.(swept := l.swept + |ExpiredAt(s.store.staging, now)|)
    case _ => l
  }

  ghost function LedgerOf(c: Config, es: seq<Event>): Ledger
    requires IsRun(c, es)
  {
    if es == [] then NOTHING
    else
      PrefixIsRun(c, es, |es| - 1);
      var init := es[..|es| - 1];
      Entry(c, LedgerOf(c, init), After(c, init).value, es[|es| - 1])
  }

  ghost predicate Balanced(l: Ledger, b: Buffer) {
    l.created == |b.items| + l.Closed()
  }

  lemma SizeAfterRemoval<V>(m: map<string, V>, gone: set<string>)
    requires gone <= m.Keys
    ensures |m - gone| == |m| - |gone|
  {
    assert (m - gone).Keys == m.Keys - gone;
    assert |(m - gone).Keys| == |m.Keys| - |gone|;
  }

  lemma AppendBalances(c: Config, l: Ledger, s: State, e: Event)
    requires Inv(s.store.staging, c.maxStaging) && e.Append? && Balanced(l, s.store.staging)
    ensures Balanced(Entry(c, l, s, e), AppendAt(c, s, e).buffer)
  {
    hide Inv;
    if IsOpen(s.store.staging, e.txnHash, e.now) {
      OpenAppendBalances(c, l, s, e);
    } else {
      NewAppendBalances(c, l, s, e);
    }
  }

  lemma OpenAppendBalances(c: Config, l: Ledger, s: State, e: Event)
    requires Inv(s.store.staging, c.maxStaging) && e.Append? && Balanced(l, s.store.staging)
    requires IsOpen(s.store.staging, e.txnHash, e.now)
    ensures Entry(c, l, s, e) == l && Balanced(l, AppendAt(c, s, e).buffer)
  {
    var b, ttl := s.store.staging, Ttl(s.store.live, e.instanceId, c.transactionTtl);
    assert !Opens(c, s, e) && !ResetsExpired(s, e);
    hide Staging.Append, Inv, Ttl, Opens, ResetsExpired, Replaced, Lapsed, IsOpen;
    AppendToOpen(b, c.maxStaging, e.txnHash, e.instanceId, e.seqId, e.data, e.now, ttl);
    SizeAfterRewrite(b.items, AppendAt(c, s, e).buffer.items);
  }

  lemma SizeAfterRewrite<V>(m: map<string, V>, n: map<string, V>)
    requires m.Keys == n.Keys
    ensures |m| == |n|
  {
    assert |m| == |m.Keys| && |n| == |n.Keys|;
  }

  lemma NewAppendBalances(c: Config, l: Ledger, s: State, e: Event)
    requires Inv(s.store.staging, c.maxStaging) && e.Append? && Balanced(l, s.store.staging)
    requires !IsOpen(s.store.staging, e.txnHash, e.now)
    ensures Balanced(Entry(c, l, s, e), AppendAt(c, s, e).buffer)
  {
    var b, ttl := s.store.staging, Ttl(s.store.live, e.instanceId, c.transactionTtl);
    var r, owned := AppendAt(c, s, e), OwnedBy(b, e.instanceId);
    assert ResetsExpired(s, e) <==> e.txnHash in b.items;
    assert owned <= b.items.Keys;
    hide Staging.Append, Inv, Ttl, OwnedBy, IsOpen, ResetsExpired;
    AppendToNew(b, c.maxStaging, e.txnHash, e.instanceId, e.seqId, e.data, e.now, ttl);
    CountKept(b.items, e.txnHash, owned);
    SplitSize(Replaced(s, e), Lapsed(s, e));
    hide Lapsed;
    if r.accepted {
      SizeAfterInsert(b.items - {e.txnHash} - owned, e.txnHash, r.buffer.items[e.txnHash]);
    }
  }

  lemma SplitSize(all: set<string>, part: set<string>)
    requires part <= all
    ensures |all| == |all - part| + |part|
  {
  }

  lemma SizeAfterInsert<V>(m: map<string, V>, k: string, v: V)
    requires k !in m
    ensures |m[k := v]| == |m| + 1
  {
    assert m[k := v].Keys == m.Keys + {k};
    assert |m[k := v]| == |m[k := v].Keys| == |m.Keys| + 1;
  }

  lemma CountKept(items: map<string, Txn>, hash: string, owned: set<string>)
    requires owned <= items.Keys
    ensures |items - {hash}| == |items| - (if hash in items then 1 else 0)
    ensures |items - {hash} - owned| == |items - {hash}| - |owned - {hash}|
  {
    if hash in items {
      SizeAfterRemoval(items, {hash});
    } else {
      MapMinus(items, {hash}, {});
      SizeAfterRemoval(items, {});
    }
    var rest := items - {hash};
    assert owned - {hash} <= rest.Keys;
    SizeAfterRemoval(rest, owned - {hash});
    MapMinus(rest, owned, owned - {hash});
  }

  lemma MapMinus<V>(m: map<string, V>, a: set<string>, b: set<string>)
    requires forall k :: k in m ==> (k in a <==> k in b)
    ensures m - a == m - b
  {
  }

  lemma CommitBalances(c: Config, l: Ledger, s: State, e: Event)
    requires e.Commit? && Enabled(c, s, e) && Balanced(l, s.store.staging)
    ensures Balanced(Entry(c, l, s, e), Step(c, s, e).store.staging)
  {
    hide Retrieve, Assemble, Outcome, Staging.Append, Live.Collect, Opens, Replaced, ResetsExpired;
    var b := s.store.staging;
    if e.txnHash in b.items {
      RetrieveFound(b, e.txnHash, e.now);
      SizeAfterRemoval(b.items, {e.txnHash});
    } else {
      RetrieveMissing(b, e.txnHash, e.now);
    }
  }

  lemma CleanBalances(c: Config, l: Ledger, s: State, e: Event)
    requires e.Clean? && Balanced(l, s.store.staging)
    ensures Balanced(Entry(c, l, s, e), Step(c, s, e).store.staging)
  {
    SizeAfterRemoval(s.store.staging.items, ExpiredAt(s.store.staging, e.now));
  }

  lemma StepBalances(c: Config, l: Ledger, s: State, e: Event)
    requires Inv(s.store.staging, c.maxStaging) && Enabled(c, s, e) && Balanced(l, s.store.staging)
    ensures Balanced(Entry(c, l, s, e), Step(c, s, e).store.staging)
  {
    hide Inv, Outcome, Staging.Append, Retrieve, Live.Collect, Opens, ResetsExpired;
    match e
    case Append(_, _, _, _, _) => AppendBalances(c, l, s, e);
    case Commit(_, _, _, _) => CommitBalances(c, l, s, e);
    case Clean(_) => CleanBalances(c, l, s, e);
    case _ =>
  }

  lemma LedgerGrows(c: Config, es: seq<Event>)
    requires IsRun(c, es) && es != []
    ensures var n := |es| - 1;
      && IsRun(c, es[..n])
      && var s := After(c, es[..n]).value;
      && Enabled(c, s, es[n])
      && After(c, es).value == Step(c, s, es[n])
      && LedgerOf(c, es) == Entry(c, LedgerOf(c, es[..n]), s, es[n])
  {
    hide Entry, Step, Enabled;
    PrefixIsRun(c, es, |es| - 1);
  }

  lemma NothingAtStart(c: Config)
    ensures After(c, []) == Some(INITIAL)
  {
  }

  const NOTHING := Ledger(0, 0, 0, 0, 0, 0, 0)

  lemma EmptyLedger(c: Config)
    requires IsRun(c, [])
    ensures LedgerOf(c, []) == NOTHING
  {
  }

  lemma NothingIsBalanced()
    ensures Balanced(NOTHING, EMPTY)
  {
  }

  /**
   Over any run, every opened transaction is still open or has gone exactly one of six
   ways: handed to a commit, dropped at a late commit, replaced by a newer one before or
   after its deadline, reset, or swept.
   */
  lemma {:induction false} TransactionsAreConserved(c: Config, es: seq<Event>)
    requires IsRun(c, es)
    ensures Balanced(LedgerOf(c, es), After(c, es).value.store.staging)
  {
    hide Entry, Step, Enabled, Inv, Balanced, After, LedgerOf;
    if es == [] {
      NothingAtStart(c);
      EmptyLedger(c);
      NothingIsBalanced();
    } else {
      LedgerGrows(c, es);
      var n := |es| - 1;
      TransactionsAreConserved(c, es[..n]);
      ReachableStaging(c, es[..n]);
      StepBalances(c, LedgerOf(c, es[..n]), After(c, es[..n]).value, es[n]);
    }
  }

  // ---- The expiry counters ----

  ghost function Counters(live: Instances<Family>): map<string, int> {
    map id | id in live :: live[id].stats.expired
  }

  lemma CountersUpdate(live: Instances<Family>, id: string, state: Instance<Family>)
    ensures Sum(Counters(live[id := state])) == Sum(Counters(live)) - StateOf(live, id).stats.expired + state.stats.expired
  {
    SumUpdate(Counters(live), id, state.stats.expired);
    assert Counters(live[id := state]) == Counters(live)[id := state.stats.expired];
  }

  lemma {:induction false} SweepCounts(s: Store<Family>, done: set<string>)
    requires done <= s.staging.items.Keys
    ensures Sum(Counters(Collected(s, done).live)) == Sum(Counters(s.live)) + |done|
    decreases |done|
  {
    if done == {} {
      CollectedNone(s);
    } else {
      var key :| key in done;
      var rest := done - {key};
      assert done == rest + {key};
      SweepCounts(s, rest);
      CollectedStep(s, rest, key);
      var owner := s.staging.items[key].instanceId;
      var before := Collected(s, rest).live;
      CountersUpdate(before, owner, Charge(StateOf(before, owner), 1));
    }
  }

  lemma StepCounts(c: Config, s: State, e: Event)
    requires Enabled(c, s, e)
    ensures Sum(Counters(Step(c, s, e).store.live))
            == Sum(Counters(s.store.live)) + (if e.Clean? then |ExpiredAt(s.store.staging, e.now)| else 0)
  {
    match e
    case Clean(now) =>
      SweepCounts(s.store, ExpiredAt(s.store.staging, now));
    case Publish(job, updated, ingested) =>
      var id := s.jobs[job].instanceId;
      CountersUpdate(s.store.live, id, WithIngest(StateOf(s.store.live, id), IngestOf(s.jobs[job], updated, ingested)));
    case Poll(id, source, polled) =>
      CountersUpdate(s.store.live, id, WithSource(StateOf(s.store.live, id), source, polled));
    case _ =>
  }

  /**
   The expiry counters of all instances together count exactly the transactions that
   the collector swept; those found expired by an append or a commit are not counted.
   */
  lemma {:induction false} ExpiryCountersCountSweepsOnly(c: Config, es: seq<Event>)
    requires IsRun(c, es)
    ensures Sum(Counters(After(c, es).value.store.live)) == LedgerOf(c, es).swept
  {
    if es == [] {
      assert Counters(map[]) == map[];
    } else {
      var init := es[..|es| - 1];
      PrefixIsRun(c, es, |es| - 1);
      ExpiryCountersCountSweepsOnly(c, init);
      StepCounts(c, After(c, init).value, es[|es| - 1]);
    }
  }

  lemma LedgerOneMore(c: Config, es: seq<Event>, e: Event)
    requires IsRun(c, es) && Enabled(c, After(c, es).value, e)
    ensures IsRun(c, es + [e]) && After(c, es + [e]) == Some(Step(c, After(c, es).value, e))
    ensures LedgerOf(c, es + [e]) == Entry(c, LedgerOf(c, es), After(c, es).value, e)
  {
    hide Step, Enabled, Entry;
    OneMore(c, es, e);
    LedgerGrows(c, es + [e]);
    assert (es + [e])[..|es|] == es;
    hide After, LedgerOf, IsRun;
  }

  // ---- At most one commit per transaction ----

  lemma CommitRemoves(c: Config, s: State, e: Event)
    requires e.Commit? && Enabled(c, s, e)
    ensures e.txnHash !in Step(c, s, e).store.staging.items
  {
  }

  lemma OnlyOpeningEnters(c: Config, s: State, e: Event, hash: string)
    requires Inv(s.store.staging, c.maxStaging) && Enabled(c, s, e)
    requires hash !in s.store.staging.items && hash in Step(c, s, e).store.staging.items
    ensures Opens(c, s, e) && e.txnHash == hash
  {
    StepOnTxn(c, s, e, hash);
  }

  ghost predicate StagedAt(c: Config, es: seq<Event>, i: nat, hash: string)
    requires IsRun(c, es) && i <= |es|
  {
    hash in At(c, es, i).store.staging.items
  }

  ghost predicate OpensAt(c: Config, es: seq<Event>, i: nat, hash: string)
    requires IsRun(c, es) && i < |es|
  {
    es[i].Append? && es[i].txnHash == hash && Opens(c, At(c, es, i), es[i])
  }

  lemma StagedOnlyByOpening(c: Config, es: seq<Event>, hash: string, i: nat)
    requires IsRun(c, es) && i < |es|
    requires !StagedAt(c, es, i, hash) && StagedAt(c, es, i + 1, hash)
    ensures OpensAt(c, es, i, hash)
  {
    RunStep(c, es, i);
    PrefixIsRun(c, es, i);
    ReachableStaging(c, es[..i]);
    hide Inv, Enabled, Step;
    OnlyOpeningEnters(c, At(c, es, i), es[i], hash);
  }

  /** A hash enters the buffer only by an accepted append that opens a transaction. */
  lemma {:induction false} AbsentUntilOpened(c: Config, es: seq<Event>, hash: string, i: nat, j: nat) returns (k: nat)
    requires IsRun(c, es) && i <= j <= |es|
    requires !StagedAt(c, es, i, hash) && StagedAt(c, es, j, hash)
    ensures i <= k < j && OpensAt(c, es, k, hash)
    decreases j
  {
    hide StagedAt, OpensAt, IsRun;
    assert i != j;
    if StagedAt(c, es, j - 1, hash) {
      k := AbsentUntilOpened(c, es, hash, i, j - 1);
    } else {
      StagedOnlyByOpening(c, es, hash, j - 1);
      k := j - 1;
    }
  }

  /** Event `i` is a commit that is handed the transaction under this hash. */
  ghost predicate Hands(c: Config, es: seq<Event>, i: nat, hash: string)
    requires IsRun(c, es) && i < |es|
  {
    es[i].Commit? && es[i].txnHash == hash && Retrieve(At(c, es, i).store.staging, hash, es[i].now).1.Stream?
  }

  /** Between two commits that are handed data under the same hash, a new transaction was opened under it. */
  lemma OneCommitPerTransaction(c: Config, es: seq<Event>, hash: string, i: nat, j: nat) returns (k: nat)
    requires IsRun(c, es) && i < j < |es|
    requires Hands(c, es, i, hash) && Hands(c, es, j, hash)
    ensures i < k < j && OpensAt(c, es, k, hash)
  {
    RunStep(c, es, i);
    CommitRemoves(c, At(c, es, i), es[i]);
    k := AbsentUntilOpened(c, es, hash, i + 1, j);
  }
}
