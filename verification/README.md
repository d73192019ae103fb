# A verified model of the MetricZ exporter's ingest pipeline

Game servers push metrics to the exporter in chunks or in one piece; pollers add what they
learn over A2S and RCon; Prometheus scrapes the result and a public page shows a digest of
it. This Dafny project models that pipeline as one stateful system and proves properties of
all its runs.

`dafny verify dfyconfig.toml` checks everything.

## How the model is built

Code that works in place is modelled in place: `Storage.Storage` is a class over two maps of
mutable records, the parser rewrites metric objects, the RCon session keeps a connection
object. Every such method is proved to compute a function on values: the staging buffer as
`Staging.Buffer`, the live store as `Live.Instances`, a payload's possible results as the
relation `Normaliser.Outcome`, a scrape as a multiset, a public status as
`PublicStatus.PublicOf`. A `for range` over a Go map is a loop over an arbitrary listing of
its keys (`Ordering.RangeOrder`), and the contracts show that the listing does not matter.

What is promised across calls is proved about those functions. `System` is the whole exporter as a
state machine: an append, each of the three steps of a commit (retrieve, parse, publish), a
poll, a sweep, and each of the three steps of a status request (look up, snapshot, fill) are
events that interleave freely, and a run is any sequence of possible events. Clock readings
are arguments of the events. They need not be ordered, so every theorem holds in particular
for clocks that never run backwards; times are integers in nanoseconds.

Two bridges connect the object store with the machine. `Reading` reads every family object as
the family that it denotes; `Refinement.ObjectStoreFollowsRun` shows that the objects go
through exactly the stores of the machine's runs. And an append lets other operations at the
live store while it works; `Refinement.InterruptedAppendsAreAtomic` shows that every such
interleaving ends as a run of the machine in which the append is one event, and
`Interleaving.InterleavingsAreRuns` that the two locks allow no other interleavings.

| file | content |
|---|---|
| Ordering, MapSums, Text, Wrappers | orders and sorting, totals over maps, bytes and lines, option types |
| Metrics | metric families, as values and as objects |
| Staging, Live | the two halves of the store as values |
| Reading | family objects read as values |
| Storage | the store as an object |
| Labels, Dedup, Normaliser | the payload parser |
| Handlers | chunk, commit and single-shot handlers |
| Snapshots | sequences of store operations, and the stability of shallow snapshots |
| Collector, PublicStatus | the two read sides |
| System | the state machine and its runs |
| Reachable | the invariant of all reachable states and its consequences |
| History | what a transaction holds, when it leaves, chunked against single-shot ingest |
| Conservation | where transactions go |
| Expiry | which expired transactions are dropped, and which of them are counted |
| Staleness | what a scrape reports, told from the published payloads |
| Provenance | every published payload was sent |
| Scrapes | a whole scrape in plain terms |
| StatusCache | the status endpoint and its cache |
| Refinement | the object store follows the machine's runs; interrupted appends are atomic |
| Locks | the two locks |
| Interleaving | the locks and the data together |
| Rcon | the RCon session and its gauges |

## Where code and documentation differ

The model follows the code. Each point has a lemma.

- README.md:143 says that a new transaction drops the instance's previous one. The quota is
  tested before that, so a replacement can be refused although it would fit in the place of
  what it replaces (`Staging.QuotaIgnoresReplaceableBytes`, `Staging.QuotaRefusesReplacement`);
  exactly when is said by `Staging.QuotaCountsReplaceableBytesExactlyWhen`.
- METRICS.md:14 calls the expiry counter the total of transactions dropped due to expiry.
  Only those that a sweep drops are counted
  (`Conservation.ExpiryCountersCountSweepsOnly`). Not counted are one that a commit finds
  (the run `Expiry.LateCommitIsNotCounted`), one that an append finds under its own hash, and
  one that the instance's next upload replaces, which is the ordinary fate of an abandoned
  upload (`Expiry.EvictionIsNotCounted`). The counters are complete exactly when none of the
  three ever happened: `Expiry.CountersAreCompleteExactlyWhen` for all instances together,
  `Expiry.OwnCounterIsCompleteExactlyWhen` for each. Nothing else removes a transaction:
  `Expiry.RemovedIsWhatLeaves`.
- README.md:138-140 gives a transaction the longer of the default and the instance's interval,
  60 seconds if unknown. An unknown instance gets the default
  (`Live.UnknownInstanceGetsDefaultTtl`), and an interval loses its fraction
  (`Live.FractionIsLost`: 15.5 seconds become 15). The documented lifetime is given exactly
  when `Staleness.LifetimeIsDocumentedExactlyWhen` says, after any run.
- README.md:281 says that other metric types are ignored by the public status. A wanted
  family of another type is exported as 0 (`PublicStatus.OtherTypesCountAsZero`), and hides
  numbers of the same name from a source below (`PublicStatus.UntypedHidesAGauge`). When that
  makes a difference is said by `PublicStatus.OtherTypesAreIgnoredExactlyWhen`.
- An append to an open transaction ignores the instance in the request
  (`Staging.AppendIgnoresInstanceOfOpenTxn`), and a commit publishes for the instance in its
  own URL (`Handlers.Handler.HandleCommit`).
- An instance called `all` shares its cache key with the full status. Its own status can
  replace the full one (`StatusCache.FullStatusIsLostExactlyToANamesake`), and a request for it
  is answered with the full one, even if it does not exist, exactly when that is cached
  (`StatusCache.SingleRequestAnswers`, `StatusCache.UnknownAllIsServed`).
- Deduplication promises that the last write wins. That is so exactly when the hash keeps the
  label lists of a family apart (`Dedup.LastWriteWins`); labels with a NUL can defeat
  every hash (`Dedup.NulLosesASeries`).
- The test for an oversized body compares 26 characters with a text of 28, so the answer is
  400 and never 413: `Handlers.OversizedIsNeverRecognised`.

## Assumptions

- The text decoder, the integer parser, the BattlEye id and the hash are arbitrary functions
  (`Labels.Libraries`). Only one thing is assumed, and only where a lemma says so
  (`DecodesDistinctNames`): the decoder never delivers a sample with a repeated label name.
  Nothing about staging, transactions, the cache or the counters depends on it.
- Which label lists the Prometheus client library accepts is an arbitrary predicate.
- The players in an RCon answer are an arbitrary function of its text.
- `Libraries.decode` returns the families that were complete before the end or the first
  error; a successful decode has read the whole body.

## Model

| member | source | states |
|---|---|---|
| Staging.AppendToOpen | internal/storage/staging.go:76-91 | A chunk for an open transaction is accepted exactly when the size difference to the chunk it replaces fits; a refusal changes nothing; owner, deadline and every other transaction stay |
| Staging.AppendToNew | internal/storage/staging.go:30-91 | A chunk under a hash with nothing open is accepted exactly when it fits beside everything staged, less the expired transaction under this hash; it then replaces that one and every other one of the instance |
| Staging.AppendKeepsInv | internal/storage/staging.go:22-92 | Every append keeps the staging invariant: no empty transaction, one per instance, exact byte total within the quota |
| Staging.RejectionIsAtomic | internal/storage/staging.go:39-41 | A refused append leaves every unexpired transaction as it was and frees at most the expired one under the same hash |
| Staging.QuotaIgnoresReplaceableBytes | internal/storage/staging.go:39-49 | Starting a transaction fails exactly when the payload does not fit beside everything staged, the instance's older transaction included; once started it is the instance's only one |
| Staging.QuotaRefusesReplacement | internal/storage/staging.go:39-49 | A concrete buffer in which a payload that would fit after the eviction is refused at every time |
| Staging.QuotaCountsReplaceableBytesExactlyWhen | internal/storage/staging.go:39-49 | The quota behaves as if the older transaction were dropped first exactly when the payload fits beside that one too, or fits neither way |
| Staging.AppendIgnoresInstanceOfOpenTxn | internal/storage/staging.go:26-38 | An append to an open transaction does not depend on the instance it names |
| Staging.Accounting | internal/storage/staging.go:88-89 | The running total is the sum of all staged chunk lengths and lies between 0 and the quota |
| Staging.NoOverflow | internal/storage/staging.go:31-104 | No 64-bit intermediate of the byte accounting overflows when quota plus payload fits: the checks before and after any eviction, and the subtractions of any removals |
| Staging.RemoveKeepsInv | internal/storage/gc.go:60-61 | Deleting any set of transactions and returning their bytes keeps the invariant and never makes the total negative |
| Staging.RetrieveOutcome | internal/storage/staging.go:95-133 | Retrieval is one-shot: the transaction is gone and its bytes are returned; it succeeds exactly when the transaction exists and its deadline is not past, with at least one chunk, and then yields the ascending join with its exact size, which exceeds the staged bytes by at most one per chunk and contains the chunks' lines unbroken |
| Staging.StreamOf | internal/storage/staging.go:118-133 | Stream length against staged bytes, equal exactly when every chunk ends its line |
| Text.NoLineSpansTwoChunks | internal/storage/staging.go:122-131 | The joined stream ends a line and its lines are the lines of the chunks, chunk after chunk |
| Text.AssembledSize | internal/storage/staging.go:118-131 | Bounds of the reported size, and when it equals the staged bytes |
| Text.KeysAscend | internal/storage/staging.go:111-116 | In the order of reading each sequence id is less than every later one |
| Text.AssembleIsAscending | internal/storage/staging.go:111-131 | The retrieved text is the chunks joined along any listing of all sequence ids in which each is less than the next |
| Text.AssembleRestoresText | internal/storage/staging.go:111-131 | Cutting a text after newlines under increasing ids and joining by id gives the text back |
| Live.TtlBounds | internal/storage/staging.go:52-64 | A known instance's lifetime is the default or the interval without its fraction: never less than the default, less than a second short of the interval, and just the default, unless that is negative, if the interval is negative |
| Live.UnknownInstanceGetsDefaultTtl | internal/storage/staging.go:52-64 | An instance that the live store does not know gets the default lifetime, which is the documented one exactly when it is at least 60 seconds |
| Live.TtlIsDocumentedExactlyWhen | internal/storage/staging.go:52-64 | A known instance gets the longer of default and interval exactly when the interval is a whole number of seconds, or neither it nor its whole part exceeds the default, negative intervals included |
| Live.FractionIsLost | internal/storage/staging.go:60 | With an interval of 15.5 and a default of 15 seconds the lifetime is 15 seconds and not 15.5 |
| Live.AtMostOneChargePerPass | internal/storage/gc.go:48-58 | One sweep adds one to an instance's expiry counter exactly if one of its transactions has expired, else nothing |
| Live.CollectTouchesOnlyCounters | internal/storage/gc.go:48-61 | A sweep removes no instance and changes nothing in the live store but the expiry counters |
| Reading.ReadingIs | internal/storage/storage.go:22-31 | What is read of an instance is, field by field and sample by sample, what its objects hold |
| Reading.ReadPublish | internal/storage/storage.go:51-73 | Publishing objects and then reading them as values is reading them and then publishing values |
| Reading.ReadSetSource | internal/storage/storage.go:76-100 | The same for a polled source |
| Reading.ReadCollect | internal/storage/gc.go:48-61 | The same for a sweep |
| Reading.ReadingStays | internal/storage/storage.go:117-127 | Where no family was written, a live store reads as before |
| Storage.Storage.constructor | internal/storage/storage.go:42-48 | A new store stages nothing and knows no instance |
| Storage.Storage.AppendToStaging | internal/storage/staging.go:22-92 | The method in place computes `Staging.Append` with the lifetime read from the live store, keeps the invariant, and leaves the live store's value |
| Storage.Storage.ResetIfExpired | internal/storage/staging.go:26-34 | An expired transaction under the hash is dropped and its bytes returned |
| Storage.Storage.EvictInstance | internal/storage/staging.go:43-49 | The loop drops exactly the instance's transactions, in any map order |
| Storage.Storage.Lifetime | internal/storage/staging.go:51-65 | The default, or the instance's interval in whole seconds if longer, as read from the live map |
| Storage.Storage.OpenTransaction | internal/storage/staging.go:43-73 | Eviction, lifetime and the new empty transaction with its deadline |
| Storage.Storage.WriteChunk | internal/storage/staging.go:76-91 | Size difference, final capacity check and the write, in place |
| Storage.Storage.RetrieveStaging | internal/storage/staging.go:95-134 | The method in place computes `Staging.Retrieve` and keeps the invariant |
| Storage.JoinChunks | internal/storage/staging.go:111-133 | Key loop, sort and reader loop yield the ascending join, the number of chunks and the exact length |
| Storage.Storage.CleanupStaging | internal/storage/gc.go:37-71 | The sweep drops exactly the expired transactions, charges each to its instance, creating it if need be, and returns how many there were, on objects and read as values |
| Storage.Storage.UpdateIngested | internal/storage/storage.go:51-73 | Publishes a payload: families, interval, times, counters and, if present, the cached status of that one instance; read as values, the live store changes by `Live.Publish` |
| Storage.Storage.UpdatePolled | internal/storage/storage.go:76-82 | Replaces the polled families of one instance and nothing else, on objects and read as values |
| Storage.Storage.UpdateA2S | internal/storage/storage.go:85-91 | Replaces the A2S families of one instance and nothing else, on objects and read as values |
| Storage.Storage.UpdateRCon | internal/storage/storage.go:94-100 | Replaces the RCon families of one instance and nothing else, on objects and read as values |
| Storage.Storage.GetOrCreateState | internal/storage/storage.go:104-114 | Returns the instance's record, creating a blank one, and changes no other |
| Storage.Storage.GetInstanceStates | internal/storage/storage.go:117-127 | The copy loop yields every record as it is, in any map order |
| Snapshots.Perform | internal/storage/storage.go:51-114 | Every operation on the object store is the update of values that it means |
| Snapshots.PerformAll | internal/storage/storage.go:51-114 | So is every sequence of operations, and none of them writes a family or sample that existed before |
| Snapshots.SnapshotIsStable | internal/storage/storage.go:117-127 | A snapshot reads as the live store at its moment, and no later sequence of store operations changes any family or sample that existed then |
| Labels.PrepareIsCanonical | internal/parser/parser.go:37-103 | A sample's final labels are the sorted listing of a label set defined without any order; a sample is refused exactly when overwriting is off and it names another instance |
| Labels.FinalLabels | internal/parser/parser.go:37-103 | A label is in the final list exactly if it was there under another name than `instance_id`, is the target's `instance_id`, or is the `buid` derived from the `steam_id` of a loaded player who has none |
| Labels.NormalIsSorted | internal/parser/parser.go:98-102 | Final labels are sorted by name, character by character |
| Labels.LabelOrderDoesNotMatter | internal/parser/parser.go:98-102 | Permuting a sample's labels does not change its final labels |
| Labels.PrepareIsIdempotent | internal/parser/parser.go:42-102 | Final labels are sorted, name the target instance, and stay as they are when normalised again in either mode |
| Labels.NormalNames | internal/parser/parser.go:69-102 | In a final label list every name occurs once and `instance_id` is the target |
| Metrics.SortedLabelsAreCanonical | internal/parser/parser.go:98-102 | Sorted label lists with the same labels are equal |
| Normaliser.EnrichMetric | internal/parser/parser.go:42-66 | The scan and the append of the player id, in place |
| Normaliser.SetInstanceLabel | internal/parser/parser.go:68-96 | Check, overwrite or injection of the instance label, in place |
| Normaliser.NormaliseMetric | internal/parser/parser.go:37-103 | All of the label work on one metric object, in place |
| Normaliser.GetLabelHash | internal/parser/parser.go:130-142 | Feeding the hash piece by piece hashes the NUL-separated encoding |
| Normaliser.DedupMetrics | internal/parser/parser.go:105-120 | The surviving metric objects are the last per hash; if none was dropped the list is unchanged |
| Normaliser.NormaliseFamily | internal/parser/parser.go:37-120 | One family object is refused, or normalised and deduplicated in place |
| Normaliser.ParseAndValidate | internal/parser/parser.go:18-126 | The result is one that `Outcome` allows: first mismatch, else syntax error, else the normalised families, all of them new objects |
| Normaliser.ParseFamilies | internal/parser/parser.go:22-123 | The decode loop stops at the first family that is refused, and otherwise files every family, normalised, under its name, later ones over earlier ones |
| Normaliser.LabelOrderDoesNotMatterInPayloads | internal/parser/parser.go:98-102 | Payloads that differ only in the order of their samples' labels have the same possible results |
| Normaliser.AcceptedExactlyWhen | internal/parser/parser.go:26-32 | A payload is refused for the instance exactly when overwriting is off and a decoded sample names another; else refused as malformed exactly when decoding ended in an error; else, and only then, some result is accepted |
| Normaliser.PayloadIsLastWriteWins | internal/parser/parser.go:18-126 | Every family of an accepted payload is the last sample per final label set, of the last family of its name, exactly when the hash keeps its label lists apart; name, help and type are those of that family |
| Normaliser.OutcomeIsWellFormed | internal/parser/parser.go:18-126 | Whatever was sent and whatever the hash does, accepted families carry sorted labels naming the target instance and no label list twice |
| Normaliser.NormalisingIsIdempotent | internal/parser/parser.go:34-122 | Feeding an accepted payload's families back, in either mode, succeeds and returns the same families |
| Dedup.LastWriteWins | internal/parser/parser.go:105-120 | The family is, as a multiset, the last sample per label list exactly when the hash does not confuse two of its label lists |
| Dedup.DedupSeparatesLabels | internal/parser/parser.go:107-120 | No two surviving samples carry the same labels, even under collisions |
| Dedup.EncodeIsInjective | internal/parser/parser.go:134-139 | The NUL-separated encoding determines NUL-free labels |
| Dedup.NulFreeIsCollisionFree | internal/parser/parser.go:128-142 | NUL-free labels and a hash without collisions on their encodings keep all label lists apart |
| Dedup.NulLosesASeries | internal/parser/parser.go:134-139 | Two different normal label lists of which the first is lost under every hash |
| Dedup.CollectedIsDedup | internal/parser/parser.go:114-120 | Unequal sizes of map and slice: any listing of the map is the deduplicated family |
| Dedup.FullFileIsDistinct | internal/parser/parser.go:113-120 | Equal sizes of map and slice mean that there were no duplicates |
| Handlers.CountingReader.Read | internal/server/ingest_single.go:18-22 | Every read adds what it took to the count |
| Handlers.CountingReader.Drain | internal/server/ingest_single.go:29-33 | After reading to the end the count has grown by the length of the body |
| Handlers.Handler.HandleChunkIngest | internal/server/ingest_chunked.go:43-65 | 202 or 503 and the staging buffer as `Staging.Append` says; the live store is not written |
| Handlers.Handler.HandleCommit | internal/server/ingest_chunked.go:68-111 | 404, 400 or 200 by what was found and parsed; the transaction is gone in each case; only on 200 is the live store written, for the instance in the URL, on objects and read as values |
| Handlers.Handler.HandleSingleShot | internal/server/ingest_single.go:24-64 | 400 leaves the live store untouched; 200 publishes the parsed body as one chunk of its length, on objects and read as values |
| Handlers.OversizedIsNeverRecognised | internal/server/ingest_single.go:42-46 | The suffix comparison for oversized bodies never succeeds, nor does the exact one on a parser error |
| Collector.CollectFamily | internal/storage/collector.go:132-162 | The sample loop sends the accepted gauge and counter samples in order |
| Collector.CollectFamilies | internal/storage/collector.go:130-164 | What is sent does not depend on the map order of families |
| Collector.CollectStatusZero | internal/storage/collector.go:166-179 | One zero gauge per sample, nil where the library refuses |
| Collector.CollectIngested | internal/storage/collector.go:106-126 | The staleness switch |
| Collector.Collect | internal/storage/collector.go:61-128 | What one scrape sends over all instances, in any map order |
| Scrapes.QueriedIsLastPolled | internal/storage/storage.go:76-100 | After any run the polled, A2S and RCon families of an instance are each what was last polled for it from that source |
| Scrapes.ScrapeIsExactly | internal/storage/collector.go:61-179 | After any run a scrape sends exactly: per known instance its own counters, the accepted samples of each queried source, and of the last payload while fresh, else the zeroed cached status; names, labels, types and values spelled out |
| Scrapes.TechnicalIsOwn | internal/storage/collector.go:67-92 | Which total stands under which of the exporter's own names |
| Scrapes.AnnouncedIntervalRules | internal/storage/storage.go:52-57 | After any run the lifetime of the next transaction and the staleness of the last payload follow from the interval that the payload announces, or 60 where it announces none |
| Metrics.IntervalIsAnnounced | internal/storage/storage.go:52-57 | The stored interval is the gauge value of the first sample of `dayz_metricz_scrape_interval_seconds`, or 60 without one |
| Collector.ScrapeIsPushedAndRest | internal/storage/collector.go:66-127 | What a scrape sends is the pushed part, to which the next two rows apply, and a rest that does not depend on the clock: own counters and polled series |
| Collector.InstanceOnce | internal/storage/collector.go:106-126 | One instance's pushed part, fresh or stale, repeats no series and names the instance in every label list |
| Collector.NoSeriesTwice | internal/storage/collector.go:66-178 | Over all instances together, pushed or zeroed samples differ pairwise in name and label set and are sent once |
| PublicStatus.CollectPublicData | internal/server/status.go:94-195 | The loops compute `PublicOf` |
| PublicStatus.SumFamily | internal/server/status.go:119-130 | The value loop sums gauges and counters |
| PublicStatus.GroupLabels | internal/server/status.go:135-155 | The label loop collects, per exported key, exactly the values that occur |
| PublicStatus.ListGroups | internal/server/status.go:157-165 | Every value set becomes its strictly sorted list |
| PublicStatus.PrecedenceByOverwriting | internal/server/status.go:172-192 | Overwriting in the order polled, A2S, RCon, pushed leaves, per name, the highest source with a non-empty family |
| PublicStatus.TotalIsTheSum | internal/server/status.go:117-130 | The total of samples sent one after the other is the sum of the totals |
| PublicStatus.TotalOfOne | internal/server/status.go:124-128 | One gauge or counter totals its value, any other sample 0 |
| PublicStatus.Precedence | internal/server/status.go:172-192 | The family that counts under a name is the pushed one if not empty, else RCon's, else A2S's, else the polled one |
| PublicStatus.PublicIsExact | internal/server/status.go:94-195 | A name is exported exactly when wanted and offered, as the sum of the gauges and counters of its source; its label map has exactly the occurring keys that are not empty and not excluded, with strictly sorted lists of exactly the occurring values |
| PublicStatus.OnlyTheSourceCounts | internal/server/status.go:111-192 | An entry depends on the one source that takes precedence only |
| PublicStatus.SampleOrderDoesNotMatter | internal/server/status.go:117-167 | Sums and label lists do not depend on the order of samples |
| PublicStatus.OtherTypesCountAsZero | internal/server/status.go:118-130 | A wanted family without gauges and counters is exported as 0 |
| PublicStatus.SourceIgnoring | internal/server/status.go:111-192 | Leaving all samples of other types out of an instance, a source with a number keeps its precedence under its name |
| PublicStatus.OtherTypesAreIgnoredExactlyWhen | internal/server/status.go:118-192 | The values are those of the instance without any sample of another type exactly when every wanted family that takes precedence has a gauge or counter, or stands in the place of numbers that add up to zero |
| PublicStatus.UntypedHidesAGauge | internal/server/status.go:118-192 | A pushed untyped family makes the value 0 where a queried gauge says 5 |
| Reachable.StepKeepsStaging | internal/storage/staging.go:22-134 | Every event keeps the staging invariant |
| Reachable.StepKeepsFields | internal/storage/storage.go:51-73 | Every event keeps the agreement of the fields of every instance |
| Reachable.StepKeepsContents | internal/storage/storage.go:51-73 | Every event keeps all pushed families, stored or under way, well formed for their instance |
| Reachable.ReachableStaging | internal/storage/staging.go:22-134 | The staging invariant holds in every reachable state, whatever the libraries do |
| Reachable.ReachableFields | internal/storage/storage.go:51-73 | So does the agreement of every instance's fields: families, times, chunk count and cached status |
| Reachable.ReachableContents | internal/parser/parser.go:18-126 | With distinct label names from the decoder, all pushed families in the store and on their way are well formed for their instance |
| Reachable.ScrapesNeverRepeatASeries | internal/storage/collector.go:66-178 | After any run, at any time, no scrape sends a pushed or zeroed series twice |
| Reachable.StagingIsAccountedFor | internal/storage/staging.go:29-91 | After any run the byte total is exact and within the quota, no transaction is empty, and no instance has two |
| Reachable.FallbackIsUnreachable | internal/server/status.go:183-192 | After any run the fallback to a cached status is not taken |
| Reachable.PublicFollowsPrecedence | internal/server/status.go:172-192 | After any run that order of precedence holds for every known instance |
| Reachable.InstancesStay | internal/storage/storage.go:104-114 | Live keys are never removed |
| Reachable.WhoChangesLive | internal/server/ingest_chunked.go:84-98 | Only a publish, a poll or a sweep changes the live store; a refused payload does not |
| History.StepOnTxn | internal/storage/staging.go:26-91 | What one event does to the transaction under a hash: nothing, one more write, or a new beginning |
| History.LeavesExactlyWhenEnded | internal/storage/staging.go:30-49 | A transaction leaves exactly at a commit of its hash, a sweep past its deadline, a refused append past its deadline, or when its instance opens another |
| History.StaysUntilEnded | internal/storage/staging.go:26-91 | Over any part of a run without such an event it stays staged |
| History.StagedIsLastAccepted | internal/storage/staging.go:76-89 | After any run a staged transaction is, field by field, determined by its log: last accepted data per id, opener, deadline |
| History.RetrievalReturnsTheUpload | internal/storage/staging.go:99-133 | A successful retrieval after any run returns the ascending join of the last accepted data per id, with its count and size |
| History.LastWrittenIsLast | internal/storage/staging.go:76-89 | The data that counts under an id is that of the last write with this id |
| History.ArrivalOrderDoesNotMatter | internal/storage/staging.go:76-89 | Writes that follow and cover a plan, in any order and repeated, leave exactly the plan |
| History.RetrieveRestoresText | internal/storage/staging.go:95-133 | A text cut after newlines and uploaded in any order, with retransmissions, is retrieved as it was |
| History.CommitIsThreeSteps | internal/server/ingest_chunked.go:73-98 | The machine's retrieve, parse and publish, uninterrupted, have the effect that `HandleCommit` promises, refusals included |
| History.CommitReceivesWhatPostReceives | internal/server/ingest_chunked.go:73-84 | Committing such an upload hands the parser the same text and byte count as posting the text at once |
| History.ChunkedRefinesSingleShot | internal/server/ingest_chunked.go:84-98 | Both ways then allow the same parse results, and publishing one leaves the same live store but for the chunk count |
| Conservation.StepBalances | internal/storage/staging.go:30-109 | Every event keeps the ledger of transactions balanced |
| Conservation.TransactionsAreConserved | internal/storage/staging.go:30-109 | Over any run: opened = still staged + handed to a commit + dropped at a late commit + replaced before or after the deadline + reset + swept |
| Conservation.ExpiryCountersCountSweepsOnly | internal/storage/gc.go:48-70 | Over any run the expiry counters of all instances add up to exactly the swept transactions |
| Conservation.AbsentUntilOpened | internal/storage/staging.go:38-73 | A hash enters the buffer only by an accepted append that opens a transaction |
| Conservation.OneCommitPerTransaction | internal/storage/staging.go:104-105 | Between two commits that are handed data under one hash a new transaction was opened under it |
| Expiry.RemovedIsWhatLeaves | internal/storage/staging.go:30-49 | A staged transaction is gone after an event, or has made way for a new one under its hash, exactly if it was reset, replaced, committed or swept |
| Expiry.AllDropsAreBooked | internal/storage/staging.go:30-109 | Over any run the removed transactions that were past their deadline are those that the ledger has as swept, late, reset or lapsed |
| Expiry.CounterCountsOwnSweeps | internal/storage/gc.go:48-61 | Over any run an instance's counter is the number of its transactions that sweeps dropped |
| Expiry.CountersCountAllSweeps | internal/storage/gc.go:48-61 | So is the sum of all counters the number of all transactions that sweeps dropped |
| Expiry.UncountedExactlyIfDropped | internal/storage/staging.go:30-109 | An append or commit drops an expired transaction exactly if it resets or finds one under its hash, or opens one in the place of an older one that has expired |
| Expiry.CountersAreCompleteExactlyWhen | internal/storage/staging.go:30-109 | The counters are the total of all expired transactions that were dropped exactly when no append and no commit dropped one |
| Expiry.OwnCounterIsCompleteExactlyWhen | internal/storage/staging.go:30-109 | The same for each instance's counter and its own transactions |
| Expiry.LateCommitIsNotCounted | internal/storage/staging.go:104-109 | A run of one append and one late commit: one drop, and the counters are 0 |
| Expiry.EvictionIsNotCounted | internal/storage/staging.go:43-49 | A run of two appends of one instance, the second after the first's deadline: one drop, and the counters are 0 |
| Staleness.StepReflects | internal/storage/storage.go:62-72 | An event changes an instance's pushed half only if it publishes for that instance |
| Staleness.LiveReflectsPayloads | internal/storage/storage.go:51-73 | After any run families, times, interval, totals and cached status are those of the published payloads |
| Staleness.LifetimeIsDocumentedExactlyWhen | internal/storage/staging.go:51-64 | After any run a new transaction gets the documented lifetime exactly when: nothing was published and the default is at least 60 seconds; or the last payload's interval is in whole seconds, or neither it nor its whole part exceeds the default |
| Staleness.ScrapeReportsTheLog | internal/storage/collector.go:106-126 | After any run a scrape reports the last payload in full up to and at its deadline, and later only the latest cached status, forced to zero |
| Staleness.StaleExactlyWhen | internal/storage/collector.go:107-112 | A payload is stale exactly when both the minimum age and the exact product of interval and multiplier are exceeded; truncation matters only for a negative product |
| Staleness.OnlyPublishingRefreshes | internal/storage/collector.go:106-126 | With nothing published, a fresh instance stays fresh to its deadline and a stale one stale for good, with the same report, whatever else happens |
| Staleness.FreshMeansEverySample | internal/storage/collector.go:130-164 | While fresh, exactly the accepted samples of gauge and counter families are sent, each with its own value, or 0 if it is not of its family's type |
| Staleness.StaleMeansZeroedStatus | internal/storage/collector.go:120-122 | Once stale, exactly the samples of the cached status are sent, as zero gauges, or as nil where the library refuses them |
| Provenance.JobsComeFromRequests | internal/server/ingest_chunked.go:73-98 | Every payload under way was brought in by a post or a commit for its instance |
| Provenance.EveryPayloadWasSent | internal/server/ingest_chunked.go:73-98 | After any run every published payload is a possible parse, for its instance, of a body posted for it or of the ascending assembly of an upload committed for it in time, with that text's bytes and chunks |
| Provenance.OnlyWholeTextsArePublished | internal/parser/parser.go:26-32 | That text decoded to its end and, unless overwriting is on, names no other instance |
| Provenance.FreshReportWasSent | internal/storage/collector.go:106-126 | What a scrape reports of a fresh instance is what a parse of such a text emits |
| StatusCache.StatusHandler.ServeStatusRequest | internal/server/status.go:31-91 | Hit, miss or not found; what is cached and until when |
| StatusCache.RequestIsThreeSteps | internal/server/status.go:43-86 | An uninterrupted request does what the machine's three steps do |
| StatusCache.StoredIsServed | internal/server/status.go:43-86 | A stored body is served while less than the cache lifetime has passed, and not from then on |
| StatusCache.CacheComesFromTheStore | internal/server/status.go:52-86 | In every interleaving each cached body was rendered for its key from a live store that really was |
| StatusCache.HitIsRecent | internal/server/status.go:43-50 | A hit was rendered for its key from an earlier live store and stored less than the cache lifetime ago |
| StatusCache.OtherKeysHoldTheirOwnInstance | internal/server/status.go:67-86 | Under every key but `all` lies the status of that one instance, which the live store has |
| StatusCache.RefusedExactlyWhenUnknown | internal/server/status.go:68-72 | A request that missed the cache is refused exactly when the snapshot has no such instance |
| StatusCache.SingleRequestAnswers | internal/server/status.go:43-73 | A request for one instance is answered with the full status exactly when it asks for `all` and finds a full body cached; it is refused exactly when the instance is unknown and no such body is found |
| StatusCache.UnknownAllIsServed | internal/server/status.go:28-50 | A run in which nobody is called `all` and a request for that instance is answered with the full status |
| StatusCache.ServedStaysServed | internal/server/status.go:53-72 | An instance once seen or served is never refused later |
| StatusCache.FullStatusUnlessNamesake | internal/server/status.go:28-86 | While no instance is called `all` the full status is a full one |
| StatusCache.FullStatusIsLostExactlyToANamesake | internal/server/status.go:28-86 | Status requests can put a single status where the full one is looked up exactly when an instance is called `all` |
| Refinement.RunIsUpdates | internal/storage/storage.go:51-114 | The store of a run is the empty store after the updates that its events mean |
| Refinement.ObjectStoreFollowsRun | internal/storage/storage.go:11-114 | The object store, put through operations that mean those updates, holds exactly the staging buffer and live store with which the run ends |
| Refinement.MicroFollows | internal/storage/staging.go:22-91 | Each piece of an append between its lock operations, and each event in between, is one event of the machine or invisible to it |
| Refinement.InterruptedAppendsAreAtomic | internal/storage/staging.go:22-91 | However appends are interrupted by what their lock lets through, the fields end as after a run in which each append is one event, at its read of the live store |
| Refinement.AnswersAgree | internal/storage/staging.go:39-91 | An append answers the same whether it is one event or in pieces |
| Locks.MovesKeepConsistent | internal/storage/gc.go:38-43 | Every move keeps the locks' fields in agreement with who holds what |
| Locks.MutualExclusion | internal/storage/storage.go:59-60 | In every interleaving one thread at most uses the staging buffer, and a writer of the live store is alone |
| Locks.StagingComesFirst | internal/storage/staging.go:23-65 | Whoever waits for `stagingMu` neither holds nor queues for `liveMu` |
| Locks.NoDeadlock | internal/storage/gc.go:38-43 | While an operation is unfinished, some unfinished operation can move, waiting writers included |
| Locks.WaitingWriterKeepsReadersOut | internal/storage/storage.go:59-60 | A waiting writer is not overtaken by new readers |
| Locks.OperationsFinish | internal/storage/staging.go:23-65 | Any way of finishing the started operations takes a bounded number of moves |
| Locks.NoInterleavingDeadlocks | internal/storage/gc.go:38-43 | From every reachable state the started operations can all finish |
| Interleaving.EffectMayHappen | internal/storage/staging.go:23-65 | Whatever the locks let a thread do to the data finds the data ready for it; in particular no commit or sweep meets an append midway |
| Interleaving.NextIsLinked | internal/storage/gc.go:38-43 | Every move of every thread keeps locks, data and tasks in agreement |
| Interleaving.InterleavingsAreRuns | internal/storage/staging.go:22-91 | Every interleaving of any number of threads that the locks allow ends with the data as after a run of the machine, and with exactly its state while no append is midway |
| Rcon.NoConnectionLeaks | internal/poller/rcon.go:104-149 | Over any sequence of polls and closes, connections opened minus closed is 1 if one is held, else 0 |
| Rcon.HeldExactlyIfAnswered | internal/poller/rcon.go:34-102 | After a poll a connection is held exactly if there was an answer, which there is exactly if a connection could be used and one of two sends succeeded, and is the reply to the first that did |
| Rcon.PollConnections | internal/poller/rcon.go:34-149 | When a poll opens a connection, and that it closes all others |
| Rcon.FamiliesAgree | internal/poller/rcon.go:160-226 | Total, joined and ping counts agree, the joined values add up to the total without the lobby, and latitudes pair with longitudes under the same labels |
| Rcon.RowIs | internal/poller/rcon.go:160-226 | Which field of a player stands under which label and as the value of which family |
| Rcon.RowsOfAll | internal/poller/rcon.go:160-226 | The series of a list of players are those of its players in order |
| Rcon.CountOfAll | internal/poller/rcon.go:160-172 | The totals of a list of players are the sums of those of its parts |
| Rcon.ExportedAgree | internal/poller/rcon.go:153-246 | One `up`, total and lobby series each; `up` is 1 exactly if there was an answer; the total counts the joined and the ping series; total less lobby is the sum of the joined; as many latitudes as longitudes |
| Rcon.RConSession.CloseInternal | internal/poller/rcon.go:140-149 | No connection is held afterwards; one that was held is closed |
| Rcon.RConSession.Connect | internal/poller/rcon.go:104-130 | A connection still held is closed before another is opened |
| Rcon.RConSession.Ask | internal/poller/rcon.go:38-87 | Connect, send, and one retry over a new connection; only an answer counts as activity |
| Rcon.RConSession.Poll | internal/poller/rcon.go:34-102 | A connection is held exactly if there was no error, exactly if `up` is 1; the families are those of the answered players |
| Rcon.ListLabels | internal/poller/dto.go:34-42 | The label loop lists the map's pairs, each name once, in any order |
| Rcon.AddGauge | internal/poller/dto.go:6-31 | One more series for the instance in the named family, created if missing; no other family changes |
| Rcon.AddGaugeWithLabels | internal/poller/dto.go:33-60 | One more series with the given labels in the named family, created if missing; no other family changes |
| Rcon.GenerateMetrics | internal/poller/rcon.go:153-246 | The player loop and the three totals: which series exist, with which labels and values |

## Left out

- HTTP routing, authentication, body limits, logging, JSON and CORS: the handlers are modelled as sequences of store and parser calls; the failures of reading a chunk's body or its sequence id touch no state.
- The text grammar, protobuf encoding, xxhash and the BattlEye and A2S protocols: libraries, taken as arbitrary functions.
- Absent objects inside a payload: families, samples and label pairs are never nil in the model.
- Floating point: values, intervals and coordinates are reals, so rounding, NaN, infinities and the overflow of a duration or of the byte and chunk counters are not modelled; `Staging.NoOverflow` covers the staging quota.
- Strings are compared character by character, which for UTF-8 text is the order of the bytes.
- The JSON bytes of a public status: a cached body is the data that is rendered.
- The order of clock readings: a step's readings are its arguments, and no theorem relies on their order.
- The other store methods hold one lock from start to end and are one event each; `Locks` shows that the locks exclude, not that Go's own lock implementation works.
- A failure of the JSON encoder or of the client library other than refusing a label list.
- Whether polled or RCon series, or the exporter's own `metricz_ingest_*` series, repeat pushed ones: payload names are unrestricted, so they may.
- Configuration, the pollers' tickers, A2S field copying, GeoIP, the service wrapper and the web page.
