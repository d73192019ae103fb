/**
 The public status: for every wanted family name, the sum over the family of the source
 that takes precedence, and the values of its labels as sorted lists.
 */
module PublicStatus {
  import opened Wrappers
  import opened Ordering
  import opened MapSums
  import opened Metrics
  import opened Live

  datatype ExportConfig = ExportConfig(values: seq<string>, labels: seq<string>, labelsExclude: seq<string>)

  datatype PublicData = PublicData(values: map<string, real>, labels: map<string, map<string, seq<string>>>)

  // ---- Reference: one source per name ----

  predicate Offers(families: Option<Families>, name: string) {
    families.Some? && name in families.value && families.value[name].samples != []
  }

  /** The ingested families; failing those, the cached status alone. */
  function Pushed(state: Instance<Family>): Option<Families> {
    if state.ingested.Some? then state.ingested
    else if state.cachedStatus.Some? then Some(map[state.cachedStatus.value.name := state.cachedStatus.value])
    else None
  }

  /** Pushed over RCon over A2S over polled; empty families do not count. */
  function SourceOf(state: Instance<Family>, name: string): Option<Family> {
    if Offers(Pushed(state), name) then Some(Pushed(state).value[name])
    else if Offers(state.rcon, name) then Some(state.rcon.value[name])
    else if Offers(state.a2s, name) then Some(state.a2s.value[name])
    else if Offers(state.polled, name) then Some(state.polled.value[name])
    else None
  }

  function Amount(v: Value): real {
    if v.Other? then 0.0 else v.v
  }

  function Total(samples: seq<Sample>): real {
    if samples == [] then 0.0
    else Total(samples[..|samples| - 1]) + Amount(samples[|samples| - 1].value)
  }

  ghost function AllLabels(samples: seq<Sample>): set<Label> {
    set i, l | 0 <= i < |samples| && l in samples[i].labels :: l
  }

  predicate Exported(cfg: ExportConfig, key: string) {
    key != "" && key !in cfg.labelsExclude
  }

  ghost function ValuesUnder(labels: set<Label>, key: string): set<string> {
    set l | l in labels && l.name == key :: l.value
  }

  ghost function Grouped(cfg: ExportConfig, labels: set<Label>): map<string, set<string>> {
    map k | k in (set l | l in labels && Exported(cfg, l.name) :: l.name) :: ValuesUnder(labels, k)
  }

  ghost function Listed(groups: map<string, set<string>>): map<string, seq<string>> {
    map k | k in groups :: Ascending(groups[k], StringLess)
  }

  ghost function LabelLists(cfg: ExportConfig, samples: seq<Sample>): map<string, seq<string>> {
    Listed(Grouped(cfg, AllLabels(samples)))
  }

  ghost function PublicOf(state: Instance<Family>, cfg: ExportConfig): PublicData {
    PublicData(
      map n | n in cfg.values && SourceOf(state, n).Some? :: Total(SourceOf(state, n).value.samples),
      map n | n in cfg.labels && SourceOf(state, n).Some? :: LabelLists(cfg, SourceOf(state, n).value.samples))
  }

  // ---- What the reference promises ----

  /** A non-empty family of this name in this source. */
  ghost predicate Has(families: Option<Families>, n: string, f: Family) {
    families.Some? && n in families.value && families.value[n] == f && f.samples != []
  }

  ghost predicate HasNone(families: Option<Families>, n: string) {
    forall f :: !Has(families, n, f)
  }

  /** Pushed goes before RCon, RCon before A2S, A2S before polled. */
  lemma Precedence(state: Instance<Family>, n: string, f: Family)
    requires state.cachedStatus.Some? ==> state.ingested.Some?
    ensures SourceOf(state, n) == Some(f)
            <==>
            || Has(state.ingested, n, f)
            || (HasNone(state.ingested, n) && Has(state.rcon, n, f))
            || (HasNone(state.ingested, n) && HasNone(state.rcon, n) && Has(state.a2s, n, f))
            || (HasNone(state.ingested, n) && HasNone(state.rcon, n) && HasNone(state.a2s, n) && Has(state.polled, n, f))
  {
    OffersExactlyIfHas(state.ingested, n);
    OffersExactlyIfHas(state.rcon, n);
    OffersExactlyIfHas(state.a2s, n);
    OffersExactlyIfHas(state.polled, n);
    hide HasNone;
  }

  lemma OffersExactlyIfHas(families: Option<Families>, n: string)
    ensures HasNone(families, n) <==> !Offers(families, n)
    ensures Offers(families, n) <==> families.Some? && n in families.value && Has(families, n, families.value[n])
  {
    if Offers(families, n) {
      assert Has(families, n, families.value[n]);
    }
  }

  /** Totals are sums: of the values of gauges and counters, and of nothing else. */
  lemma {:induction false} TotalIsTheSum(a: seq<Sample>, b: seq<Sample>)
    ensures Total([]) == 0.0
    ensures Total(a + b) == Total(a) + Total(b)
  {
    if b == [] {
      assert a + b == a;
    } else {
      var n := |b| - 1;
      TotalIsTheSum(a, b[..n]);
      assert (a + b)[..|a + b| - 1] == a + b[..n];
    }
  }

  lemma TotalOfOne(s: Sample)
    ensures forall x :: s.value == Gauge(x) ==> Total([s]) == x
    ensures forall x :: s.value == Counter(x) ==> Total([s]) == x
    ensures s.value == Other ==> Total([s]) == 0.0
  {
    assert [s][..0] == [];
  }

  /** The readings of the gauges and counters in order. */
  function NumberList(samples: seq<Sample>): seq<real> {
    if samples == [] then []
    else
      NumberList(samples[..|samples| - 1])
      + match samples[|samples| - 1].value { case Gauge(x) => [x] case Counter(x) => [x] case Other => [] }
  }

  function SumOf(xs: seq<real>): real {
    if xs == [] then 0.0 else SumOf(xs[..|xs| - 1]) + xs[|xs| - 1]
  }

  lemma {:induction false} TotalSumsNumbers(samples: seq<Sample>)
    ensures Total(samples) == SumOf(NumberList(samples))
  {
    if samples != [] {
      var n := |samples| - 1;
      TotalSumsNumbers(samples[..n]);
      var before, more := NumberList(samples[..n]), NumberList(samples)[|NumberList(samples[..n])|..];
      assert NumberList(samples) == before + more;
      if more == [] {
        assert before + more == before;
      } else {
        assert (before + more)[..|before|] == before;
      }
    }
  }

  /**
   A name is exported exactly when it is wanted and some source has a non-empty family
   of that name. Its value is the sum of the gauges and counters of that family. Its label
   map has exactly the keys that occur, are not empty and not excluded, each with the
   strictly sorted list of exactly the values that occur.
   */
  lemma PublicIsExact(state: Instance<Family>, cfg: ExportConfig, n: string, k: string)
    ensures n in PublicOf(state, cfg).values <==> n in cfg.values && SourceOf(state, n).Some?
    ensures n in PublicOf(state, cfg).values ==>
              PublicOf(state, cfg).values[n] == SumOf(NumberList(SourceOf(state, n).value.samples))
    ensures n in PublicOf(state, cfg).labels <==> n in cfg.labels && SourceOf(state, n).Some?
    ensures n in PublicOf(state, cfg).labels ==>
              var samples, lists := SourceOf(state, n).value.samples, PublicOf(state, cfg).labels[n];
              && (k in lists <==> k != "" && k !in cfg.labelsExclude && exists s, l :: s in samples && l in s.labels && l.name == k)
              && (k in lists ==> forall i, j :: 0 <= i < j < |lists[k]| ==> Before(lists[k][i], lists[k][j]))
              && (k in lists ==> forall v :: v in lists[k] <==> exists s :: s in samples && Label(k, v) in s.labels)
  {
    if n in PublicOf(state, cfg).values {
      TotalSumsNumbers(SourceOf(state, n).value.samples);
    }
    if n in PublicOf(state, cfg).labels {
      ListsAreExact(cfg, SourceOf(state, n).value.samples, k);
    }
    hide LabelLists, Before, SourceOf, SumOf, NumberList, Total;
  }

  lemma ListsAreExact(cfg: ExportConfig, samples: seq<Sample>, k: string)
    ensures var lists := LabelLists(cfg, samples);
      && (k in lists <==> k != "" && k !in cfg.labelsExclude && exists s, l :: s in samples && l in s.labels && l.name == k)
      && (k in lists ==> forall i, j :: 0 <= i < j < |lists[k]| ==> Before(lists[k][i], lists[k][j]))
      && (k in lists ==> forall v :: v in lists[k] <==> exists s :: s in samples && Label(k, v) in s.labels)
  {
    var labels, lists := AllLabels(samples), LabelLists(cfg, samples);
    forall l
      ensures l in labels <==> exists s :: s in samples && l in s.labels
    {
      InAllLabels(samples, l);
    }
    GroupsAreExact(cfg, labels, k);
    ListedIsSorted(Grouped(cfg, labels), k);
    hide AllLabels, Grouped, Listed, Before;
  }

  lemma GroupsAreExact(cfg: ExportConfig, labels: set<Label>, k: string)
    ensures var groups := Grouped(cfg, labels);
      && (k in groups <==> k != "" && k !in cfg.labelsExclude && exists l :: l in labels && l.name == k)
      && (k in groups ==> forall v :: v in groups[k] <==> Label(k, v) in labels)
  {
    var groups := Grouped(cfg, labels);
    forall l | l in labels && l.name == k && Exported(cfg, k)
      ensures k in groups
    {
      assert l.name in groups;
    }
    if k in groups {
      var l :| l in labels && Exported(cfg, l.name) && l.name == k;
      forall v
        ensures v in groups[k] <==> Label(k, v) in labels
      {
        if v in groups[k] {
          var l :| l in labels && l.name == k && l.value == v;
          assert l == Label(k, v);
        }
        if Label(k, v) in labels {
          assert Label(k, v).name == k && Label(k, v).value == v;
        }
      }
    }
  }

  lemma ListedIsSorted(groups: map<string, set<string>>, k: string)
    ensures k in Listed(groups) <==> k in groups
    ensures k in groups ==>
              && (forall v :: v in Listed(groups)[k] <==> v in groups[k])
              && (forall i, j :: 0 <= i < j < |Listed(groups)[k]| ==> Before(Listed(groups)[k][i], Listed(groups)[k][j]))
  {
    if k in groups {
      var list := Listed(groups)[k];
      assert list == Ascending(groups[k], StringLess);
      StringOrder();
      AscendingIsIncreasing(groups[k], StringLess);
      assert forall v :: v in list <==> v in groups[k];
      assert Increasing(list, StringLess);
      hide Ascending, Before, StringLess;
      forall i, j | 0 <= i < j < |list|
        ensures Before(list[i], list[j])
      {
        IncreasingStrings(list, i, j);
      }
    }
  }

  /** The entry for a name depends on its own source only. */
  lemma OnlyTheSourceCounts(a: Instance<Family>, b: Instance<Family>, cfg: ExportConfig, n: string)
    requires SourceOf(a, n) == SourceOf(b, n)
    ensures n in PublicOf(a, cfg).values <==> n in PublicOf(b, cfg).values
    ensures n in PublicOf(a, cfg).values ==> PublicOf(a, cfg).values[n] == PublicOf(b, cfg).values[n]
    ensures n in PublicOf(a, cfg).labels <==> n in PublicOf(b, cfg).labels
    ensures n in PublicOf(a, cfg).labels ==> PublicOf(a, cfg).labels[n] == PublicOf(b, cfg).labels[n]
  {
  }

  /** The documentation says that other metric types are ignored; a wanted family of theirs is exported as zero. */
  lemma OtherTypesCountAsZero(state: Instance<Family>, cfg: ExportConfig, n: string)
    requires n in cfg.values && SourceOf(state, n).Some?
    requires forall i :: 0 <= i < |SourceOf(state, n).value.samples| ==> SourceOf(state, n).value.samples[i].value.Other?
    ensures n in PublicOf(state, cfg).values && PublicOf(state, cfg).values[n] == 0.0
  {
    TotalOfOthers(SourceOf(state, n).value.samples);
  }

  predicate HasNumber(samples: seq<Sample>) {
    exists i :: 0 <= i < |samples| && !samples[i].value.Other?
  }

  /** The gauges and counters among the samples. */
  function Numbers(samples: seq<Sample>): seq<Sample> {
    if samples == [] then []
    else Numbers(samples[..|samples| - 1]) + if samples[|samples| - 1].value.Other? then [] else [samples[|samples| - 1]]
  }

  function OnlyNumbers(f: Family): Family {
    f.(samples := Numbers(f.samples))
  }

  function IgnoringIn(families: Option<Families>): Option<Families> {
    match families
    case None => None
    case Some(m) => Some(map n | n in m :: OnlyNumbers(m[n]))
  }

  /** The same instance without a single sample of another type. */
  function Ignoring(state: Instance<Family>): Instance<Family> {
    state.(
      ingested := IgnoringIn(state.ingested),
      cachedStatus := match state.cachedStatus { case None => None case Some(f) => Some(OnlyNumbers(f)) },
      polled := IgnoringIn(state.polled), a2s := IgnoringIn(state.a2s), rcon := IgnoringIn(state.rcon))
  }

  lemma {:induction false} NumbersTotal(samples: seq<Sample>)
    ensures Total(Numbers(samples)) == Total(samples)
    ensures Numbers(samples) != [] <==> HasNumber(samples)
  {
    if samples != [] {
      var n := |samples| - 1;
      NumbersTotal(samples[..n]);
      var before := Numbers(samples[..n]);
      if samples[n].value.Other? {
        assert Numbers(samples) == before;
        assert forall i :: 0 <= i < n ==> samples[..n][i] == samples[i];
      } else {
        assert (before + [samples[n]])[..|before|] == before;
      }
    }
  }

  lemma OffersNumbers(families: Option<Families>, n: string)
    ensures Offers(IgnoringIn(families), n) <==> Offers(families, n) && HasNumber(families.value[n].samples)
  {
    if families.Some? && n in families.value {
      NumbersTotal(families.value[n].samples);
    }
  }

  lemma PushedIgnoring(state: Instance<Family>)
    ensures Pushed(Ignoring(state)) == IgnoringIn(Pushed(state))
  {
    if state.ingested.None? && state.cachedStatus.Some? {
      var f := state.cachedStatus.value;
      assert (map n | n in map[f.name := f] :: OnlyNumbers(map[f.name := f][n])) == map[f.name := OnlyNumbers(f)];
    }
  }

  /** A source with numbers keeps its precedence when other types are left out; one without any loses it. */
  lemma SourceIgnoring(state: Instance<Family>, n: string)
    ensures SourceOf(state, n).None? ==> SourceOf(Ignoring(state), n).None?
    ensures SourceOf(state, n).Some? && HasNumber(SourceOf(state, n).value.samples) ==>
              SourceOf(Ignoring(state), n) == Some(OnlyNumbers(SourceOf(state, n).value))
  {
    PushedIgnoring(state);
    OffersNumbers(Pushed(state), n);
    OffersNumbers(state.rcon, n);
    OffersNumbers(state.a2s, n);
    OffersNumbers(state.polled, n);
    hide HasNumber, Pushed, OnlyNumbers;
  }

  /** Leaving other types out makes no difference to the value under this name. */
  ghost predicate SameValue(state: Instance<Family>, cfg: ExportConfig, n: string) {
    var full, without := PublicOf(state, cfg).values, PublicOf(Ignoring(state), cfg).values;
    (n in full <==> n in without) && (n in full ==> full[n] == without[n])
  }

  /**
   A wanted family without gauges and counters that hides nothing but zero: the source
   below it has numbers, and they add up to zero.
   */
  ghost predicate HidesOnlyZero(state: Instance<Family>, n: string) {
    SourceOf(Ignoring(state), n).Some? && Total(SourceOf(Ignoring(state), n).value.samples) == 0.0
  }

  lemma SameValueExactlyWhen(state: Instance<Family>, cfg: ExportConfig, n: string)
    ensures SameValue(state, cfg, n)
            <==> (n in cfg.values && SourceOf(state, n).Some? && !HasNumber(SourceOf(state, n).value.samples) ==>
                    HidesOnlyZero(state, n))
  {
    SourceIgnoring(state, n);
    if SourceOf(state, n).Some? {
      NumbersTotal(SourceOf(state, n).value.samples);
      if n in cfg.values && !HasNumber(SourceOf(state, n).value.samples) {
        OtherTypesCountAsZero(state, cfg, n);
      }
    }
    hide SourceOf, Ignoring, Total, Numbers, LabelLists, HasNumber;
  }

  /**
   The documentation says that other metric types are ignored. The values are those of the
   same instance without a single such sample exactly when every wanted family that takes
   precedence has a gauge or a counter, or stands in the place of numbers that add up to
   zero anyway.
   */
  lemma OtherTypesAreIgnoredExactlyWhen(state: Instance<Family>, cfg: ExportConfig)
    ensures PublicOf(state, cfg).values == PublicOf(Ignoring(state), cfg).values
            <==>
            forall n :: n in cfg.values && SourceOf(state, n).Some? && !HasNumber(SourceOf(state, n).value.samples) ==>
              HidesOnlyZero(state, n)
  {
    forall n
      ensures SameValue(state, cfg, n)
              <==> (n in cfg.values && SourceOf(state, n).Some? && !HasNumber(SourceOf(state, n).value.samples) ==>
                      HidesOnlyZero(state, n))
    {
      SameValueExactlyWhen(state, cfg, n);
    }
    hide SourceOf, Ignoring, HasNumber, HidesOnlyZero;
    var full, without := PublicOf(state, cfg).values, PublicOf(Ignoring(state), cfg).values;
    hide PublicOf;
    SameMap(full, without);
    assert full == without <==> forall n :: SameValue(state, cfg, n);
  }

  lemma SameMap(a: map<string, real>, b: map<string, real>)
    ensures a == b <==> forall n :: (n in a <==> n in b) && (n in a ==> a[n] == b[n])
  {
  }

  /** An untyped family that is pushed hides a gauge of the same name that was queried: 0 is exported, not 5. */
  lemma UntypedHidesAGauge(cfg: ExportConfig, n: string) returns (state: Instance<Family>)
    requires n in cfg.values
    ensures n in PublicOf(state, cfg).values && PublicOf(state, cfg).values[n] == 0.0
    ensures n in PublicOf(Ignoring(state), cfg).values && PublicOf(Ignoring(state), cfg).values[n] == 5.0
  {
    var untyped, gauge := Sample([], Other), Sample([], Gauge(5.0));
    var pushed, queried := Family(n, "", OtherKind, [untyped]), Family(n, "", GaugeKind, [gauge]);
    state := Blank().(ingested := Some(map[n := pushed]), a2s := Some(map[n := queried]));
    OtherTypesCountAsZero(state, cfg, n);
    OffersNumbers(state.ingested, n);
    OffersNumbers(state.rcon, n);
    OffersNumbers(state.a2s, n);
    NumbersTotal([gauge]);
    TotalOfOne(gauge);
    assert HasNumber([gauge]) by {
      assert [gauge][0].value == Gauge(5.0);
    }
    hide Numbers, Total, LabelLists, HasNumber;
    assert SourceOf(Ignoring(state), n) == Some(OnlyNumbers(queried));
  }

  lemma {:induction false} TotalOfOthers(samples: seq<Sample>)
    requires forall i :: 0 <= i < |samples| ==> samples[i].value.Other?
    ensures Total(samples) == 0.0
  {
    if samples != [] {
      TotalOfOthers(samples[..|samples| - 1]);
    }
  }

  /** Deduplication leaves the order of samples open; sums and label lists do not depend on it. */
  lemma SampleOrderDoesNotMatter(cfg: ExportConfig, a: seq<Sample>, b: seq<Sample>)
    requires multiset(a) == multiset(b)
    ensures Total(a) == Total(b) && LabelLists(cfg, a) == LabelLists(cfg, b)
  {
    TotalOfPermutation(a, b);
    forall s
      ensures s in a <==> s in b
    {
      assert s in a <==> s in multiset(a);
      assert s in b <==> s in multiset(b);
    }
    forall l
      ensures l in AllLabels(a) <==> l in AllLabels(b)
    {
      InAllLabels(a, l);
      InAllLabels(b, l);
    }
    assert AllLabels(a) == AllLabels(b);
  }

  lemma InAllLabels(samples: seq<Sample>, l: Label)
    ensures l in AllLabels(samples) <==> exists s :: s in samples && l in s.labels
  {
    if s :| s in samples && l in s.labels {
      var i :| 0 <= i < |samples| && samples[i] == s;
      assert l in samples[i].labels;
    }
  }

  lemma {:induction false} TotalRemove(samples: seq<Sample>, i: nat)
    requires i < |samples|
    ensures Total(samples) == Amount(samples[i].value) + Total(samples[..i] + samples[i + 1..])
    decreases |samples|
  {
    var n := |samples| - 1;
    var rest := samples[..i] + samples[i + 1..];
    if i == n {
      assert rest == samples[..n];
    } else {
      var init := samples[..n];
      TotalRemove(init, i);
      assert rest[..|rest| - 1] == init[..i] + init[i + 1..];
      assert rest[|rest| - 1] == samples[n];
    }
  }

  lemma {:induction false} TotalOfPermutation(a: seq<Sample>, b: seq<Sample>)
    requires multiset(a) == multiset(b)
    ensures Total(a) == Total(b)
    decreases |a|
  {
    assert |multiset(a)| == |a| && |multiset(b)| == |b|;
    if a != [] {
      var n := |a| - 1;
      assert a[n] in multiset(a);
      assert a[n] in multiset(b);
      var i :| 0 <= i < |b| && b[i] == a[n];
      DropOne(a, n);
      DropOne(b, i);
      hide Total;
      TotalOfPermutation(a[..n] + a[n + 1..], b[..i] + b[i + 1..]);
      TotalRemove(a, n);
      TotalRemove(b, i);
    }
  }

  lemma DropOne(s: seq<Sample>, i: nat)
    requires i < |s|
    ensures multiset(s[..i] + s[i + 1..]) == multiset(s) - multiset{s[i]}
  {
    assert s == s[..i] + [s[i]] + s[i + 1..];
  }

  // ---- The loops ----

  method SumFamily(samples: seq<Sample>) returns (sum: real)
    ensures sum == Total(samples)
  {
    sum := 0.0;
    for i := 0 to |samples|
      invariant sum == Total(samples[..i])
    {
      assert samples[..i + 1][..i] == samples[..i];
      if samples[i].value.Gauge? {
        sum := sum + samples[i].value.v;
      } else if samples[i].value.Counter? {
        sum := sum + samples[i].value.v;
      }
    }
    assert samples[..|samples|] == samples;
  }

  lemma GroupOneMore(cfg: ExportConfig, labels: set<Label>, l: Label)
    ensures Grouped(cfg, labels + {l})
            == if !Exported(cfg, l.name) then Grouped(cfg, labels)
               else Grouped(cfg, labels)[l.name := (if l.name in Grouped(cfg, labels) then Grouped(cfg, labels)[l.name] else {}) + {l.value}]
  {
    var before, after := Grouped(cfg, labels), Grouped(cfg, labels + {l});
    forall k
      ensures ValuesUnder(labels + {l}, k) == if l.name == k then ValuesUnder(labels, k) + {l.value} else ValuesUnder(labels, k)
    {
    }
    if Exported(cfg, l.name) {
      assert after.Keys == before.Keys + {l.name};
      assert l.name !in before ==> ValuesUnder(labels, l.name) == {};
      EntrySet(before, after, l.name);
    } else {
      assert after.Keys == before.Keys;
    }
  }

  /** Collects label values under their keys, sample by sample. */
  method GroupLabels(cfg: ExportConfig, samples: seq<Sample>) returns (sets: map<string, set<string>>)
    ensures sets == Grouped(cfg, AllLabels(samples))
  {
    sets := map[];
    assert AllLabels(samples[..0]) == {};
    for i := 0 to |samples|
      invariant sets == Grouped(cfg, AllLabels(samples[..i]))
    {
      sets := GroupSample(cfg, sets, AllLabels(samples[..i]), samples[i].labels);
      assert AllLabels(samples[..i + 1]) == AllLabels(samples[..i]) + LabelSet(samples[i].labels);
    }
    assert samples[..|samples|] == samples;
  }

  method GroupSample(cfg: ExportConfig, before: map<string, set<string>>, ghost seen: set<Label>, labels: seq<Label>)
    returns (sets: map<string, set<string>>)
    requires before == Grouped(cfg, seen)
    ensures sets == Grouped(cfg, seen + LabelSet(labels))
  {
    sets := before;
    assert seen + LabelSet(labels[..0]) == seen;
    for j := 0 to |labels|
      invariant sets == Grouped(cfg, seen + LabelSet(labels[..j]))
    {
      var l := labels[j];
      GroupOneMore(cfg, seen + LabelSet(labels[..j]), l);
      assert seen + LabelSet(labels[..j + 1]) == seen + LabelSet(labels[..j]) + {l};
      hide Grouped;
      if l.name != "" && l.name !in cfg.labelsExclude {
        if l.name !in sets {
          sets := sets[l.name := {}];
        }
        sets := sets[l.name := sets[l.name] + {l.value}];
      }
    }
    assert labels[..|labels|] == labels;
  }

  method SortedValues(s: set<string>) returns (vals: seq<string>)
    ensures vals == Ascending(s, StringLess)
  {
    vals := RangeOrder(s);
    StringOrder();
    SortOfListing(vals, s, StringLess);
    vals := Sort(vals, StringLess);
  }

  /** Turns the sets into sorted lists. */
  method ListGroups(sets: map<string, set<string>>) returns (kv: map<string, seq<string>>)
    ensures kv == Listed(sets)
  {
    kv := map[];
    ghost var whole := Listed(sets);
    var order := RangeOrder(sets.Keys);
    PartEnds(whole, order);
    for i := 0 to |order|
      invariant kv == Part(whole, order, i)
    {
      assert order[i] in whole && whole[order[i]] == Ascending(sets[order[i]], StringLess);
      PartTurn(whole, order, i);
      hide Part, Ascending, Listed;
      var vals := SortedValues(sets[order[i]]);
      kv := kv[order[i] := vals];
    }
  }

  function Wanted(names: seq<string>, families: Families, n: string): bool {
    n in names && n in families && families[n].samples != []
  }

  ghost function SourceValues(families: Families, cfg: ExportConfig, names: set<string>): map<string, real> {
    map n | n in names && Wanted(cfg.values, families, n) :: Total(families[n].samples)
  }

  ghost function SourceLabels(families: Families, cfg: ExportConfig, names: set<string>): map<string, map<string, seq<string>>> {
    map n | n in names && Wanted(cfg.labels, families, n) :: LabelLists(cfg, families[n].samples)
  }

  /** What the named families of a source write over the result so far. */
  ghost function Overlay(out: PublicData, families: Families, cfg: ExportConfig, names: set<string>): PublicData {
    PublicData(out.values + SourceValues(families, cfg, names), out.labels + SourceLabels(families, cfg, names))
  }

  method ProcessFamily(before: PublicData, families: Families, name: string, cfg: ExportConfig) returns (out: PublicData)
    requires name in families
    ensures out == PublicData(
              if Wanted(cfg.values, families, name) then before.values[name := Total(families[name].samples)] else before.values,
              if Wanted(cfg.labels, families, name) then before.labels[name := LabelLists(cfg, families[name].samples)] else before.labels)
  {
    out := before;
    var samples := families[name].samples;
    if |samples| != 0 {
      if name in cfg.values {
        var sum := SumFamily(samples);
        out := out.(values := out.values[name := sum]);
      }
      if name in cfg.labels {
        var sets := GroupLabels(cfg, samples);
        var kv := ListGroups(sets);
        out := out.(labels := out.labels[name := kv]);
      }
    }
  }

  method ProcessFamilies(before: PublicData, families: Families, cfg: ExportConfig) returns (out: PublicData)
    ensures out == Overlay(before, families, cfg, families.Keys)
  {
    out := before;
    var order := RangeOrder(families.Keys);
    OverlayNone(before, families, cfg, order);
    for i := 0 to |order|
      invariant out == Overlay(before, families, cfg, Visited(order, i))
    {
      OverlayOneMore(before, families, cfg, Visited(order, i), order[i]);
      assert Visited(order, i + 1) == Visited(order, i) + {order[i]};
      hide Overlay, LabelLists, Total, Visited;
      out := ProcessFamily(out, families, order[i], cfg);
    }
    assert Visited(order, |order|) == families.Keys;
  }

  lemma OverlayNone(before: PublicData, families: Families, cfg: ExportConfig, order: seq<string>)
    ensures Overlay(before, families, cfg, Visited(order, 0)) == before
  {
    assert Visited(order, 0) == {};
  }

  lemma OverlayOneMore(before: PublicData, families: Families, cfg: ExportConfig, done: set<string>, name: string)
    requires name in families
    ensures var out := Overlay(before, families, cfg, done);
      Overlay(before, families, cfg, done + {name})
      == PublicData(
           if Wanted(cfg.values, families, name) then out.values[name := Total(families[name].samples)] else out.values,
           if Wanted(cfg.labels, families, name) then out.labels[name := LabelLists(cfg, families[name].samples)] else out.labels)
  {
    hide LabelLists, Total;
    if Wanted(cfg.values, families, name) {
      OverwriteOneMore(before.values, SourceValues(families, cfg, done), SourceValues(families, cfg, done + {name}), name);
    } else {
      assert SourceValues(families, cfg, done + {name}) == SourceValues(families, cfg, done);
    }
    if Wanted(cfg.labels, families, name) {
      OverwriteOneMore(before.labels, SourceLabels(families, cfg, done), SourceLabels(families, cfg, done + {name}), name);
    } else {
      assert SourceLabels(families, cfg, done + {name}) == SourceLabels(families, cfg, done);
    }
  }

  lemma OverwriteOneMore<V>(m: map<string, V>, before: map<string, V>, after: map<string, V>, name: string)
    requires after.Keys == before.Keys + {name}
    requires forall j :: j in before && j != name ==> after[j] == before[j]
    ensures m + after == (m + before)[name := after[name]]
  {
  }

  method CollectPublicData(state: Instance<Family>, cfg: ExportConfig) returns (out: PublicData)
    ensures out == PublicOf(state, cfg)
  {
    hide LabelLists;
    out := PublicData(map[], map[]);
    ghost var none := out;
    out := ProcessSource(out, state.polled, cfg);
    out := ProcessSource(out, state.a2s, cfg);
    out := ProcessSource(out, state.rcon, cfg);
    out := ProcessSource(out, Pushed(state), cfg);
    PrecedenceByOverwriting(state, cfg);
  }

  ghost function OverlaySource(out: PublicData, families: Option<Families>, cfg: ExportConfig): PublicData {
    if families.Some? then Overlay(out, families.value, cfg, families.value.Keys) else out
  }

  method ProcessSource(before: PublicData, families: Option<Families>, cfg: ExportConfig) returns (out: PublicData)
    ensures out == OverlaySource(before, families, cfg)
  {
    out := before;
    if families.Some? {
      out := ProcessFamilies(out, families.value, cfg);
    }
  }

  lemma OverlayAt(out: PublicData, families: Option<Families>, cfg: ExportConfig, n: string)
    ensures var r := OverlaySource(out, families, cfg);
      && (n in r.values <==> n in out.values || (n in cfg.values && Offers(families, n)))
      && (n in r.values ==>
            r.values[n] == if n in cfg.values && Offers(families, n) then Total(families.value[n].samples) else out.values[n])
      && (n in r.labels <==> n in out.labels || (n in cfg.labels && Offers(families, n)))
      && (n in r.labels ==>
            r.labels[n] == if n in cfg.labels && Offers(families, n) then LabelLists(cfg, families.value[n].samples) else out.labels[n])
  {
    hide LabelLists, Total;
  }

  /** Overwriting from the lowest to the highest source leaves the highest that offers a name. */
  lemma PrecedenceByOverwriting(state: Instance<Family>, cfg: ExportConfig)
    ensures OverlaySource(OverlaySource(OverlaySource(OverlaySource(PublicData(map[], map[]),
              state.polled, cfg), state.a2s, cfg), state.rcon, cfg), Pushed(state), cfg)
            == PublicOf(state, cfg)
  {
    hide LabelLists, Total, OverlaySource, Pushed;
    var o0, r := PublicData(map[], map[]), PublicOf(state, cfg);
    var o1 := OverlaySource(o0, state.polled, cfg);
    var o2 := OverlaySource(o1, state.a2s, cfg);
    var o3 := OverlaySource(o2, state.rcon, cfg);
    var o4 := OverlaySource(o3, Pushed(state), cfg);
    forall n
      ensures n in o4.values <==> n in r.values
      ensures n in r.values ==> o4.values[n] == r.values[n]
      ensures n in o4.labels <==> n in r.labels
      ensures n in r.labels ==> o4.labels[n] == r.labels[n]
    {
      OverlayAt(o0, state.polled, cfg, n);
      OverlayAt(o1, state.a2s, cfg, n);
      OverlayAt(o2, state.rcon, cfg, n);
      OverlayAt(o3, Pushed(state), cfg, n);
    }
    assert o4.values == r.values;
    assert o4.labels == r.labels;
  }
}
