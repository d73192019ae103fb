/**
 Metric families. The value types are what the specifications talk about; the classes
 are the objects that the parser and the RCon poller build and fill in place. A
 `MetricFamily` object denotes the `Family` value returned by `View`.
 */
module Metrics {
  import opened Ordering

  const INSTANCE_ID := "instance_id"
  const STATUS_FAMILY := "dayz_metricz_status"
  const INTERVAL_FAMILY := "dayz_metricz_scrape_interval_seconds"
  const PLAYER_LOADED_FAMILY := "dayz_metricz_player_loaded"

  datatype Label = Label(name: string, value: string)

  datatype Value = Gauge(v: real) | Counter(v: real) | Other

  datatype Kind = GaugeKind | CounterKind | OtherKind

  datatype Sample = Sample(labels: seq<Label>, value: Value)

  datatype Family = Family(name: string, help: string, kind: Kind, samples: seq<Sample>)

  type Families = map<string, Family>

  predicate LabelLess(a: Label, b: Label) {
    StringLess(a.name, b.name)
  }

  function LabelSet(labels: seq<Label>): set<Label> {
    set l | l in labels
  }

  ghost predicate NamesDiffer(labels: seq<Label>, i: nat, j: nat)
    requires i < |labels| && j < |labels|
  {
    labels[i].name != labels[j].name
  }

  ghost predicate DistinctNames(labels: seq<Label>) {
    forall i, j :: 0 <= i < j < |labels| ==> NamesDiffer(labels, i, j)
  }

  lemma LabelOrder()
    ensures StrictOrder(LabelLess)
    ensures forall a: Label, b: Label :: a.name != b.name ==> LabelLess(a, b) || LabelLess(b, a)
  {
    StringOrder();
  }

  /** Sorted label lists are determined by their label sets, so series identity can be compared on either. */
  lemma SortedLabelsAreCanonical(a: seq<Label>, b: seq<Label>)
    requires Increasing(a, LabelLess) && Increasing(b, LabelLess)
    requires LabelSet(a) == LabelSet(b)
    ensures a == b
  {
    LabelOrder();
    forall x
      ensures x in a <==> x in b
    {
      assert x in a <==> x in LabelSet(a);
      assert x in b <==> x in LabelSet(b);
    }
    Unique(a, b, LabelLess);
  }

  /** The interval that a payload announces; 60 seconds when it announces none. */
  function IntervalOf(families: Families): real {
    if INTERVAL_FAMILY in families
       && families[INTERVAL_FAMILY].samples != []
       && families[INTERVAL_FAMILY].samples[0].value.Gauge?
    then families[INTERVAL_FAMILY].samples[0].value.v
    else 60.0
  }

  /** The interval family's first sample is a gauge of this value. */
  ghost predicate Announces(families: Families, v: real) {
    && "dayz_metricz_scrape_interval_seconds" in families
    && var samples := families["dayz_metricz_scrape_interval_seconds"].samples;
    samples != [] && samples[0].value == Gauge(v)
  }

  /** The announced value counts; where none is announced, 60 seconds do. */
  ghost predicate IntervalFor(families: Families, v: real) {
    Announces(families, v) || (v == 60.0 && forall w :: !Announces(families, w))
  }

  lemma IntervalIsAnnounced(families: Families, v: real)
    ensures IntervalFor(families, v) <==> IntervalOf(families) == v
  {
    if INTERVAL_FAMILY in families && families[INTERVAL_FAMILY].samples != [] && families[INTERVAL_FAMILY].samples[0].value.Gauge? {
      assert Announces(families, families[INTERVAL_FAMILY].samples[0].value.v);
    }
  }

  class Metric {
    var labels: seq<Label>
    const value: Value

    constructor (labels: seq<Label>, value: Value)
      ensures this.labels == labels && this.value == value
    {
      this.labels, this.value := labels, value;
    }

    function View(): Sample
      reads this
    {
      Sample(labels, value)
    }
  }

  class MetricFamily {
    const name: string
    const help: string
    const kind: Kind
    var metric: seq<Metric>

    constructor (name: string, help: string, kind: Kind, metric: seq<Metric>)
      ensures this.name == name && this.help == help && this.kind == kind && this.metric == metric
    {
      this.name, this.help, this.kind, this.metric := name, help, kind, metric;
    }

    function View(): Family
      reads this, metric
    {
      Family(name, help, kind, ViewAll(metric))
    }

    ghost function Repr(): set<object>
      reads this
    {
      {this} + (set m: Metric | m in metric)
    }
  }

  function ViewAll(metric: seq<Metric>): seq<Sample>
    reads metric
  {
    seq(|metric|, i requires 0 <= i < |metric| reads metric => metric[i].View())
  }

  /** Every object reachable from a family map. */
  ghost function ReprOf(families: map<string, MetricFamily>): set<object>
    reads families.Values
  {
    set f: MetricFamily, o: object | f in families.Values && o in f.Repr() :: o
  }

  ghost function ViewOf(families: map<string, MetricFamily>): Families
    reads families.Values, ReprOf(families)
  {
    assert forall n :: n in families ==> families[n] in families.Values;
    assert forall f :: f in families.Values ==> f.Repr() <= ReprOf(families);
    map n | n in families :: families[n].View()
  }
}
