/**
 The RCon poller: a session that keeps at most one connection to a server, and the
 gauges built from the list of players that the server answers with.
 */
module Rcon {
  import opened Wrappers
  import opened Ordering
  import opened MapSums
  import opened Metrics

  // ---- The session as a value ----

  /** Whether a connection is held, and how many were ever opened and closed. */
  datatype Session = Session(held: bool, opens: nat, closes: nat)

  /** What the network does during one poll; `None` is a failed send. */
  datatype Network = Network(alive: bool, opens: bool, reply: Option<string>, reopens: bool, retry: Option<string>)

  function Closed(s: Session): Session {
    if s.held then Session(false, s.opens, s.closes + 1) else s
  }

  function Connected(s: Session, opens: bool): Session {
    if opens then Session(true, Closed(s).opens + 1, Closed(s).closes) else Closed(s)
  }

  /** Sends the command, and once more over a new connection if that fails. */
  function Asked(s: Session, w: Network): (Session, Option<string>) {
    if w.reply.Some? then (s, w.reply)
    else
      var again := Connected(Closed(s), w.reopens);
      if w.reopens && w.retry.Some? then (again, w.retry) else (Closed(again), None)
  }

  function Polled(s: Session, w: Network): (Session, Option<string>) {
    if s.held && w.alive then Asked(s, w)
    else if w.opens then Asked(Connected(s, true), w)
    else (Connected(s, false), None)
  }

  datatype Call = Poll(w: Network) | Close

  const START := Session(false, 0, 0)

  function Called(s: Session, call: Call): Session {
    match call
    case Poll(w) => Polled(s, w).0
    case Close => Closed(s)
  }

  function AfterCalls(calls: seq<Call>): Session {
    if calls == [] then START
    else Called(AfterCalls(calls[..|calls| - 1]), calls[|calls| - 1])
  }

  /** Over any sequence of polls and closes, connections opened but not closed number one if one is held, else none. */
  lemma {:induction false} NoConnectionLeaks(calls: seq<Call>)
    ensures var s := AfterCalls(calls);
      s.opens - s.closes == if s.held then 1 else 0
  {
    if calls != [] {
      NoConnectionLeaks(calls[..|calls| - 1]);
    }
  }

  /**
   After a poll a connection is held exactly if the poll got an answer, which it does
   exactly if a connection could be used and either of its two sends succeeded.
   */
  lemma HeldExactlyIfAnswered(s: Session, w: Network)
    ensures Polled(s, w).0.held <==> Polled(s, w).1.Some?
    ensures Polled(s, w).1.Some? <==>
              ((s.held && w.alive) || w.opens) && (w.reply.Some? || (w.reopens && w.retry.Some?))
    ensures Polled(s, w).0.opens <= s.opens + 2
    ensures Polled(s, w).1.Some? ==> Polled(s, w).1 == if w.reply.Some? then w.reply else w.retry
  {
  }

  /** How many connections a poll opens and closes. */
  lemma PollConnections(s: Session, w: Network)
    ensures var r, used := Polled(s, w).0, s.held && w.alive;
      r.opens - s.opens
      == (if !used && w.opens then 1 else 0)
         + (if (used || w.opens) && w.reply.None? && w.reopens then 1 else 0)
    ensures var r := Polled(s, w).0;
      (r.opens - s.opens) - (r.closes - s.closes) == (if r.held then 1 else 0) - (if s.held then 1 else 0)
  {
  }

  // ---- The players ----

  datatype Player = Player(valid: bool, lobby: bool, guid: string, name: string, ip: string,
                           country: string, city: string, latitude: real, longitude: real, pingMs: int)

  /** The answer's text is parsed, and located, by libraries. */
  datatype Library = Library(parse: string -> seq<Player>) {
    function Players(response: string): seq<Player> {
      parse(response)
    }
  }

  const UP := "metricz_rcon_up"
  const TOTAL := "metricz_rcon_players_total"
  const LOBBY := "metricz_rcon_players_lobby"
  const JOINED := "metricz_rcon_player_joined"
  const LATITUDE := "metricz_rcon_player_lat"
  const LONGITUDE := "metricz_rcon_player_lon"
  const PING := "metricz_rcon_player_ping_seconds"

  const PER_PLAYER := {JOINED, LATITUDE, LONGITUDE, PING}

  /** One exported series: which labels, as a set, and which value. */
  datatype Series = Series(labels: set<Label>, value: real)

  function PairsOf(labels: map<string, string>): set<Label> {
    set k | k in labels :: Label(k, labels[k])
  }

  function IdLabels(id: string, p: Player): map<string, string> {
    map["instance_id" := id, "buid" := p.guid]
  }

  function ExtraLabels(id: string, p: Player): map<string, string> {
    var base := map["instance_id" := id, "buid" := p.guid, "name" := p.name, "ip" := p.ip];
    var placed := if p.country != "" then base["country" := p.country] else base;
    if p.city != "" then placed["city" := p.city] else placed
  }

  predicate Located(p: Player) {
    p.latitude != 0.0 && p.longitude != 0.0
  }

  /** The series of one family for one player: none or one. */
  function Row(id: string, p: Player, family: string): seq<Series> {
    if !p.valid then []
    else if family == JOINED then [Series(PairsOf(ExtraLabels(id, p)), if p.lobby then 0.0 else 1.0)]
    else if family == PING then [Series(PairsOf(IdLabels(id, p)), p.pingMs as real / 1000.0)]
    else if family == LATITUDE && Located(p) then [Series(PairsOf(IdLabels(id, p)), p.latitude)]
    else if family == LONGITUDE && Located(p) then [Series(PairsOf(IdLabels(id, p)), p.longitude)]
    else []
  }

  function Rows(id: string, players: seq<Player>, family: string): seq<Series> {
    if players == [] then []
    else Rows(id, players[..|players| - 1], family) + Row(id, players[|players| - 1], family)
  }

  function CountIf(players: seq<Player>, lobbyOnly: bool): nat {
    if players == [] then 0
    else
      var p := players[|players| - 1];
      CountIf(players[..|players| - 1], lobbyOnly) + if p.valid && (lobbyOnly ==> p.lobby) then 1 else 0
  }

  function Whole(id: string, value: real): seq<Series> {
    [Series({Label("instance_id", id)}, value)]
  }

  /** The per-player families that have at least one series. */
  function PlayerFamilies(id: string, players: seq<Player>): map<string, seq<Series>> {
    map f | f in PER_PLAYER && Rows(id, players, f) != [] :: Rows(id, players, f)
  }

  /** Everything exported for a poll; without an answer the server counts as down and empty. */
  function Exported(id: string, answer: Option<seq<Player>>): map<string, seq<Series>> {
    var players := if answer.Some? then answer.value else [];
    PlayerFamilies(id, players)
      [UP := Whole(id, if answer.Some? then 1.0 else 0.0)]
      [TOTAL := Whole(id, CountIf(players, false) as real)]
      [LOBBY := Whole(id, CountIf(players, true) as real)]
  }

  function SumOf(series: seq<Series>): real {
    if series == [] then 0.0 else SumOf(series[..|series| - 1]) + series[|series| - 1].value
  }

  lemma SumOfAppend(a: seq<Series>, b: seq<Series>)
    requires |b| <= 1
    ensures SumOf(a + b) == SumOf(a) + SumOf(b)
  {
    if b == [] {
      assert a + b == a;
    } else {
      assert (a + b)[..|a|] == a;
      assert b[..0] == [];
    }
  }

  /**
   The families of one poll agree: as many joined and ping series as there are players
   in total; the joined ones sum up to the total without the lobby; latitudes and
   longitudes come in pairs with the same labels.
   */
  lemma {:induction false} FamiliesAgree(id: string, players: seq<Player>)
    ensures |Rows(id, players, JOINED)| == |Rows(id, players, PING)| == CountIf(players, false)
    ensures SumOf(Rows(id, players, JOINED)) == (CountIf(players, false) - CountIf(players, true)) as real
    ensures |Rows(id, players, LATITUDE)| == |Rows(id, players, LONGITUDE)| <= CountIf(players, false)
    ensures forall i :: 0 <= i < |Rows(id, players, LATITUDE)| ==>
              Rows(id, players, LATITUDE)[i].labels == Rows(id, players, LONGITUDE)[i].labels
  {
    if players != [] {
      var n := |players| - 1;
      FamiliesAgree(id, players[..n]);
      SumOfAppend(Rows(id, players[..n], JOINED), Row(id, players[n], JOINED));
      OneRow(id, players[n]);
      hide Row;
    }
  }

  lemma OneRow(id: string, p: Player)
    ensures |Row(id, p, JOINED)| == |Row(id, p, PING)| == if p.valid then 1 else 0
    ensures SumOf(Row(id, p, JOINED)) == if p.valid && !p.lobby then 1.0 else 0.0
    ensures |Row(id, p, LATITUDE)| == |Row(id, p, LONGITUDE)| <= |Row(id, p, JOINED)| <= 1
    ensures Row(id, p, LATITUDE) != [] ==> Row(id, p, LATITUDE)[0].labels == Row(id, p, LONGITUDE)[0].labels
  {
    var row := Row(id, p, JOINED);
    if p.valid {
      assert row[..0] == [];
    }
  }

  /** The labels that name a player, and those that describe one. */
  function NamedBy(id: string, p: Player): set<Label> {
    {Label("instance_id", id), Label("buid", p.guid)}
  }

  function DescribedBy(id: string, p: Player): set<Label> {
    NamedBy(id, p) + {Label("name", p.name), Label("ip", p.ip)}
    + (if p.country != "" then {Label("country", p.country)} else {})
    + (if p.city != "" then {Label("city", p.city)} else {})
  }

  lemma LabelsOfPlayer(id: string, p: Player)
    ensures PairsOf(IdLabels(id, p)) == NamedBy(id, p)
    ensures PairsOf(ExtraLabels(id, p)) == DescribedBy(id, p)
  {
    PairsOfIds(id, p);
    var base := map["instance_id" := id, "buid" := p.guid, "name" := p.name, "ip" := p.ip];
    PairsOfBase(id, p, base);
    var placed := if p.country != "" then base["country" := p.country] else base;
    PairsOfUpdate(base, "country", p.country);
    PairsOfUpdate(placed, "city", p.city);
    hide PairsOf, NamedBy;
  }

  lemma PairsOfIds(id: string, p: Player)
    ensures PairsOf(IdLabels(id, p)) == NamedBy(id, p)
  {
    var m := map["instance_id" := id, "buid" := p.guid];
    assert m["instance_id"] == id && m["buid"] == p.guid;
    assert m.Keys == {"instance_id", "buid"};
    forall l
      ensures l in PairsOf(m) <==> l in NamedBy(id, p)
    {
      assert l in PairsOf(m) <==> l.name in m && l.value == m[l.name];
    }
  }

  lemma PairsOfBase(id: string, p: Player, base: map<string, string>)
    requires base == map["instance_id" := id, "buid" := p.guid, "name" := p.name, "ip" := p.ip]
    ensures PairsOf(base) == NamedBy(id, p) + {Label("name", p.name), Label("ip", p.ip)}
    ensures "country" !in base && "city" !in base
  {
    PairsOfIds(id, p);
    var ids := IdLabels(id, p);
    PairsOfUpdate(ids, "name", p.name);
    PairsOfUpdate(ids["name" := p.name], "ip", p.ip);
    assert base == ids["name" := p.name]["ip" := p.ip];
    hide PairsOf;
  }

  lemma PairsOfUpdate(m: map<string, string>, k: string, v: string)
    ensures k !in m ==> PairsOf(m[k := v]) == PairsOf(m) + {Label(k, v)}
  {
    if k !in m {
      forall l
        ensures l in PairsOf(m[k := v]) <==> l in PairsOf(m) + {Label(k, v)}
      {
        assert l in PairsOf(m[k := v]) <==> l.name in m[k := v] && l.value == m[k := v][l.name];
        assert l in PairsOf(m) <==> l.name in m && l.value == m[l.name];
      }
    }
  }

  /** What one valid player contributes to each family, field by field; an invalid one contributes nothing. */
  lemma RowIs(id: string, p: Player)
    ensures !p.valid ==> forall f :: Row(id, p, f) == []
    ensures p.valid ==>
              && Row(id, p, "metricz_rcon_player_joined") == [Series(DescribedBy(id, p), if p.lobby then 0.0 else 1.0)]
              && Row(id, p, "metricz_rcon_player_ping_seconds") == [Series(NamedBy(id, p), p.pingMs as real / 1000.0)]
              && (Row(id, p, "metricz_rcon_player_lat")
                  == if p.latitude != 0.0 && p.longitude != 0.0 then [Series(NamedBy(id, p), p.latitude)] else [])
              && (Row(id, p, "metricz_rcon_player_lon")
                  == if p.latitude != 0.0 && p.longitude != 0.0 then [Series(NamedBy(id, p), p.longitude)] else [])
  {
    LabelsOfPlayer(id, p);
    NamesAreDistinct();
    hide PairsOf, IdLabels, ExtraLabels, NamedBy, DescribedBy;
  }

  /** The families of a list of players are those of its players, one after the other. */
  lemma {:induction false} RowsOfAll(id: string, a: seq<Player>, b: seq<Player>, f: string)
    ensures Rows(id, a + b, f) == Rows(id, a, f) + Rows(id, b, f)
  {
    hide Row;
    if b == [] {
      assert a + b == a;
    } else {
      var n := |b| - 1;
      RowsOfAll(id, a, b[..n], f);
      assert (a + b)[..|a + b| - 1] == a + b[..n];
    }
  }

  /** So are the counts. */
  lemma {:induction false} CountOfAll(a: seq<Player>, b: seq<Player>, lobbyOnly: bool)
    ensures CountIf(a + b, lobbyOnly) == CountIf(a, lobbyOnly) + CountIf(b, lobbyOnly)
  {
    if b == [] {
      assert a + b == a;
    } else {
      var n := |b| - 1;
      CountOfAll(a, b[..n], lobbyOnly);
      assert (a + b)[..|a + b| - 1] == a + b[..n];
    }
  }

  lemma RowsOfOne(id: string, p: Player, f: string)
    ensures Rows(id, [p], f) == Row(id, p, f)
    ensures CountIf([p], false) == if p.valid then 1 else 0
    ensures CountIf([p], true) == if p.valid && p.lobby then 1 else 0
  {
    assert [p][..0] == [];
    hide Row;
  }

  function Under(shown: map<string, seq<Series>>, family: string): seq<Series> {
    if family in shown then shown[family] else []
  }

  /**
   What one poll exports is consistent: one total, one lobby and one `up` series for the
   instance; `up` is 1 exactly if there was an answer; the total is the number of joined
   series and of ping series; total less lobby is the sum of the joined series; and
   latitudes and longitudes are equally many.
   */
  lemma ExportedAgree(id: string, answer: Option<seq<Player>>)
    ensures var x := Exported(id, answer);
      && Under(x, "metricz_rcon_up") == [Series({Label("instance_id", id)}, if answer.Some? then 1.0 else 0.0)]
      && Under(x, "metricz_rcon_players_total") == [Series({Label("instance_id", id)}, |Under(x, JOINED)| as real)]
      && |Under(x, JOINED)| == |Under(x, PING)|
      && |Under(x, "metricz_rcon_players_lobby")| == 1
      && SumOf(Under(x, JOINED)) == Under(x, TOTAL)[0].value - Under(x, LOBBY)[0].value
      && |Under(x, LATITUDE)| == |Under(x, LONGITUDE)|
  {
    NamesAreDistinct();
    var players := if answer.Some? then answer.value else [];
    FamiliesAgree(id, players);
    forall f | f in PER_PLAYER
      ensures Under(Exported(id, answer), f) == Rows(id, players, f)
    {
      ExportedUnder(id, answer, f);
    }
    ExportedTotals(id, answer);
    hide Rows, CountIf, PlayerFamilies, Exported, Under;
  }

  lemma ExportedUnder(id: string, answer: Option<seq<Player>>, f: string)
    requires f in PER_PLAYER
    ensures Under(Exported(id, answer), f) == Rows(id, if answer.Some? then answer.value else [], f)
  {
    NamesAreDistinct();
    hide Rows, CountIf;
  }

  lemma ExportedTotals(id: string, answer: Option<seq<Player>>)
    ensures var x, players := Exported(id, answer), if answer.Some? then answer.value else [];
      && Under(x, UP) == Whole(id, if answer.Some? then 1.0 else 0.0)
      && Under(x, TOTAL) == Whole(id, CountIf(players, false) as real)
      && Under(x, LOBBY) == Whole(id, CountIf(players, true) as real)
  {
    NamesAreDistinct();
    hide PlayerFamilies, CountIf;
  }

  // ---- Building the families in place ----

  function SeriesOf(metric: seq<Metric>): seq<Series>
    reads metric
  {
    seq(|metric|, i requires 0 <= i < |metric| reads metric => OneSeries(metric[i].View()))
  }

  function OneSeries(s: Sample): Series {
    Series(LabelSet(s.labels), if s.value.Other? then 0.0 else s.value.v)
  }

  /** A family map under construction: each family is filed under its own name. */
  ghost predicate Filed(families: map<string, MetricFamily>) {
    forall n :: n in families ==> families[n].name == n
  }

  ghost function Shown(families: map<string, MetricFamily>): map<string, seq<Series>>
    reads families.Values, ReprOf(families)
  {
    assert forall n :: n in families ==> families[n] in families.Values;
    assert forall f :: f in families.Values ==> f.Repr() <= ReprOf(families);
    map n | n in families :: SeriesOf(families[n].metric)
  }

  function Plus(shown: map<string, seq<Series>>, name: string, s: Series): map<string, seq<Series>> {
    shown[name := (if name in shown then shown[name] else []) + [s]]
  }

  /** Label pairs in map order, which is open. */
  method ListLabels(labels: map<string, string>) returns (pairs: seq<Label>)
    ensures LabelSet(pairs) == PairsOf(labels)
    ensures |pairs| == |labels| && DistinctNames(pairs)
  {
    var order := RangeOrder(labels.Keys);
    pairs := [];
    for i := 0 to |order|
      invariant |pairs| == i
      invariant forall k :: 0 <= k < i ==> pairs[k] == Label(order[k], labels[order[k]])
    {
      pairs := pairs + [Label(order[i], labels[order[i]])];
    }
    forall l
      ensures l in LabelSet(pairs) <==> l in PairsOf(labels)
    {
      if l in PairsOf(labels) {
        var k :| 0 <= k < |order| && order[k] == l.name;
        assert pairs[k] == l;
      }
    }
    forall i, j | 0 <= i < j < |pairs|
      ensures NamesDiffer(pairs, i, j)
    {
      assert Differ(order, i, j);
    }
  }

  /** The new map shows one series more; only the family objects of the prior map may have changed, and all others are new. */
  twostate predicate Added(families: map<string, MetricFamily>, new out: map<string, MetricFamily>, name: string, s: Series)
    reads families.Values, ReprOf(families), out.Values, ReprOf(out)
  {
    && Filed(out)
    && fresh(out.Values - families.Values)
    && Shown(out) == Plus(old(Shown(families)), name, s)
  }

  lemma SeriesOfAppend(metric: seq<Metric>, m: Metric)
    ensures SeriesOf(metric + [m]) == SeriesOf(metric) + [OneSeries(m.View())]
  {
  }

  /** Appends to the family of this name, creating it if need be. */
  method AddMetric(families: map<string, MetricFamily>, name: string, help: string, labels: seq<Label>, value: real)
    returns (out: map<string, MetricFamily>)
    requires Filed(families)
    modifies families.Values
    ensures Added(families, out, name, Series(LabelSet(labels), value))
  {
    hide Shown, Filed, Plus, ReprOf;
    if name in families {
      AppendMetric(families, name, labels, value);
      out := families;
    } else {
      out := FileMetric(families, name, help, labels, value);
    }
  }

  method AppendMetric(families: map<string, MetricFamily>, name: string, labels: seq<Label>, value: real)
    requires Filed(families) && name in families
    modifies families.Values
    ensures Added(families, families, name, Series(LabelSet(labels), value))
  {
    hide OneSeries, LabelSet, Plus;
    var metric := new Metric(labels, Gauge(value));
    var mf := families[name];
    SeriesOfAppend(mf.metric, metric);
    mf.metric := mf.metric + [metric];
    assert forall n :: n in families && n != name ==> families[n].metric == old(families[n].metric);
    OneSeriesOf(metric.View());
    PlusAt(old(Shown(families)), Shown(families), name, OneSeries(metric.View()));
  }

  method FileMetric(families: map<string, MetricFamily>, name: string, help: string, labels: seq<Label>, value: real)
    returns (out: map<string, MetricFamily>)
    requires Filed(families) && name !in families
    ensures Added(families, out, name, Series(LabelSet(labels), value))
  {
    hide OneSeries, LabelSet, Plus;
    var metric := new Metric(labels, Gauge(value));
    SeriesOfAppend([], metric);
    var mf := new MetricFamily(name, help, GaugeKind, [metric]);
    assert mf.metric == [] + [metric];
    out := families[name := mf];
    OneSeriesOf(metric.View());
    PlusAt(old(Shown(families)), Shown(out), name, OneSeries(metric.View()));
  }

  lemma OneSeriesOf(s: Sample)
    ensures OneSeries(s) == Series(LabelSet(s.labels), if s.value.Other? then 0.0 else s.value.v)
  {
  }

  lemma PlusAt(before: map<string, seq<Series>>, after: map<string, seq<Series>>, name: string, s: Series)
    requires name in after && after.Keys == before.Keys + {name}
    requires after[name] == (if name in before then before[name] else []) + [s]
    requires forall n :: n in before && n != name ==> after[n] == before[n]
    ensures after == Plus(before, name, s)
  {
    EntrySet(before, after, name);
  }

  method AddGauge(families: map<string, MetricFamily>, name: string, help: string, value: real, instanceId: string)
    returns (out: map<string, MetricFamily>)
    requires Filed(families)
    modifies families.Values
    ensures Added(families, out, name, Series({Label("instance_id", instanceId)}, value))
  {
    var pairs := [Label("instance_id", instanceId)];
    assert LabelSet(pairs) == {pairs[0]};
    out := AddMetric(families, name, help, pairs, value);
  }

  method AddGaugeWithLabels(families: map<string, MetricFamily>, name: string, help: string, value: real, labels: map<string, string>)
    returns (out: map<string, MetricFamily>)
    requires Filed(families)
    modifies families.Values
    ensures Added(families, out, name, Series(PairsOf(labels), value))
  {
    hide Filed, Plus, PairsOf, LabelSet;
    var pairs := ListLabels(labels);
    assert Shown(families) == old(Shown(families));
    hide Shown, ReprOf;
    out := AddMetric(families, name, help, pairs, value);
  }

  /** What a valid player adds, family by family. */
  function PlusPlayer(shown: map<string, seq<Series>>, id: string, p: Player): map<string, seq<Series>> {
    var ids := PairsOf(IdLabels(id, p));
    var joined := Plus(shown, JOINED, Series(PairsOf(ExtraLabels(id, p)), if p.lobby then 0.0 else 1.0));
    var placed := if Located(p) then Plus(Plus(joined, LATITUDE, Series(ids, p.latitude)), LONGITUDE, Series(ids, p.longitude)) else joined;
    Plus(placed, PING, Series(ids, p.pingMs as real / 1000.0))
  }

  method ListedLabels(id: string, p: Player) returns (extraLabels: map<string, string>)
    ensures extraLabels == ExtraLabels(id, p)
  {
    extraLabels := map["instance_id" := id, "buid" := p.guid, "name" := p.name, "ip" := p.ip];
    if p.country != "" {
      extraLabels := extraLabels["country" := p.country];
    }
    if p.city != "" {
      extraLabels := extraLabels["city" := p.city];
    }
  }

  method AddJoined(families: map<string, MetricFamily>, id: string, p: Player) returns (out: map<string, MetricFamily>)
    requires Filed(families)
    modifies families.Values
    ensures Added(families, out, JOINED, Series(PairsOf(ExtraLabels(id, p)), if p.lobby then 0.0 else 1.0))
  {
    var joined := 0.0;
    if !p.lobby {
      joined := 1.0;
    }
    hide PairsOf, ExtraLabels, Plus, Filed;
    var extraLabels := ListedLabels(id, p);
    assert Shown(families) == old(Shown(families));
    hide Shown, ReprOf;
    out := AddGaugeWithLabels(families, JOINED, "Player joined to server (0=lobby, loading or in queue. 1=playing).", joined, extraLabels);
  }

  method AddPlayer(families: map<string, MetricFamily>, id: string, p: Player) returns (out: map<string, MetricFamily>)
    requires Filed(families) && p.valid
    modifies families.Values
    ensures Filed(out) && fresh(out.Values - families.Values)
    ensures Shown(out) == PlusPlayer(old(Shown(families)), id, p)
  {
    hide Shown, Filed, Plus, PairsOf, ReprOf, ExtraLabels, IdLabels;
    out := AddJoined(families, id, p);
    var labels := IdLabels(id, p);
    if p.latitude != 0.0 && p.longitude != 0.0 {
      out := AddGaugeWithLabels(out, LATITUDE, "Player Latitude.", p.latitude, labels);
      out := AddGaugeWithLabels(out, LONGITUDE, "Player Longitude.", p.longitude, labels);
    }
    out := AddGaugeWithLabels(out, PING, "Player latency.", p.pingMs as real / 1000.0, labels);
  }

  lemma NothingShown()
    ensures Filed(map[]) && Shown(map[]) == map[]
  {
  }

  /** The counting loop over the players. */
  method AddPlayers(id: string, players: seq<Player>) returns (families: map<string, MetricFamily>, total: real, inLobby: real)
    ensures Filed(families) && fresh(families.Values)
    ensures Shown(families) == PlayerFamilies(id, players)
    ensures total == CountIf(players, false) as real && inLobby == CountIf(players, true) as real
  {
    families, total, inLobby := map[], 0.0, 0.0;
    NothingShown();
    NoneReserved(id, players);
    NobodyCounts();
    hide PlayerFamilies, PlusPlayer, ReprOf, Filed, Shown, CountIf;
    for i := 0 to |players|
      invariant Filed(families) && fresh(families.Values)
      invariant Shown(families) == PlayerFamilies(id, players[..i])
      invariant total == CountIf(players[..i], false) as real && inLobby == CountIf(players[..i], true) as real
    {
      assert players[..i + 1] == players[..i] + [players[i]];
      PlayerOneMore(id, players[..i], players[i]);
      CountOneMore(players[..i], players[i]);
      if players[i].valid {
        total := total + 1.0;
        if players[i].lobby {
          inLobby := inLobby + 1.0;
        }
        families := AddPlayer(families, id, players[i]);
      }
    }
    assert players[..|players|] == players;
  }

  lemma NobodyCounts()
    ensures CountIf([], false) == 0 && CountIf([], true) == 0
  {
  }

  lemma CountOneMore(players: seq<Player>, p: Player)
    ensures CountIf(players + [p], false) == CountIf(players, false) + if p.valid then 1 else 0
    ensures CountIf(players + [p], true) == CountIf(players, true) + if p.valid && p.lobby then 1 else 0
  {
    assert (players + [p])[..|players|] == players;
  }

  method GenerateMetrics(id: string, players: Option<seq<Player>>) returns (families: map<string, MetricFamily>)
    ensures Filed(families) && fresh(families.Values)
    ensures Shown(families) == Exported(id, players)
  {
    var up, total, inLobby := 0.0, 0.0, 0.0;
    families := map[];
    NothingShown();
    NoneReserved(id, []);
    ExportedAdds(id, players);
    NobodyCounts();
    hide ReprOf, Filed, Shown, PlayerFamilies, Plus, Exported, CountIf;
    if players.Some? {
      up := 1.0;
      families, total, inLobby := AddPlayers(id, players.value);
    }
    families := AddTotals(families, id, up, total, inLobby);
  }

  method AddTotals(families: map<string, MetricFamily>, id: string, up: real, total: real, inLobby: real)
    returns (out: map<string, MetricFamily>)
    requires Filed(families)
    modifies families.Values
    ensures Filed(out) && fresh(out.Values - families.Values)
    ensures Shown(out) == PlusTotals(old(Shown(families)), id, up, total, inLobby)
  {
    hide Shown, Filed, Plus, ReprOf;
    out := AddGauge(families, UP, "RCon availability.", up, id);
    out := AddGauge(out, TOTAL, "Total clients connected (including lobby).", total, id);
    out := AddGauge(out, LOBBY, "Players in lobby.", inLobby, id);
  }

  function PlusTotals(shown: map<string, seq<Series>>, id: string, up: real, total: real, inLobby: real): map<string, seq<Series>> {
    var labels := {Label("instance_id", id)};
    Plus(Plus(Plus(shown, UP, Series(labels, up)), TOTAL, Series(labels, total)), LOBBY, Series(labels, inLobby))
  }

  lemma NoneReserved(id: string, players: seq<Player>)
    ensures UP !in PlayerFamilies(id, players) && TOTAL !in PlayerFamilies(id, players) && LOBBY !in PlayerFamilies(id, players)
    ensures PlayerFamilies(id, []) == map[]
  {
  }

  lemma NamesAreDistinct()
    ensures UP != TOTAL && UP != LOBBY && TOTAL != LOBBY
    ensures JOINED != LATITUDE && JOINED != LONGITUDE && JOINED != PING
    ensures LATITUDE != LONGITUDE && LATITUDE != PING && LONGITUDE != PING
  {
    assert TOTAL[21] != LOBBY[21] && LATITUDE[21] != LONGITUDE[21];
  }

  lemma PlusNew(shown: map<string, seq<Series>>, name: string, s: Series)
    requires name !in shown
    ensures Plus(shown, name, s) == shown[name := [s]]
  {
    assert [] + [s] == [s];
  }

  lemma ExportedAdds(id: string, answer: Option<seq<Player>>)
    ensures var players := if answer.Some? then answer.value else [];
      Exported(id, answer)
      == PlusTotals(PlayerFamilies(id, players), id, if answer.Some? then 1.0 else 0.0,
                    CountIf(players, false) as real, CountIf(players, true) as real)
  {
    NamesAreDistinct();
    var players, labels := if answer.Some? then answer.value else [], {Label("instance_id", id)};
    var m, up := PlayerFamilies(id, players), Series(labels, if answer.Some? then 1.0 else 0.0);
    var total, lobby := Series(labels, CountIf(players, false) as real), Series(labels, CountIf(players, true) as real);
    NoneReserved(id, players);
    PlusNew(m, UP, up);
    PlusNew(Plus(m, UP, up), TOTAL, total);
    PlusNew(Plus(Plus(m, UP, up), TOTAL, total), LOBBY, lobby);
    hide PlayerFamilies, CountIf, Plus;
  }

  lemma RowsOneMore(id: string, players: seq<Player>, p: Player, f: string)
    ensures Rows(id, players + [p], f) == Rows(id, players, f) + Row(id, p, f)
  {
    assert (players + [p])[..|players|] == players;
  }

  lemma PlayerOneMore(id: string, players: seq<Player>, p: Player)
    ensures PlayerFamilies(id, players + [p])
            == if p.valid then PlusPlayer(PlayerFamilies(id, players), id, p) else PlayerFamilies(id, players)
  {
    hide PlayerFamilies, PlusPlayer;
    var before, after := PlayerFamilies(id, players), PlayerFamilies(id, players + [p]);
    var expected := if p.valid then PlusPlayer(before, id, p) else before;
    forall f
      ensures f in after <==> f in expected
      ensures f in after ==> after[f] == expected[f]
    {
      PlayerOneMoreAt(id, players, p, f);
    }
    assert after == expected;
  }

  lemma PlayerOneMoreAt(id: string, players: seq<Player>, p: Player, f: string)
    ensures var before, after := PlayerFamilies(id, players), PlayerFamilies(id, players + [p]);
      var expected := if p.valid then PlusPlayer(before, id, p) else before;
      && (f in after <==> f in expected)
      && (f in after ==> after[f] == expected[f])
  {
    var rows, row := Rows(id, players, f), Row(id, p, f);
    RowsOneMore(id, players, p, f);
    assert rows + [] == rows && [] + row == row;
    if p.valid {
      PlusPlayerAt(PlayerFamilies(id, players), id, p);
    } else {
      assert row == [];
    }
    hide PlusPlayer, Rows, PairsOf, Row;
  }

  lemma PlusPlayerAt(shown: map<string, seq<Series>>, id: string, p: Player)
    requires p.valid
    ensures var r := PlusPlayer(shown, id, p);
      forall f ::
        && (f in r <==> f in shown || (f in PER_PLAYER && Row(id, p, f) != []))
        && (f in r ==>
              r[f] == (if f in shown then shown[f] else []) + if f in PER_PLAYER then Row(id, p, f) else [])
  {
    NamesAreDistinct();
    hide PairsOf;
  }

  // ---- The session in place ----

  class Connection {
    var isOpen: bool

    constructor ()
      ensures isOpen
    {
      isOpen := true;
    }

    method Close()
      requires isOpen
      modifies this
      ensures !isOpen
    {
      isOpen := false;
    }
  }

  class RConSession {
    const instanceId: string
    const lib: Library
    var conn: Connection?
    var lastActive: Option<int>
    ghost var begun: set<Connection>
    ghost var ended: nat

    /** Of all connections ever begun only the one held, if any, is still open. */
    ghost predicate Valid()
      reads this, begun
    {
      && (conn != null ==> conn in begun)
      && forall k :: k in begun ==> (k.isOpen <==> k == conn)
    }

    ghost function Now(): Session
      reads this
    {
      Session(conn != null, |begun|, ended)
    }

    constructor (instanceId: string, lib: Library)
      ensures Valid() && Now() == START && begun == {} && lastActive == None
      ensures this.instanceId == instanceId && this.lib == lib
    {
      this.instanceId, this.lib, conn, lastActive, begun, ended := instanceId, lib, null, None, {}, 0;
    }

    method CloseInternal()
      requires Valid()
      modifies this`conn, this`ended, begun
      ensures Valid() && conn == null && Now() == Closed(old(Now()))
    {
      if conn != null {
        conn.Close();
        conn := null;
        ended := ended + 1;
      }
    }

    /** Any connection still held is closed first. */
    method Connect(opens: bool)
      requires Valid()
      modifies this`conn, this`ended, this`begun, begun
      ensures Valid() && fresh(begun - old(begun)) && old(begun) <= begun
      ensures Now() == Connected(old(Now()), opens)
    {
      CloseInternal();
      if opens {
        conn := new Connection();
        begun := begun + {conn};
      }
    }

    method Close()
      requires Valid()
      modifies this`conn, this`ended, begun
      ensures Valid() && conn == null && Now() == Closed(old(Now()))
    {
      CloseInternal();
    }

    /** The answer to the command, if one was had after at most one reconnect. */
    method Ask(w: Network, now: int) returns (answer: Option<string>)
      requires Valid()
      modifies this, begun
      ensures Valid() && fresh(begun - old(begun)) && old(begun) <= begun
      ensures (Now(), answer) == Polled(old(Now()), w)
      ensures lastActive == if answer.Some? then Some(now) else old(lastActive)
    {
      if conn == null || !w.alive {
        Connect(w.opens);
        if !w.opens {
          return None;
        }
      }
      answer := w.reply;
      if answer.None? {
        CloseInternal();
        Connect(w.reopens);
        if !w.reopens {
          return None;
        }
        answer := w.retry;
        if answer.None? {
          CloseInternal();
          return None;
        }
      }
      lastActive := Some(now);
    }

    /**
     One poll. The session ends up as the network allows; the families report the
     answered players, or the server as down; and a connection is held exactly if
     there was no error, exactly if `up` is 1.
     */
    method Poll(w: Network, now: int) returns (families: map<string, MetricFamily>, failed: bool)
      requires Valid()
      modifies this, begun
      ensures Valid() && fresh(begun - old(begun)) && old(begun) <= begun
      ensures Now() == Polled(old(Now()), w).0
      ensures failed <==> Polled(old(Now()), w).1.None?
      ensures Filed(families) && fresh(families.Values)
      ensures Shown(families) == Exported(instanceId,
                var answer := Polled(old(Now()), w).1; if answer.Some? then Some(lib.Players(answer.value)) else None)
      ensures conn != null <==> !failed
      ensures !failed <==> Shown(families)[UP] == Whole(instanceId, 1.0)
      ensures lastActive == if failed then old(lastActive) else Some(now)
    {
      var answer := Ask(w, now);
      failed := answer.None?;
      var players: Option<seq<Player>> := None;
      if answer.Some? {
        players := Some(lib.Players(answer.value));
      }
      families := GenerateMetrics(instanceId, players);
    }
  }
}
