/**
 What the parser does to one sample's labels: player-id enrichment, injection or check
 of `instance_id`, and the sort by name. `CanonicalSet` is the reference: the same
 transformation on label sets, in which order plays no part.
 */
module Labels {
  import opened Wrappers
  import opened Ordering
  import opened Metrics
  import opened Text

  const STEAM_ID := "steam_id"
  const BUID := "buid"

  /** What the text decoder delivers: families in order, then the end or a syntax error. */
  datatype Decoded = Decoded(families: seq<Family>, failed: bool)

  /** The libraries that the parser calls, as arbitrary functions. */
  datatype Libraries = Libraries(
    decode: Bytes -> Decoded,
    parseInt: string -> Option<int>,
    battlEyeId: int -> string,
    hash: string -> int)
  {
    function Decode(input: Bytes): Decoded {
      decode(input)
    }

    function ParseInt(s: string): Option<int> {
      parseInt(s)
    }

    function BattlEyeString(steamId: int): string {
      battlEyeId(steamId)
    }

    function Hash(s: string): int {
      hash(s)
    }
  }

  /** The decoder rejects a sample with a repeated label name. */
  ghost predicate DecodesDistinctNames(lib: Libraries) {
    forall input, i, k :: 0 <= i < |lib.Decode(input).families| && 0 <= k < |lib.Decode(input).families[i].samples| ==>
      DistinctNames(lib.Decode(input).families[i].samples[k].labels)
  }

  /** The value of the last label with this name, or the empty string. */
  function ValueOf(labels: seq<Label>, name: string): string {
    if labels == [] then ""
    else
      var last := labels[|labels| - 1];
      if last.name == name then last.value else ValueOf(labels[..|labels| - 1], name)
  }

  ghost predicate HasName(labels: seq<Label>, name: string) {
    exists i :: 0 <= i < |labels| && labels[i].name == name
  }

  ghost function Enrich(lib: Libraries, labels: seq<Label>): seq<Label> {
    var steamId := ValueOf(labels, STEAM_ID);
    if steamId != "" && !HasName(labels, BUID) && lib.ParseInt(steamId).Some?
    then labels + [Label(BUID, lib.BattlEyeString(lib.ParseInt(steamId).value))]
    else labels
  }

  /** Position of the first label with this name, or the length. */
  function IndexOf(labels: seq<Label>, name: string): (i: nat)
    ensures i <= |labels|
    ensures i < |labels| ==> labels[i].name == name
    ensures forall k :: 0 <= k < i ==> labels[k].name != name
  {
    if labels == [] || labels[0].name == name then 0 else 1 + IndexOf(labels[1..], name)
  }

  function SetInstance(labels: seq<Label>, target: string, overwrite: bool): Option<seq<Label>> {
    var i := IndexOf(labels, INSTANCE_ID);
    if i == |labels| then Some(labels + [Label(INSTANCE_ID, target)])
    else if labels[i].value == target then Some(labels)
    else if overwrite then Some(labels[i := Label(INSTANCE_ID, target)])
    else None
  }

  /** The labels of one sample of the given family, or nothing when the instance does not match. */
  ghost function Prepare(lib: Libraries, family: string, target: string, overwrite: bool, labels: seq<Label>): Option<seq<Label>> {
    var enriched := if family == PLAYER_LOADED_FAMILY then Enrich(lib, labels) else labels;
    match SetInstance(enriched, target, overwrite)
    case None => None
    case Some(ls) => Some(Sort(ls, LabelLess))
  }

  // ---- The reference on sets ----

  ghost function Buids(lib: Libraries, family: string, labels: set<Label>): set<Label> {
    if family == PLAYER_LOADED_FAMILY && (forall l :: l in labels ==> l.name != BUID)
    then set l | l in labels && l.name == STEAM_ID && l.value != "" && lib.ParseInt(l.value).Some?
           :: Label(BUID, lib.BattlEyeString(lib.ParseInt(l.value).value))
    else {}
  }

  ghost function CanonicalSet(lib: Libraries, family: string, target: string, labels: set<Label>): set<Label> {
    (set l | l in labels && l.name != INSTANCE_ID) + {Label(INSTANCE_ID, target)} + Buids(lib, family, labels)
  }

  ghost predicate Mismatched(labels: set<Label>, target: string) {
    exists l :: l in labels && l.name == INSTANCE_ID && l.value != target
  }

  // ---- Proof that Prepare computes the reference ----

  lemma DistinctSnoc(labels: seq<Label>, l: Label)
    requires DistinctNames(labels) && !HasName(labels, l.name)
    ensures DistinctNames(labels + [l])
  {
    forall i, j | 0 <= i < j < |labels + [l]|
      ensures NamesDiffer(labels + [l], i, j)
    {
      assert j < |labels| ==> NamesDiffer(labels, i, j);
    }
  }

  /** With distinct names a label is found by its name. */
  lemma OneLabelPerName(labels: seq<Label>, a: Label, b: Label)
    requires DistinctNames(labels) && a in labels && b in labels && a.name == b.name
    ensures a == b
  {
    var i :| 0 <= i < |labels| && labels[i] == a;
    var j :| 0 <= j < |labels| && labels[j] == b;
    assert i < j ==> NamesDiffer(labels, i, j);
    assert j < i ==> NamesDiffer(labels, j, i);
  }

  lemma HasNameInit(labels: seq<Label>, name: string)
    requires labels != []
    ensures HasName(labels, name) <==> HasName(labels[..|labels| - 1], name) || labels[|labels| - 1].name == name
  {
    var n := |labels| - 1;
    if HasName(labels[..n], name) {
      var i :| 0 <= i < n && labels[..n][i].name == name;
      assert labels[i].name == name;
    }
    if HasName(labels, name) && labels[n].name != name {
      var i :| 0 <= i < |labels| && labels[i].name == name;
      assert labels[..n][i].name == name;
    }
  }

  lemma {:induction false} ValueOfIsLast(labels: seq<Label>, name: string)
    ensures HasName(labels, name) ==> Label(name, ValueOf(labels, name)) in labels
    ensures !HasName(labels, name) ==> ValueOf(labels, name) == ""
  {
    if labels != [] {
      var init := labels[..|labels| - 1];
      HasNameInit(labels, name);
      ValueOfIsLast(init, name);
      assert labels == init + [labels[|labels| - 1]];
      hide HasName;
    }
  }

  lemma EnrichOnSets(lib: Libraries, labels: seq<Label>)
    requires DistinctNames(labels)
    ensures DistinctNames(Enrich(lib, labels))
    ensures LabelSet(Enrich(lib, labels)) == LabelSet(labels) + Buids(lib, PLAYER_LOADED_FAMILY, LabelSet(labels))
  {
    var steamId := ValueOf(labels, STEAM_ID);
    ValueOfIsLast(labels, STEAM_ID);
    var buids := Buids(lib, PLAYER_LOADED_FAMILY, LabelSet(labels));
    assert HasName(labels, BUID) <==> exists l :: l in LabelSet(labels) && l.name == BUID by {
      assert forall i :: 0 <= i < |labels| ==> labels[i] in LabelSet(labels);
    }
    forall l | l in labels && l.name == STEAM_ID
      ensures l.value == steamId
    {
      var i :| 0 <= i < |labels| && labels[i] == l;
      assert HasName(labels, STEAM_ID);
      OneLabelPerName(labels, l, Label(STEAM_ID, steamId));
    }
    if Enrich(lib, labels) == labels {
      assert buids == {};
    } else {
      var added := Label(BUID, lib.BattlEyeString(lib.ParseInt(steamId).value));
      DistinctSnoc(labels, added);
      assert Label(STEAM_ID, steamId) in LabelSet(labels);
      assert buids == {added};
    }
  }

  lemma SetInstanceOnSets(labels: seq<Label>, target: string, overwrite: bool)
    requires DistinctNames(labels)
    ensures SetInstance(labels, target, overwrite).None? <==> !overwrite && Mismatched(LabelSet(labels), target)
    ensures SetInstance(labels, target, overwrite).Some? ==>
              var r := SetInstance(labels, target, overwrite).value;
              && DistinctNames(r)
              && LabelSet(r) == (set l | l in LabelSet(labels) && l.name != INSTANCE_ID) + {Label(INSTANCE_ID, target)}
  {
    var i := IndexOf(labels, INSTANCE_ID);
    if i == |labels| {
      assert !HasName(labels, INSTANCE_ID);
      DistinctSnoc(labels, Label(INSTANCE_ID, target));
      assert forall l :: l in labels ==> l.name != INSTANCE_ID;
    } else {
      forall l | l in labels && l.name == INSTANCE_ID
        ensures l == labels[i]
      {
        OneLabelPerName(labels, l, labels[i]);
      }
      assert labels[i] in LabelSet(labels);
      if labels[i].value != target && overwrite {
        ReplaceOnSets(labels, i, target);
      }
    }
  }

  lemma ReplaceOnSets(labels: seq<Label>, i: nat, target: string)
    requires DistinctNames(labels) && i < |labels| && labels[i].name == INSTANCE_ID
    requires forall l :: l in labels && l.name == INSTANCE_ID ==> l == labels[i]
    ensures var r := labels[i := Label(INSTANCE_ID, target)];
      && DistinctNames(r)
      && LabelSet(r) == (set l | l in labels && l.name != INSTANCE_ID) + {Label(INSTANCE_ID, target)}
  {
    var r := labels[i := Label(INSTANCE_ID, target)];
    forall j, k | 0 <= j < k < |r|
      ensures NamesDiffer(r, j, k)
    {
      assert NamesDiffer(labels, j, k);
    }
    forall l | l in labels && l.name != INSTANCE_ID
      ensures l in r
    {
      var k :| 0 <= k < |labels| && labels[k] == l;
      assert r[k] == l;
    }
    forall l | l in r && l != Label(INSTANCE_ID, target)
      ensures l in labels && l.name != INSTANCE_ID
    {
      var k :| 0 <= k < |r| && r[k] == l;
      assert labels[k] == l && labels[k] != labels[i] by {
        assert k < i ==> NamesDiffer(labels, k, i);
        assert i < k ==> NamesDiffer(labels, i, k);
      }
    }
    assert r[i] == Label(INSTANCE_ID, target);
  }

  lemma SortLabels(labels: seq<Label>)
    requires DistinctNames(labels)
    ensures Increasing(Sort(labels, LabelLess), LabelLess)
    ensures LabelSet(Sort(labels, LabelLess)) == LabelSet(labels)
  {
    LabelOrder();
    forall i, j | 0 <= i < j < |labels|
      ensures LabelLess(labels[i], labels[j]) || LabelLess(labels[j], labels[i])
    {
      assert NamesDiffer(labels, i, j);
    }
    SortIncreases(labels, LabelLess);
  }

  /**
   The labels of an accepted sample are the sorted listing of the canonical label set;
   a sample is refused exactly when overwriting is off and it names another instance.
   */
  lemma PrepareIsCanonical(lib: Libraries, family: string, target: string, overwrite: bool, labels: seq<Label>)
    requires DistinctNames(labels)
    ensures Prepare(lib, family, target, overwrite, labels).None? <==> !overwrite && Mismatched(LabelSet(labels), target)
    ensures Prepare(lib, family, target, overwrite, labels).Some? ==>
              var r := Prepare(lib, family, target, overwrite, labels).value;
              Increasing(r, LabelLess) && LabelSet(r) == CanonicalSet(lib, family, target, LabelSet(labels))
  {
    EnrichOnSets(lib, labels);
    var enriched := if family == PLAYER_LOADED_FAMILY then Enrich(lib, labels) else labels;
    var plain, rich := LabelSet(labels), LabelSet(enriched);
    assert rich == plain + Buids(lib, family, plain);
    CanonicalOfEnriched(lib, family, target, plain, rich);
    SetInstanceOnSets(enriched, target, overwrite);
    hide Enrich, SetInstance, Mismatched, CanonicalSet, Buids;
    if SetInstance(enriched, target, overwrite).Some? {
      SortLabels(SetInstance(enriched, target, overwrite).value);
    }
  }

  lemma CanonicalOfEnriched(lib: Libraries, family: string, target: string, labels: set<Label>, enriched: set<Label>)
    requires enriched == labels + Buids(lib, family, labels)
    ensures Mismatched(enriched, target) <==> Mismatched(labels, target)
    ensures (set l | l in enriched && l.name != INSTANCE_ID) + {Label(INSTANCE_ID, target)} == CanonicalSet(lib, family, target, labels)
  {
    BuidNames(lib, family, labels);
    hide Buids;
    assert forall l :: l in enriched && l.name == INSTANCE_ID <==> l in labels && l.name == INSTANCE_ID;
  }

  lemma BuidNames(lib: Libraries, family: string, labels: set<Label>)
    ensures forall l :: l in Buids(lib, family, labels) ==> l.name != INSTANCE_ID
  {
  }

  /** A player id derived from the Steam id among the labels. */
  ghost predicate IsDerivedId(lib: Libraries, labels: set<Label>, l: Label) {
    exists m :: m in labels && m.name == "steam_id" && m.value != "" && lib.ParseInt(m.value).Some? &&
                l == Label("buid", lib.BattlEyeString(lib.ParseInt(m.value).value))
  }

  lemma InCanonicalSet(lib: Libraries, family: string, target: string, labels: set<Label>, l: Label)
    ensures l in CanonicalSet(lib, family, target, labels)
            <==>
            || (l in labels && l.name != "instance_id")
            || l == Label("instance_id", target)
            || (family == "dayz_metricz_player_loaded" && (forall m :: m in labels ==> m.name != "buid") && IsDerivedId(lib, labels, l))
  {
    DerivedIds(lib, family, labels, l);
    hide Buids, IsDerivedId;
  }

  lemma DerivedIds(lib: Libraries, family: string, labels: set<Label>, l: Label)
    ensures l in Buids(lib, family, labels)
            <==> family == "dayz_metricz_player_loaded" && (forall m :: m in labels ==> m.name != "buid") && IsDerivedId(lib, labels, l)
  {
  }

  /** In plain terms: what is kept, what is set, and what is derived from the Steam id of a loaded player. */
  lemma FinalLabels(lib: Libraries, family: string, target: string, overwrite: bool, labels: seq<Label>, l: Label)
    requires DistinctNames(labels) && Prepare(lib, family, target, overwrite, labels).Some?
    ensures l in Prepare(lib, family, target, overwrite, labels).value
            <==>
            || (l in labels && l.name != "instance_id")
            || l == Label("instance_id", target)
            || (family == "dayz_metricz_player_loaded" && (forall m :: m in labels ==> m.name != "buid")
                && IsDerivedId(lib, LabelSet(labels), l))
  {
    PrepareIsCanonical(lib, family, target, overwrite, labels);
    InCanonicalSet(lib, family, target, LabelSet(labels), l);
    var r := Prepare(lib, family, target, overwrite, labels).value;
    assert l in r <==> l in LabelSet(r);
    assert forall m :: m in labels <==> m in LabelSet(labels);
    hide Prepare, CanonicalSet, IsDerivedId, LabelSet;
  }

  /** The order in which a sample lists its labels does not matter, whatever sorting algorithm is used. */
  lemma LabelOrderDoesNotMatter(lib: Libraries, family: string, target: string, overwrite: bool, a: seq<Label>, b: seq<Label>)
    requires DistinctNames(a) && DistinctNames(b) && LabelSet(a) == LabelSet(b)
    ensures Prepare(lib, family, target, overwrite, a) == Prepare(lib, family, target, overwrite, b)
  {
    PrepareIsCanonical(lib, family, target, overwrite, a);
    PrepareIsCanonical(lib, family, target, overwrite, b);
    var ra, rb := Prepare(lib, family, target, overwrite, a), Prepare(lib, family, target, overwrite, b);
    if ra.Some? {
      SortedLabelsAreCanonical(ra.value, rb.value);
    }
  }

  /** Sorted labels have distinct names. */
  lemma IncreasingNames(labels: seq<Label>)
    requires Increasing(labels, LabelLess)
    ensures DistinctNames(labels)
  {
    LabelOrder();
    forall i, j | 0 <= i < j < |labels|
      ensures NamesDiffer(labels, i, j)
    {
      assert Precedes(labels, i, j, LabelLess);
      assert LabelLess(labels[i], labels[j]);
      assert labels[i].name == labels[j].name ==> LabelLess(labels[i], labels[i]);
    }
  }

  /** A normalised label list: sorted by name, and naming the target instance once. */
  ghost predicate Normal(labels: seq<Label>, target: string) {
    && Increasing(labels, LabelLess)
    && Label(INSTANCE_ID, target) in labels
  }

  /** A normalised list is sorted by name, character by character. */
  lemma NormalIsSorted(labels: seq<Label>, target: string, i: nat, j: nat)
    requires Normal(labels, target) && i < j < |labels|
    ensures Before(labels[i].name, labels[j].name)
  {
    assert Precedes(labels, i, j, LabelLess);
    StringLessIsLexicographic(labels[i].name, labels[j].name);
  }

  /** In a normalised list every name occurs once, and no other instance is named. */
  lemma NormalNames(labels: seq<Label>, target: string, l: Label, m: Label)
    requires Normal(labels, target) && l in labels && m in labels
    ensures l.name == m.name ==> l == m
    ensures l.name == "instance_id" ==> l.value == target
  {
    IncreasingNames(labels);
    if l.name == m.name {
      OneLabelPerName(labels, l, m);
    }
    if l.name == INSTANCE_ID {
      OneLabelPerName(labels, l, Label(INSTANCE_ID, target));
    }
  }

  /** Normalising normal labels again, in either mode, changes nothing, provided enrichment has run its course. */
  lemma PrepareIsIdempotent(lib: Libraries, family: string, target: string, overwrite: bool, labels: seq<Label>, again: bool)
    requires DistinctNames(labels)
    requires Prepare(lib, family, target, overwrite, labels).Some?
    ensures var r := Prepare(lib, family, target, overwrite, labels).value;
      Normal(r, target) && Prepare(lib, family, target, again, r) == Some(r)
  {
    PrepareIsCanonical(lib, family, target, overwrite, labels);
    var r := Prepare(lib, family, target, overwrite, labels).value;
    var s := LabelSet(labels);
    assert Label(INSTANCE_ID, target) in LabelSet(r);
    assert Normal(r, target);
    IncreasingNames(r);
    PrepareIsCanonical(lib, family, target, again, r);
    assert forall l :: l in LabelSet(r) && l.name == INSTANCE_ID ==> l.value == target by {
      forall l | l in LabelSet(r) && l.name == INSTANCE_ID
        ensures l.value == target
      {
        NormalNames(r, target, l, l);
      }
    }
    BuidsSettled(lib, family, target, s);
    assert CanonicalSet(lib, family, target, LabelSet(r)) == LabelSet(r);
    SortedLabelsAreCanonical(Prepare(lib, family, target, again, r).value, r);
  }

  /** Enrichment happens at most once: afterwards there is a player id, or nothing to derive one from. */
  lemma BuidsSettled(lib: Libraries, family: string, target: string, s: set<Label>)
    ensures Buids(lib, family, CanonicalSet(lib, family, target, s)) == {}
  {
    var c := CanonicalSet(lib, family, target, s);
    assert forall l :: l in c && l.name == STEAM_ID ==> l in s;
    if l :| l in s && l.name == BUID {
      assert l in c;
    } else if b :| b in Buids(lib, family, s) {
      assert b in c;
    }
  }
}
