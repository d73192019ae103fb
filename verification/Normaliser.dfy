/**
 The payload parser: decode, normalise every sample's labels, deduplicate every family.
 `Outcome` says what results are possible for an input; the order of the samples in a
 family that lost duplicates is open, so it is a relation.
 */
module Normaliser {
  import opened Wrappers
  import opened Ordering
  import opened Metrics
  import opened Text
  import opened Labels
  import opened Dedup

  datatype ParseError = Malformed | InstanceMismatch

  ghost predicate Accepted(lib: Libraries, target: string, overwrite: bool, f: Family) {
    forall k :: 0 <= k < |f.samples| ==> Prepare(lib, f.name, target, overwrite, f.samples[k].labels).Some?
  }

  ghost function Prepared(lib: Libraries, target: string, overwrite: bool, f: Family): (r: seq<Sample>)
    requires Accepted(lib, target, overwrite, f)
  {
    seq(|f.samples|, k requires 0 <= k < |f.samples| =>
      Sample(Prepare(lib, f.name, target, overwrite, f.samples[k].labels).value, f.samples[k].value))
  }

  /** The possible results for one decoded family. */
  ghost predicate Normalised(lib: Libraries, target: string, overwrite: bool, f: Family, out: Family) {
    && Accepted(lib, target, overwrite, f)
    && out.name == f.name && out.help == f.help && out.kind == f.kind
    && IsDedup(lib, Prepared(lib, target, overwrite, f), out.samples)
  }

  /** Index of the last family with this name, or -1: later families replace earlier ones. */
  function LastNamed(fs: seq<Family>, name: string): (i: int)
    ensures -1 <= i < |fs|
    ensures i >= 0 ==> fs[i].name == name
    ensures forall k :: i < k < |fs| ==> fs[k].name != name
  {
    if fs == [] then -1
    else if fs[|fs| - 1].name == name then |fs| - 1
    else LastNamed(fs[..|fs| - 1], name)
  }

  ghost predicate AllNormalised(lib: Libraries, target: string, overwrite: bool, fs: seq<Family>, out: Families) {
    && (forall i :: 0 <= i < |fs| ==> Accepted(lib, target, overwrite, fs[i]))
    && (forall n :: n in out <==> LastNamed(fs, n) >= 0)
    && (forall n :: n in out ==> Normalised(lib, target, overwrite, fs[LastNamed(fs, n)], out[n]))
  }

  /** The possible results for a decoded payload. */
  ghost predicate OutcomeOf(lib: Libraries, d: Decoded, target: string, overwrite: bool, r: Result<Families, ParseError>) {
    if exists i :: 0 <= i < |d.families| && !Accepted(lib, target, overwrite, d.families[i]) then r == Err(InstanceMismatch)
    else if d.failed then r == Err(Malformed)
    else r.Ok? && AllNormalised(lib, target, overwrite, d.families, r.value)
  }

  ghost predicate Outcome(lib: Libraries, input: Bytes, target: string, overwrite: bool, r: Result<Families, ParseError>) {
    OutcomeOf(lib, lib.Decode(input), target, overwrite, r)
  }

  /** Families as the live store holds them: filed under their names, normal labels, no series twice. */
  ghost predicate WellFormed(out: Families, target: string) {
    forall n :: n in out ==> WellFormedFamily(out[n], n, target)
  }

  ghost predicate WellFormedFamily(f: Family, name: string, target: string) {
    && f.name == name
    && (forall k :: 0 <= k < |f.samples| ==> Normal(f.samples[k].labels, target))
    && LabelsDistinct(f.samples)
  }

  lemma NormalisedIsWellFormed(lib: Libraries, target: string, overwrite: bool, f: Family, out: Family)
    requires forall k :: 0 <= k < |f.samples| ==> DistinctNames(f.samples[k].labels)
    requires Normalised(lib, target, overwrite, f, out)
    ensures WellFormedFamily(out, f.name, target)
  {
    var s := Prepared(lib, target, overwrite, f);
    DedupSeparatesLabels(lib, s, out.samples);
    forall k | 0 <= k < |out.samples|
      ensures Normal(out.samples[k].labels, target)
    {
      var i := Survivor(lib, s, out.samples, k);
      PrepareIsIdempotent(lib, f.name, target, overwrite, f.samples[i].labels, overwrite);
    }
  }

  /** Whatever an accepted payload contains, and whatever the hash does, its families are well formed for the target. */
  lemma OutcomeIsWellFormed(lib: Libraries, input: Bytes, target: string, overwrite: bool, out: Families)
    requires DecodesDistinctNames(lib) && Outcome(lib, input, target, overwrite, Ok(out))
    ensures WellFormed(out, target)
  {
    var fs := lib.Decode(input).families;
    forall n | n in out
      ensures WellFormedFamily(out[n], n, target)
    {
      var i := LastNamed(fs, n);
      NormalisedIsWellFormed(lib, target, overwrite, fs[i], out[n]);
    }
  }

  // ---- Normalising twice ----

  /** A family that normalisation leaves alone. */
  ghost predicate Settled(lib: Libraries, target: string, f: Family) {
    && KeysDistinct(lib, f.samples)
    && LabelsDistinct(f.samples)
    && forall again, k :: 0 <= k < |f.samples| ==>
         Prepare(lib, f.name, target, again, f.samples[k].labels) == Some(f.samples[k].labels)
  }

  lemma NormalisedIsSettled(lib: Libraries, target: string, overwrite: bool, f: Family, out: Family)
    requires forall k :: 0 <= k < |f.samples| ==> DistinctNames(f.samples[k].labels)
    requires Normalised(lib, target, overwrite, f, out)
    ensures Settled(lib, target, out)
  {
    var s := Prepared(lib, target, overwrite, f);
    DedupSeparatesLabels(lib, s, out.samples);
    forall again, k | 0 <= k < |out.samples|
      ensures Prepare(lib, out.name, target, again, out.samples[k].labels) == Some(out.samples[k].labels)
    {
      var i := Survivor(lib, s, out.samples, k);
      PrepareIsIdempotent(lib, f.name, target, overwrite, f.samples[i].labels, again);
    }
  }

  lemma SettledIsPrepared(lib: Libraries, target: string, again: bool, f: Family)
    requires Settled(lib, target, f)
    ensures Accepted(lib, target, again, f) && Prepared(lib, target, again, f) == f.samples
  {
    forall k | 0 <= k < |f.samples|
      ensures Prepare(lib, f.name, target, again, f.samples[k].labels) == Some(f.samples[k].labels)
    {
    }
    hide Prepare;
    assert Accepted(lib, target, again, f);
    var s := Prepared(lib, target, again, f);
    assert forall k :: 0 <= k < |s| ==> s[k] == f.samples[k];
  }

  lemma SettledStays(lib: Libraries, target: string, again: bool, f: Family, out: Family)
    requires Settled(lib, target, f)
    ensures Accepted(lib, target, again, f)
    ensures Normalised(lib, target, again, f, out) <==> out == f
  {
    SettledIsPrepared(lib, target, again, f);
    NothingToDrop(lib, f.samples, out.samples);
    hide IsDedup, Prepared, Accepted, KeysDistinct, LabelsDistinct;
  }

  /** A listing of the families, each once, under its own name. */
  ghost predicate Lists(fs: seq<Family>, out: Families) {
    && (forall i :: 0 <= i < |fs| ==> fs[i].name in out && out[fs[i].name] == fs[i])
    && (forall n :: n in out ==> LastNamed(fs, n) >= 0)
  }

  /** Feeding an accepted payload's families back, in either mode, succeeds and returns the same families. */
  lemma NormalisingIsIdempotent(lib: Libraries, input: Bytes, target: string, overwrite: bool, out: Families,
                                fs: seq<Family>, again: bool, r: Result<Families, ParseError>)
    requires DecodesDistinctNames(lib) && Outcome(lib, input, target, overwrite, Ok(out))
    requires Lists(fs, out)
    ensures OutcomeOf(lib, Decoded(fs, false), target, again, r) <==> r == Ok(out)
  {
    var gs := lib.Decode(input).families;
    forall n | n in out
      ensures out[n].name == n && Settled(lib, target, out[n])
    {
      NormalisedIsSettled(lib, target, overwrite, gs[LastNamed(gs, n)], out[n]);
    }
    SettledPayload(lib, target, again, fs, out, r);
  }

  lemma SettledPayload(lib: Libraries, target: string, again: bool, fs: seq<Family>, out: Families, r: Result<Families, ParseError>)
    requires forall n :: n in out ==> out[n].name == n && Settled(lib, target, out[n])
    requires Lists(fs, out)
    ensures OutcomeOf(lib, Decoded(fs, false), target, again, r) <==> r == Ok(out)
  {
    forall i | 0 <= i < |fs|
      ensures Accepted(lib, target, again, fs[i])
    {
      SettledStays(lib, target, again, out[fs[i].name], fs[i]);
    }
    if r.Ok? {
      SettledFamilies(lib, target, again, fs, out, r.value);
    }
    hide AllNormalised, Accepted, Settled;
  }

  lemma SettledFamilies(lib: Libraries, target: string, again: bool, fs: seq<Family>, out: Families, again': Families)
    requires forall n :: n in out ==> out[n].name == n && Settled(lib, target, out[n])
    requires Lists(fs, out)
    requires forall i :: 0 <= i < |fs| ==> Accepted(lib, target, again, fs[i])
    ensures AllNormalised(lib, target, again, fs, again') <==> again' == out
  {
    forall n | n in out
      ensures LastNamed(fs, n) >= 0 && fs[LastNamed(fs, n)] == out[n]
      ensures n in again' ==> (Normalised(lib, target, again, out[n], again'[n]) <==> again'[n] == out[n])
    {
      if n in again' {
        SettledStays(lib, target, again, out[n], again'[n]);
      }
    }
    assert forall n :: LastNamed(fs, n) >= 0 ==> n in out;
    hide Normalised, Accepted, Settled, LastNamed, AllNormalised;
    SameFamilies(lib, target, again, fs, out, again');
  }

  lemma SameFamilies(lib: Libraries, target: string, again: bool, fs: seq<Family>, out: Families, again': Families)
    requires forall i :: 0 <= i < |fs| ==> Accepted(lib, target, again, fs[i])
    requires forall n :: n in out <==> LastNamed(fs, n) >= 0
    requires forall n :: n in out ==> fs[LastNamed(fs, n)] == out[n]
    requires forall n :: n in out && n in again' ==> (Normalised(lib, target, again, out[n], again'[n]) <==> again'[n] == out[n])
    ensures AllNormalised(lib, target, again, fs, again') <==> again' == out
  {
    hide Normalised, Accepted, LastNamed;
    if AllNormalised(lib, target, again, fs, again') {
      assert again'.Keys == out.Keys;
      assert again' == out;
    }
  }

  // ---- Whole payloads ----

  ghost predicate DistinctNamesIn(f: Family) {
    forall k :: 0 <= k < |f.samples| ==> DistinctNames(f.samples[k].labels)
  }

  /** Sample `k` of both families: the same value, the same labels in any order. */
  ghost predicate SamplePermuted(f: Family, g: Family, k: nat)
    requires k < |f.samples| && k < |g.samples|
  {
    f.samples[k].value == g.samples[k].value && LabelSet(f.samples[k].labels) == LabelSet(g.samples[k].labels)
  }

  ghost predicate LabelsPermuted(f: Family, g: Family) {
    && f.name == g.name && f.help == g.help && f.kind == g.kind && |f.samples| == |g.samples|
    && DistinctNamesIn(f) && DistinctNamesIn(g)
    && forall k :: 0 <= k < |f.samples| ==> SamplePermuted(f, g, k)
  }

  lemma PermutedAreNormalisedAlike(lib: Libraries, target: string, overwrite: bool, f: Family, g: Family, out: Family)
    requires LabelsPermuted(f, g)
    ensures Accepted(lib, target, overwrite, f) <==> Accepted(lib, target, overwrite, g)
    ensures Normalised(lib, target, overwrite, f, out) <==> Normalised(lib, target, overwrite, g, out)
  {
    forall k | 0 <= k < |f.samples|
      ensures Prepare(lib, f.name, target, overwrite, f.samples[k].labels) == Prepare(lib, g.name, target, overwrite, g.samples[k].labels)
      ensures f.samples[k].value == g.samples[k].value
    {
      assert SamplePermuted(f, g, k);
      LabelOrderDoesNotMatter(lib, f.name, target, overwrite, f.samples[k].labels, g.samples[k].labels);
    }
    hide Prepare, IsDedup;
    if Accepted(lib, target, overwrite, f) {
      assert Prepared(lib, target, overwrite, f) == Prepared(lib, target, overwrite, g);
    }
  }

  /** Two decoded payloads that differ only in the order of the samples' labels have the same possible results. */
  lemma LabelOrderDoesNotMatterInPayloads(lib: Libraries, a: Decoded, b: Decoded, target: string, overwrite: bool,
                                          r: Result<Families, ParseError>)
    requires a.failed == b.failed && |a.families| == |b.families|
    requires forall i :: 0 <= i < |a.families| ==> LabelsPermuted(a.families[i], b.families[i])
    ensures OutcomeOf(lib, a, target, overwrite, r) <==> OutcomeOf(lib, b, target, overwrite, r)
  {
    var fs, gs := a.families, b.families;
    forall i | 0 <= i < |fs|
      ensures fs[i].name == gs[i].name
      ensures Accepted(lib, target, overwrite, fs[i]) <==> Accepted(lib, target, overwrite, gs[i])
      ensures forall f :: Normalised(lib, target, overwrite, fs[i], f) <==> Normalised(lib, target, overwrite, gs[i], f)
    {
      forall f
        ensures Accepted(lib, target, overwrite, fs[i]) <==> Accepted(lib, target, overwrite, gs[i])
        ensures Normalised(lib, target, overwrite, fs[i], f) <==> Normalised(lib, target, overwrite, gs[i], f)
      {
        PermutedAreNormalisedAlike(lib, target, overwrite, fs[i], gs[i], f);
      }
      PermutedAreNormalisedAlike(lib, target, overwrite, fs[i], gs[i], fs[i]);
    }
    forall n
      ensures LastNamed(fs, n) == LastNamed(gs, n)
    {
      SameNamesSameLast(fs, gs, n);
    }
    hide Accepted, Normalised, LabelsPermuted, LastNamed;
    if r.Ok? {
      SameAllNormalised(lib, target, overwrite, fs, gs, r.value);
    }
    hide AllNormalised;
  }

  lemma SameAllNormalised(lib: Libraries, target: string, overwrite: bool, fs: seq<Family>, gs: seq<Family>, out: Families)
    requires |fs| == |gs|
    requires forall i :: 0 <= i < |fs| ==> (Accepted(lib, target, overwrite, fs[i]) <==> Accepted(lib, target, overwrite, gs[i]))
    requires forall i, f :: 0 <= i < |fs| ==> (Normalised(lib, target, overwrite, fs[i], f) <==> Normalised(lib, target, overwrite, gs[i], f))
    requires forall n :: LastNamed(fs, n) == LastNamed(gs, n)
    ensures AllNormalised(lib, target, overwrite, fs, out) <==> AllNormalised(lib, target, overwrite, gs, out)
  {
    hide Accepted, Normalised;
  }

  lemma {:induction false} SameNamesSameLast(fs: seq<Family>, gs: seq<Family>, n: string)
    requires |fs| == |gs| && forall i :: 0 <= i < |fs| ==> fs[i].name == gs[i].name
    ensures LastNamed(fs, n) == LastNamed(gs, n)
  {
    if fs != [] {
      SameNamesSameLast(fs[..|fs| - 1], gs[..|gs| - 1], n);
    }
  }

  // ---- Which payloads are accepted ----

  /** Some decoded sample names another instance. */
  ghost predicate NamesAnother(d: Decoded, target: string) {
    exists i, k :: 0 <= i < |d.families| && 0 <= k < |d.families[i].samples| &&
                   Mismatched(LabelSet(d.families[i].samples[k].labels), target)
  }

  lemma AcceptedUnlessMismatched(lib: Libraries, target: string, overwrite: bool, f: Family)
    requires DistinctNamesIn(f)
    ensures Accepted(lib, target, overwrite, f)
            <==> overwrite || forall k :: 0 <= k < |f.samples| ==> !Mismatched(LabelSet(f.samples[k].labels), target)
  {
    forall k | 0 <= k < |f.samples|
      ensures Prepare(lib, f.name, target, overwrite, f.samples[k].labels).None?
              <==> !overwrite && Mismatched(LabelSet(f.samples[k].labels), target)
    {
      PrepareIsCanonical(lib, f.name, target, overwrite, f.samples[k].labels);
    }
    hide Prepare, Mismatched;
  }

  ghost function NormalForm(lib: Libraries, target: string, overwrite: bool, f: Family): Family
    requires Accepted(lib, target, overwrite, f)
  {
    f.(samples := KeepLast(lib, Prepared(lib, target, overwrite, f)))
  }

  lemma NormalFormExists(lib: Libraries, target: string, overwrite: bool, f: Family)
    requires Accepted(lib, target, overwrite, f)
    ensures Normalised(lib, target, overwrite, f, NormalForm(lib, target, overwrite, f))
  {
    KeepLastIsDedup(lib, Prepared(lib, target, overwrite, f));
    hide Accepted, IsDedup, Prepared;
  }

  lemma {:induction false} AllNormalisedExists(lib: Libraries, target: string, overwrite: bool, fs: seq<Family>) returns (out: Families)
    requires forall i :: 0 <= i < |fs| ==> Accepted(lib, target, overwrite, fs[i])
    ensures AllNormalised(lib, target, overwrite, fs, out)
  {
    if fs == [] {
      out := map[];
    } else {
      var n := |fs| - 1;
      var before := AllNormalisedExists(lib, target, overwrite, fs[..n]);
      NormalFormExists(lib, target, overwrite, fs[n]);
      OneMoreFamily(lib, target, overwrite, fs, n, before, NormalForm(lib, target, overwrite, fs[n]));
      assert fs[..n + 1] == fs;
      out := before[fs[n].name := NormalForm(lib, target, overwrite, fs[n])];
    }
  }

  /**
   A payload is refused for the instance exactly when overwriting is off and some decoded
   sample names another one; otherwise it is refused as malformed exactly when decoding
   ended in an error; otherwise, and only then, it is accepted.
   */
  lemma AcceptedExactlyWhen(lib: Libraries, input: Bytes, target: string, overwrite: bool)
    requires DecodesDistinctNames(lib)
    ensures var d := lib.Decode(input);
      && (Outcome(lib, input, target, overwrite, Err(InstanceMismatch)) <==> !overwrite && NamesAnother(d, target))
      && (Outcome(lib, input, target, overwrite, Err(Malformed)) <==> d.failed && (overwrite || !NamesAnother(d, target)))
      && ((exists out :: Outcome(lib, input, target, overwrite, Ok(out))) <==> !d.failed && (overwrite || !NamesAnother(d, target)))
  {
    var d := lib.Decode(input);
    forall i | 0 <= i < |d.families|
      ensures Accepted(lib, target, overwrite, d.families[i])
              <==> overwrite || forall k :: 0 <= k < |d.families[i].samples| ==>
                     !Mismatched(LabelSet(d.families[i].samples[k].labels), target)
    {
      assert DistinctNamesIn(d.families[i]);
      AcceptedUnlessMismatched(lib, target, overwrite, d.families[i]);
    }
    hide Accepted, Mismatched, AllNormalised;
    if !d.failed && (overwrite || !NamesAnother(d, target)) {
      var out := AllNormalisedExists(lib, target, overwrite, d.families);
      assert Outcome(lib, input, target, overwrite, Ok(out));
    }
  }

  /** No accepted payload broke off in an error. */
  lemma AcceptedIsWhole(lib: Libraries, input: Bytes, target: string, overwrite: bool, out: Families)
    requires Outcome(lib, input, target, overwrite, Ok(out))
    ensures !lib.Decode(input).failed
  {
    hide Accepted, AllNormalised;
  }

  /** The label set with which sample `k` of a decoded family ends up. */
  ghost function FinalSet(lib: Libraries, target: string, f: Family, k: nat): set<Label>
    requires k < |f.samples|
  {
    CanonicalSet(lib, f.name, target, LabelSet(f.samples[k].labels))
  }

  ghost predicate LastOfItsSet(lib: Libraries, target: string, f: Family, k: nat)
    requires k < |f.samples|
  {
    forall j :: k < j < |f.samples| ==> FinalSet(lib, target, f, j) != FinalSet(lib, target, f, k)
  }

  /** The sample as it should arrive: its value, and its final label set in sorted order. */
  ghost predicate ArrivesAs(lib: Libraries, target: string, f: Family, k: nat, x: Sample)
    requires k < |f.samples|
  {
    x.value == f.samples[k].value && Increasing(x.labels, LabelLess) && LabelSet(x.labels) == FinalSet(lib, target, f, k)
  }

  /** The payload's meaning, without hashes and lists: one sample for every final label set, the last that was sent. */
  ghost predicate IsLastPerFinalSet(lib: Libraries, target: string, f: Family, out: seq<Sample>) {
    && LabelsDistinct(out)
    && forall x :: x in out <==> exists k :: 0 <= k < |f.samples| && LastOfItsSet(lib, target, f, k) && ArrivesAs(lib, target, f, k, x)
  }

  /** The hash keeps apart the final label lists of a family. */
  ghost predicate HashSeparates(lib: Libraries, target: string, overwrite: bool, f: Family) {
    Accepted(lib, target, overwrite, f) && CollisionFree(lib, Prepared(lib, target, overwrite, f))
  }

  lemma PreparedArrives(lib: Libraries, target: string, overwrite: bool, f: Family, k: nat, x: Sample)
    requires DistinctNamesIn(f) && Accepted(lib, target, overwrite, f) && k < |f.samples|
    ensures ArrivesAs(lib, target, f, k, x) <==> x == Prepared(lib, target, overwrite, f)[k]
  {
    PrepareIsCanonical(lib, f.name, target, overwrite, f.samples[k].labels);
    var p := Prepared(lib, target, overwrite, f)[k];
    if ArrivesAs(lib, target, f, k, x) {
      SortedLabelsAreCanonical(x.labels, p.labels);
    }
  }

  lemma SameListSameSet(lib: Libraries, target: string, overwrite: bool, f: Family, j: nat, k: nat)
    requires DistinctNamesIn(f) && Accepted(lib, target, overwrite, f) && j < |f.samples| && k < |f.samples|
    ensures var s := Prepared(lib, target, overwrite, f);
      s[j].labels == s[k].labels <==> FinalSet(lib, target, f, j) == FinalSet(lib, target, f, k)
  {
    var s := Prepared(lib, target, overwrite, f);
    PreparedArrives(lib, target, overwrite, f, j, s[j]);
    PreparedArrives(lib, target, overwrite, f, k, s[k]);
    if FinalSet(lib, target, f, j) == FinalSet(lib, target, f, k) {
      SortedLabelsAreCanonical(s[j].labels, s[k].labels);
    }
  }

  /** The last sample per final label set, told on decoded samples and on prepared ones. */
  lemma LastPerFinalSetIsLastPerLabels(lib: Libraries, target: string, overwrite: bool, f: Family, x: Sample)
    requires DistinctNamesIn(f) && Accepted(lib, target, overwrite, f)
    ensures x in LastPerLabels(Prepared(lib, target, overwrite, f))
            <==> exists k :: 0 <= k < |f.samples| && LastOfItsSet(lib, target, f, k) && ArrivesAs(lib, target, f, k, x)
  {
    var s := Prepared(lib, target, overwrite, f);
    assert |s| == |f.samples|;
    LastPerLabelsMembers(s);
    forall k | 0 <= k < |s|
      ensures LastOfItsSet(lib, target, f, k) <==> !Overwritten(s, k)
      ensures ArrivesAs(lib, target, f, k, x) <==> x == s[k]
    {
      PreparedArrives(lib, target, overwrite, f, k, x);
      forall j | 0 <= j < |s|
        ensures s[j].labels == s[k].labels <==> FinalSet(lib, target, f, j) == FinalSet(lib, target, f, k)
      {
        SameListSameSet(lib, target, overwrite, f, j, k);
      }
      hide FinalSet;
    }
    hide LastPerLabels, Overwritten, LastOfItsSet, ArrivesAs, Prepared, Accepted;
  }

  lemma NormalisedIsLastPerFinalSet(lib: Libraries, target: string, overwrite: bool, f: Family, out: Family)
    requires DistinctNamesIn(f) && Normalised(lib, target, overwrite, f, out)
    ensures IsLastPerFinalSet(lib, target, f, out.samples) <==> HashSeparates(lib, target, overwrite, f)
  {
    var s := Prepared(lib, target, overwrite, f);
    LastWriteWins(lib, s, out.samples);
    LastPerLabelsMembers(s);
    DedupSeparatesLabels(lib, s, out.samples);
    forall x
      ensures x in LastPerLabels(s)
              <==> exists k :: 0 <= k < |f.samples| && LastOfItsSet(lib, target, f, k) && ArrivesAs(lib, target, f, k, x)
    {
      LastPerFinalSetIsLastPerLabels(lib, target, overwrite, f, x);
    }
    SameMembers(out.samples, LastPerLabels(s));
    hide LastPerLabels, LastOfItsSet, ArrivesAs, CollisionFree, IsDedup, LabelsDistinct, Prepared, Accepted;
  }

  lemma SameMembers(a: seq<Sample>, b: seq<Sample>)
    requires LabelsDistinct(a) && LabelsDistinct(b)
    ensures multiset(a) == multiset(b) <==> forall x :: x in a <==> x in b
  {
    DistinctLabelsNoDuplicates(a);
    DistinctLabelsNoDuplicates(b);
    if forall x :: x in a <==> x in b {
      SameElementsSameMultiset(a, b);
    }
    if multiset(a) == multiset(b) {
      forall x
        ensures x in a <==> x in b
      {
        assert x in a <==> x in multiset(a);
        assert x in b <==> x in multiset(b);
      }
    }
  }

  /**
   Every family of an accepted payload is the last sample per final label set, of the
   last family sent under its name, exactly when the hash keeps that family's lists apart.
   */
  lemma PayloadIsLastWriteWins(lib: Libraries, input: Bytes, target: string, overwrite: bool, out: Families, n: string)
    requires DecodesDistinctNames(lib) && Outcome(lib, input, target, overwrite, Ok(out))
    ensures var fs := lib.Decode(input).families;
      && (n in out <==> LastNamed(fs, n) >= 0)
      && (n in out ==>
            var f := fs[LastNamed(fs, n)];
            && out[n].name == f.name && out[n].help == f.help && out[n].kind == f.kind
            && (IsLastPerFinalSet(lib, target, f, out[n].samples) <==> HashSeparates(lib, target, overwrite, f)))
  {
    var fs := lib.Decode(input).families;
    assert AllNormalised(lib, target, overwrite, fs, out);
    if n in out {
      var f := fs[LastNamed(fs, n)];
      assert DistinctNamesIn(f) && Normalised(lib, target, overwrite, f, out[n]);
      assert out[n].name == f.name && out[n].help == f.help && out[n].kind == f.kind;
      hide Normalised, IsLastPerFinalSet, HashSeparates;
      NormalisedIsLastPerFinalSet(lib, target, overwrite, f, out[n]);
    }
  }

  // ---- The parser ----

  /** Labels of one metric object, in place. */
  method NormaliseMetric(lib: Libraries, family: string, target: string, overwrite: bool, metric: Metric) returns (ok: bool)
    modifies metric
    ensures ok <==> Prepare(lib, family, target, overwrite, old(metric.labels)).Some?
    ensures ok ==> metric.labels == Prepare(lib, family, target, overwrite, old(metric.labels)).value
  {
    if family == PLAYER_LOADED_FAMILY {
      EnrichMetric(lib, metric);
    }
    ok := SetInstanceLabel(target, overwrite, metric);
    if ok {
      metric.labels := Sort(metric.labels, LabelLess);
    }
  }

  /** Finds, checks, overwrites or appends the instance label. */
  method SetInstanceLabel(target: string, overwrite: bool, metric: Metric) returns (ok: bool)
    modifies metric
    ensures ok <==> SetInstance(old(metric.labels), target, overwrite).Some?
    ensures ok ==> metric.labels == SetInstance(old(metric.labels), target, overwrite).value
  {
    var labels := metric.labels;
    var i := 0;
    while i < |labels| && labels[i].name != INSTANCE_ID
      invariant 0 <= i <= |labels| && metric.labels == labels
      invariant forall k :: 0 <= k < i ==> labels[k].name != INSTANCE_ID
    {
      i := i + 1;
    }
    assert i == IndexOf(labels, INSTANCE_ID);
    if i < |labels| {
      if labels[i].value != target {
        if overwrite {
          metric.labels := labels[i := Label(INSTANCE_ID, target)];
        } else {
          return false;
        }
      }
    } else {
      metric.labels := labels + [Label(INSTANCE_ID, target)];
    }
    return true;
  }

  method EnrichMetric(lib: Libraries, metric: Metric)
    modifies metric
    ensures metric.labels == Enrich(lib, old(metric.labels))
  {
    var steamId, hasBuid := "", false;
    var labels := metric.labels;
    for i := 0 to |labels|
      invariant steamId == ValueOf(labels[..i], STEAM_ID)
      invariant hasBuid <==> HasName(labels[..i], BUID)
      invariant metric.labels == labels
    {
      assert labels[..i + 1][..i] == labels[..i];
      HasNameInit(labels[..i + 1], BUID);
      if labels[i].name == STEAM_ID {
        steamId := labels[i].value;
      } else if labels[i].name == BUID {
        hasBuid := true;
      }
    }
    assert labels[..|labels|] == labels;
    assert steamId == ValueOf(labels, STEAM_ID) && (hasBuid <==> HasName(labels, BUID));
    if steamId != "" && !hasBuid {
      var sid := lib.ParseInt(steamId);
      if sid.Some? {
        metric.labels := metric.labels + [Label(BUID, lib.BattlEyeString(sid.value))];
      }
    }
  }

  /** The hash of a metric's labels, fed to the hash state piece by piece. */
  method GetLabelHash(lib: Libraries, labels: seq<Label>) returns (h: int)
    ensures h == lib.Hash(Encode(labels))
  {
    var written := "";
    for i := 0 to |labels|
      invariant written + Encode(labels[i..]) == Encode(labels)
    {
      assert labels[i..][1..] == labels[i + 1..];
      var more := labels[i].name + [NUL] + labels[i].value + [NUL];
      assert written + (more + Encode(labels[i + 1..])) == written + more + Encode(labels[i + 1..]);
      written := written + more;
    }
    assert written + "" == written;
    h := lib.Hash(written);
  }

  /** The pass that files every metric under its hash, later ones overwriting earlier ones. */
  method FileByHash(lib: Libraries, metrics: seq<Metric>) returns (unique: map<int, Metric>, ghost at: map<int, nat>)
    ensures FilesLast(lib, ViewAll(metrics), at)
    ensures unique.Keys == at.Keys
    ensures forall h :: h in at ==> at[h] < |metrics| && unique[h] == metrics[at[h]]
  {
    ghost var s := ViewAll(metrics);
    unique, at := map[], map[];
    for i := 0 to |metrics|
      invariant FilesLast(lib, s[..i], at)
      invariant unique.Keys == at.Keys
      invariant forall h :: h in at ==> at[h] < i && unique[h] == metrics[at[h]]
    {
      var hash := GetLabelHash(lib, metrics[i].labels);
      FilesOneMore(lib, s, i, at);
      hide FilesLast;
      unique := unique[hash := metrics[i]];
      at := at[hash := i];
    }
    assert s[..|metrics|] == s;
  }

  /** The values of the map, in its iteration order. */
  method ListSurvivors(unique: map<int, Metric>) returns (out: seq<Metric>, ghost order: seq<int>)
    ensures NoDuplicates(order) && |out| == |order| == |unique|
    ensures forall h :: h in order <==> h in unique
    ensures forall k :: 0 <= k < |order| ==> order[k] in unique && out[k] == unique[order[k]]
  {
    var keys := RangeOrder(unique.Keys);
    order, out := keys, [];
    for k := 0 to |keys|
      invariant |out| == k
      invariant forall j :: 0 <= j < |keys| ==> keys[j] in unique
      invariant forall j :: 0 <= j < k ==> out[j] == unique[keys[j]]
    {
      out := out + [unique[keys[k]]];
    }
  }

  /**
   Keeps the last metric object per hash. If every hash was new the given list is
   returned as it is; otherwise the survivors come in the map's iteration order.
   */
  method DedupMetrics(lib: Libraries, metrics: seq<Metric>) returns (out: seq<Metric>)
    ensures IsDedup(lib, ViewAll(metrics), ViewAll(out))
    ensures forall m :: m in out ==> m in metrics
  {
    ghost var s := ViewAll(metrics);
    var unique, at := FileByHash(lib, metrics);
    assert |unique| == |unique.Keys| == |at.Keys| == |at|;
    if |unique| == |metrics| {
      FullFileIsDistinct(lib, s, at);
      out := metrics;
    } else {
      ghost var order;
      out, order := ListSurvivors(unique);
      forall k | 0 <= k < |order|
        ensures order[k] in at && at[order[k]] < |s| && ViewAll(out)[k] == s[at[order[k]]]
        ensures out[k] in metrics
      {
        var h := order[k];
        assert h in unique;
        assert out[k] == metrics[at[h]];
      }
      CollectedIsDedup(lib, s, at, order, ViewAll(out));
    }
  }

  /** Labels, then duplicates, of one family object, in place. */
  method NormaliseFamily(lib: Libraries, target: string, overwrite: bool, mf: MetricFamily) returns (ok: bool)
    requires NoDuplicates(mf.metric)
    modifies mf, mf.metric
    ensures ok <==> Accepted(lib, target, overwrite, old(mf.View()))
    ensures ok ==> Normalised(lib, target, overwrite, old(mf.View()), mf.View())
    ensures forall m :: m in mf.metric ==> m in old(mf.metric)
  {
    ghost var f := mf.View();
    var metrics := mf.metric;
    for i := 0 to |metrics|
      invariant mf.metric == metrics
      invariant forall k :: 0 <= k < i ==> Prepare(lib, f.name, target, overwrite, f.samples[k].labels) == Some(metrics[k].labels)
      invariant forall k :: i <= k < |metrics| ==> metrics[k].labels == f.samples[k].labels
    {
      forall k | 0 <= k < |metrics| && k != i
        ensures metrics[k] != metrics[i]
      {
        assert k < i ==> Differ(metrics, k, i);
        assert i < k ==> Differ(metrics, i, k);
      }
      hide Prepare;
      var accepted := NormaliseMetric(lib, mf.name, target, overwrite, metrics[i]);
      if !accepted {
        return false;
      }
    }
    hide Prepare;
    assert Accepted(lib, target, overwrite, f);
    assert ViewAll(metrics) == Prepared(lib, target, overwrite, f);
    hide IsDedup;
    mf.metric := DedupMetrics(lib, metrics);
    return true;
  }

  /** The objects that the decoder fills for one family. */
  method Materialise(f: Family) returns (mf: MetricFamily)
    ensures mf.View() == f
    ensures NoDuplicates(mf.metric)
    ensures fresh(mf) && forall k :: 0 <= k < |mf.metric| ==> fresh(mf.metric[k])
  {
    var metrics: seq<Metric> := [];
    for i := 0 to |f.samples|
      invariant |metrics| == i && NoDuplicates(metrics)
      invariant forall k :: 0 <= k < i ==> fresh(metrics[k]) && metrics[k].View() == f.samples[k]
    {
      var m := new Metric(f.samples[i].labels, f.samples[i].value);
      NoDuplicatesSnoc(metrics, m);
      metrics := metrics + [m];
    }
    mf := new MetricFamily(f.name, f.help, f.kind, metrics);
    assert mf.View().samples == f.samples;
  }

  /** One turn of the decode loop. */
  method ParseFamily(lib: Libraries, target: string, overwrite: bool, f: Family) returns (mf: MetricFamily, ok: bool)
    ensures mf.name == f.name && fresh(mf.Repr())
    ensures ok <==> Accepted(lib, target, overwrite, f)
    ensures ok ==> Normalised(lib, target, overwrite, f, mf.View())
  {
    mf := Materialise(f);
    hide Accepted, Normalised;
    ok := NormaliseFamily(lib, target, overwrite, mf);
  }

  ghost function ViewOfResult(r: Result<map<string, MetricFamily>, ParseError>): Result<Families, ParseError>
    reads if r.Ok? then r.value.Values else {}, if r.Ok? then ReprOf(r.value) else {}
  {
    match r
    case Ok(families) => Ok(ViewOf(families))
    case Err(e) => Err(e)
  }

  /** Parses, validates and normalises a payload into fresh family objects. */
  method ParseAndValidate(lib: Libraries, input: Bytes, target: string, overwrite: bool)
    returns (r: Result<map<string, MetricFamily>, ParseError>)
    ensures Outcome(lib, input, target, overwrite, ViewOfResult(r))
    ensures r.Ok? ==> fresh(ReprOf(r.value))
  {
    var decoded := lib.Decode(input);
    hide AllNormalised, Accepted, ViewOf, ReprOf;
    var families, ok := ParseFamilies(lib, decoded.families, target, overwrite);
    if !ok {
      return Err(InstanceMismatch);
    }
    if decoded.failed {
      return Err(Malformed);
    }
    return Ok(families);
  }

  /** The decode loop over the families that the decoder delivers. */
  method ParseFamilies(lib: Libraries, fs: seq<Family>, target: string, overwrite: bool)
    returns (families: map<string, MetricFamily>, ok: bool)
    ensures ok <==> forall i :: 0 <= i < |fs| ==> Accepted(lib, target, overwrite, fs[i])
    ensures ok ==> AllNormalised(lib, target, overwrite, fs, ViewOf(families)) && fresh(ReprOf(families))
  {
    families := map[];
    ghost var out: Families, repr: set<object> := map[], {};
    NoFamilies(lib, target, overwrite, fs);
    hide AllNormalised, Normalised, Accepted, LastNamed;
    for i := 0 to |fs|
      invariant fresh(repr) && families.Keys == out.Keys
      invariant forall n :: n in families ==> families[n].Repr() <= repr && families[n].View() == out[n]
      invariant AllNormalised(lib, target, overwrite, fs[..i], out)
    {
      var mf, accepted := ParseFamily(lib, target, overwrite, fs[i]);
      if !accepted {
        return families, false;
      }
      ghost var f := mf.View();
      OneMoreFamily(lib, target, overwrite, fs, i, out, f);
      families := families[mf.name := mf];
      out := out[mf.name := f];
      repr := repr + mf.Repr();
    }
    assert fs[..|fs|] == fs;
    AllAccepted(lib, target, overwrite, fs, out);
    ReprOfListed(families, repr);
    assert ViewOf(families) == out;
    ok := true;
  }

  lemma NoFamilies(lib: Libraries, target: string, overwrite: bool, fs: seq<Family>)
    ensures AllNormalised(lib, target, overwrite, fs[..0], map[])
  {
  }

  lemma AllAccepted(lib: Libraries, target: string, overwrite: bool, fs: seq<Family>, out: Families)
    requires AllNormalised(lib, target, overwrite, fs, out)
    ensures forall i :: 0 <= i < |fs| ==> Accepted(lib, target, overwrite, fs[i])
  {
    hide Accepted;
  }

  lemma ReprOfListed(families: map<string, MetricFamily>, repr: set<object>)
    requires forall n :: n in families ==> families[n].Repr() <= repr
    ensures ReprOf(families) <= repr
  {
    forall o | o in ReprOf(families)
      ensures o in repr
    {
      var n :| n in families && o in families[n].Repr();
    }
  }

  lemma OneMoreFamily(lib: Libraries, target: string, overwrite: bool, fs: seq<Family>, i: nat, out: Families, f: Family)
    requires i < |fs| && AllNormalised(lib, target, overwrite, fs[..i], out)
    requires Normalised(lib, target, overwrite, fs[i], f)
    ensures AllNormalised(lib, target, overwrite, fs[..i + 1], out[f.name := f])
  {
    assert f.name == fs[i].name && Accepted(lib, target, overwrite, fs[i]);
    hide Accepted, Normalised, LastNamed;
    var before, after := fs[..i], fs[..i + 1];
    forall n
      ensures LastNamed(after, n) == if n == f.name then i else LastNamed(before, n)
    {
      LastNamedInit(fs, i, n);
    }
    var out' := out[f.name := f];
    forall k | 0 <= k < |after|
      ensures Accepted(lib, target, overwrite, after[k])
    {
      assert k < i ==> after[k] == before[k];
    }
    forall n | n in out'
      ensures LastNamed(after, n) >= 0 && Normalised(lib, target, overwrite, after[LastNamed(after, n)], out'[n])
    {
      if n != f.name {
        assert after[LastNamed(before, n)] == before[LastNamed(before, n)];
      }
    }
    assert forall n :: n in out' <==> n in out || n == f.name;
  }

  lemma LastNamedInit(fs: seq<Family>, i: nat, n: string)
    requires i < |fs|
    ensures LastNamed(fs[..i + 1], n) == if n == fs[i].name then i else LastNamed(fs[..i], n)
  {
    assert fs[..i + 1][..i] == fs[..i];
  }
}
