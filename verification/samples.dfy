/** Sample and control transfer: every non-empty label of the flattened
    sample map, in row-major order, gets its own tip and one
    `transfer_with_primitives` into its qPCR well. A label that starts with
    `Sample ` and a digit names an elution-plate well; any other label is
    looked up in the reagent table. */
module Samples {
  import opened Results
  import opened Text
  import opened Trace
  import opened Primitives
  import MasterMix

  const SamplePrefix: string := "Sample "

  /** Wells of the elution plate, in `wells()` order. */
  const ElutionWells: nat := 96

  /** `re.match(r'Sample ([0-9]+)', s)` followed by `int(group(1))`: the
      pattern is anchored at the start only, and `[0-9]+` takes the longest
      run of digits, whatever follows it. */
  function SampleNumber(s: string): (r: Option<nat>)
    ensures r.Some? <==> |s| > |SamplePrefix| && s[..|SamplePrefix|] == SamplePrefix && s[|SamplePrefix|] in DecimalDigits
  {
    if |s| > |SamplePrefix| && s[..|SamplePrefix|] == SamplePrefix && s[|SamplePrefix|] in DecimalDigits then
      var rest := s[|SamplePrefix|..];
      Some(ValueOf(rest[..LeadingRun(rest, DecimalDigits)]))
    else None
  }

  /** `Sample `, a run of digits, and anything not starting with a digit is
      read as the number the digits spell; the rest is ignored. */
  lemma SampleNumberReads(digits: string, suffix: string)
    requires |digits| >= 1 && AllIn(digits, DecimalDigits)
    requires suffix == [] || suffix[0] !in DecimalDigits
    ensures SampleNumber(SamplePrefix + digits + suffix) == Some(ValueOf(digits))
  {
    PrefixRecognised(digits, suffix);
    DigitsRecognised(digits, suffix);
  }

  /** The label starts with the prefix and a digit. */
  lemma PrefixRecognised(digits: string, suffix: string)
    requires |digits| >= 1 && AllIn(digits, DecimalDigits)
    ensures var s := SamplePrefix + digits + suffix;
      |s| > |SamplePrefix| && s[..|SamplePrefix|] == SamplePrefix && s[|SamplePrefix|] in DecimalDigits
  {
    var s := SamplePrefix + digits + suffix;
    assert s[..|SamplePrefix|] == SamplePrefix;
    assert s[|SamplePrefix|] == digits[0];
  }

  /** The longest run of digits after the prefix is `digits`. */
  lemma DigitsRecognised(digits: string, suffix: string)
    requires AllIn(digits, DecimalDigits)
    requires suffix == [] || suffix[0] !in DecimalDigits
    ensures var rest := (SamplePrefix + digits + suffix)[|SamplePrefix|..];
      rest[..LeadingRun(rest, DecimalDigits)] == digits
  {
    var rest := (SamplePrefix + digits + suffix)[|SamplePrefix|..];
    assert rest == digits + suffix;
    assert rest[..|digits|] == digits;
    LeadingRunExact(rest, DecimalDigits, |digits|);
  }

  /** Every recognised label has that shape: nothing else is recognised. */
  lemma SampleNumberShape(s: string) returns (digits: string, suffix: string)
    requires SampleNumber(s).Some?
    ensures |digits| >= 1 && AllIn(digits, DecimalDigits)
    ensures suffix == [] || suffix[0] !in DecimalDigits
    ensures s == SamplePrefix + digits + suffix
    ensures SampleNumber(s) == Some(ValueOf(digits))
  {
    var rest := s[|SamplePrefix|..];
    var n := LeadingRun(rest, DecimalDigits);
    digits, suffix := rest[..n], rest[n..];
    assert s == SamplePrefix + digits + suffix;
    assert suffix != [] ==> suffix[0] == rest[n];
  }

  /** Round trip: the label `Sample <n>` written in decimal, followed by
      anything that does not start with a digit, is read back as `n`. */
  lemma SampleNumberOfDecimal(n: nat, suffix: string)
    requires suffix == [] || suffix[0] !in DecimalDigits
    ensures SampleNumber(SamplePrefix + Decimal(n) + suffix) == Some(n)
  {
    SampleNumberReads(Decimal(n), suffix);
  }

  /** Where a sample-map label is taken from. `Sample N` is elution well
      `N - 1`, indexed as a Python list, so `Sample 0` wraps to the last
      well and a number past 96 raises; any other label is a reagent-table
      key, and a missing key raises. */
  function Resolve(name: string, locations: map<string, string>): (r: Result<Location, Failure>)
    ensures r.Ok? ==> !r.value.Plate?
    ensures SampleNumber(name).None? ==>
      && (r.Ok? <==> name in locations)
      && (name in locations ==> r.value == Rack(locations[name]))
      && (name !in locations ==> r.error == UnknownLabel(name))
    ensures SampleNumber(name).Some? ==>
      var n := SampleNumber(name).value;
      && (1 <= n <= ElutionWells ==> r == Ok(Elution(n - 1)))
      && (n == 0 ==> r == Ok(Elution(ElutionWells - 1)))
      && (n > ElutionWells ==> r == Err(ElutionWellOutOfRange(n)))
  {
    match SampleNumber(name)
    case Some(n) =>
      (match PyIndex(n - 1, ElutionWells)
       case Some(w) => Ok(Elution(w))
       case None => Err(ElutionWellOutOfRange(n)))
    case None =>
      if name in locations then Ok(Rack(locations[name])) else Err(UnknownLabel(name))
  }

  /** `Sample 3` is elution well 2, whatever the reagent table says. */
  lemma ResolvesSampleThree(locations: map<string, string>)
    ensures Resolve("Sample 3", locations) == Ok(Elution(2))
  {
    SampleNumberReads("3", "");
    assert SamplePrefix + "3" + "" == "Sample 3";
  }

  /** `Sample 0` indexes the well list at -1: the last elution well. */
  lemma ResolvesSampleZero(locations: map<string, string>)
    ensures Resolve("Sample 0", locations) == Ok(Elution(ElutionWells - 1))
  {
    SampleNumberReads("0", "");
    assert SamplePrefix + "0" + "" == "Sample 0";
  }

  /** `Sample 97` is past the end of the elution plate. */
  lemma RejectsSampleBeyondPlate(locations: map<string, string>)
    ensures Resolve("Sample 97", locations) == Err(ElutionWellOutOfRange(97))
  {
    SampleNumberReads("97", "");
    assert SamplePrefix + "97" + "" == "Sample 97";
  }

  /** The match is not anchored at the end: `Sample 12x` is sample 12. */
  lemma IgnoresTrailingText(locations: map<string, string>)
    ensures Resolve("Sample 12x", locations) == Ok(Elution(11))
  {
    SampleNumberReads("12", "x");
    assert SamplePrefix + "12" + "x" == "Sample 12x";
  }

  /** Non-empty labels. */
  predicate Filled(s: string) {
    s != ""
  }

  /** One sample: a fresh tip and the fixed small-volume sequence. */
  function SampleTransfer(source: Location, well: nat): seq<Command> {
    TransferWithPrimitives(source, Plate(well), DefaultVolume, DefaultMix)
  }

  /** The per-sample loop from well `k` on, skipping empty labels and
      stopping at the first label that does not resolve. */
  function SampleRunFrom(labels: seq<string>, locations: map<string, string>, k: nat): (r: Run)
    requires k <= |labels|
    ensures |r.trace| % 16 == 0
    ensures r.outcome.Aborted? ==>
      exists m :: k <= m < |labels| && labels[m] != "" && Resolve(labels[m], locations) == Err(r.outcome.failure)
    decreases |labels| - k
  {
    if k == |labels| then Run([], Completed)
    else if labels[k] == "" then SampleRunFrom(labels, locations, k + 1)
    else
      match Resolve(labels[k], locations)
      case Err(f) => Run([], Aborted(f))
      case Ok(source) =>
        AndThen(Run(SampleTransfer(source, k), Completed), SampleRunFrom(labels, locations, k + 1))
  }

  function SampleRun(labels: seq<string>, locations: map<string, string>): Run {
    SampleRunFrom(labels, locations, 0)
  }

  /** Reference: transfer the listed wells in the listed order. */
  function VisitRun(labels: seq<string>, locations: map<string, string>, wells: seq<nat>): Run
    requires forall i :: 0 <= i < |wells| ==> wells[i] < |labels|
  {
    if |wells| == 0 then Run([], Completed)
    else
      match Resolve(labels[wells[0]], locations)
      case Err(f) => Run([], Aborted(f))
      case Ok(source) =>
        AndThen(Run(SampleTransfer(source, wells[0]), Completed), VisitRun(labels, locations, wells[1..]))
  }

  /** The loop over all 96 wells does exactly what visiting the non-empty
      wells in row-major order does. */
  lemma {:induction false} SampleRunVisitsFilled(labels: seq<string>, locations: map<string, string>, k: nat)
    requires k <= |labels|
    ensures SampleRunFrom(labels, locations, k) == VisitRun(labels, locations, MasterMix.WhereFrom(labels, Filled, k))
    decreases |labels| - k
  {
    if k < |labels| {
      SampleRunVisitsFilled(labels, locations, k + 1);
      var rest := MasterMix.WhereFrom(labels, Filled, k + 1);
      if labels[k] != "" {
        var wells := MasterMix.WhereFrom(labels, Filled, k);
        assert wells == [k] + rest;
        assert wells[0] == k && wells[1..] == rest;
        match Resolve(labels[k], locations)
        case Err(f) =>
        case Ok(source) =>
          assert SampleRunFrom(labels, locations, k)
            == AndThen(Run(SampleTransfer(source, k), Completed), SampleRunFrom(labels, locations, k + 1));
      }
    }
  }

  /** One step of a visit whose first label resolves. */
  lemma VisitRunStep(labels: seq<string>, locations: map<string, string>, wells: seq<nat>)
    requires forall i :: 0 <= i < |wells| ==> wells[i] < |labels|
    requires |wells| > 0 && Resolve(labels[wells[0]], locations).Ok?
    ensures var r := VisitRun(labels, locations, wells);
      var rest := VisitRun(labels, locations, wells[1..]);
      && r.outcome == rest.outcome
      && r.trace == SampleTransfer(Resolve(labels[wells[0]], locations).value, wells[0]) + rest.trace
  {
  }

  /** A finished visit resolved its first well and finished the rest. */
  lemma VisitRunFirst(labels: seq<string>, locations: map<string, string>, wells: seq<nat>)
    requires forall i :: 0 <= i < |wells| ==> wells[i] < |labels|
    requires |wells| > 0 && VisitRun(labels, locations, wells).outcome.Completed?
    ensures Resolve(labels[wells[0]], locations).Ok?
    ensures VisitRun(labels, locations, wells[1..]).outcome.Completed?
  {
  }

  /** A visit finishes exactly when every listed well's label resolves. */
  lemma {:induction false} VisitRunCompletes(labels: seq<string>, locations: map<string, string>, wells: seq<nat>)
    requires forall i :: 0 <= i < |wells| ==> wells[i] < |labels|
    ensures VisitRun(labels, locations, wells).outcome.Completed?
      <==> forall i :: 0 <= i < |wells| ==> Resolve(labels[wells[i]], locations).Ok?
  {
    if |wells| > 0 {
      var tail := wells[1..];
      VisitRunCompletes(labels, locations, tail);
      assert forall i :: 1 <= i < |wells| ==> wells[i] == tail[i - 1];
    }
  }

  /** Otherwise it stops at the first listed well whose label does not
      resolve, with that label's error, after one full sixteen-command
      block per earlier well, in order, each from that well's source. */
  lemma {:induction false} VisitRunStops(labels: seq<string>, locations: map<string, string>, wells: seq<nat>)
    returns (i: nat)
    requires forall i :: 0 <= i < |wells| ==> wells[i] < |labels|
    requires VisitRun(labels, locations, wells).outcome.Aborted?
    ensures i < |wells|
    ensures Resolve(labels[wells[i]], locations) == Err(VisitRun(labels, locations, wells).outcome.failure)
    ensures |VisitRun(labels, locations, wells).trace| == 16 * i
    ensures forall j :: 0 <= j < i ==>
      && Resolve(labels[wells[j]], locations).Ok?
      && VisitRun(labels, locations, wells).trace[16 * j .. 16 * j + 16]
         == SampleTransfer(Resolve(labels[wells[j]], locations).value, wells[j])
  {
    if Resolve(labels[wells[0]], locations).Ok? {
      var tail := wells[1..];
      VisitRunStep(labels, locations, wells);
      var i' := VisitRunStops(labels, locations, tail);
      i := i' + 1;
      var r := VisitRun(labels, locations, wells);
      var rest := VisitRun(labels, locations, tail);
      var head := SampleTransfer(Resolve(labels[wells[0]], locations).value, wells[0]);
      forall j | 0 <= j < i
        ensures Resolve(labels[wells[j]], locations).Ok?
        ensures r.trace[16 * j .. 16 * j + 16] == SampleTransfer(Resolve(labels[wells[j]], locations).value, wells[j])
      {
        if j == 0 {
          assert r.trace[..16] == head;
        } else {
          assert wells[j] == tail[j - 1];
          SliceAfter(head, rest.trace, 16 * j, 16 * j + 16);
        }
      }
      assert forall j :: 1 <= j < |wells| ==> wells[j] == tail[j - 1];
    } else {
      i := 0;
    }
  }

  /** A finished visit is one sixteen-command block per listed well, in the
      listed order, each taking from that well's label's source. */
  lemma {:induction false} VisitRunBlocks(labels: seq<string>, locations: map<string, string>, wells: seq<nat>)
    requires forall i :: 0 <= i < |wells| ==> wells[i] < |labels|
    requires VisitRun(labels, locations, wells).outcome.Completed?
    ensures |VisitRun(labels, locations, wells).trace| == 16 * |wells|
    ensures forall i :: 0 <= i < |wells| ==>
      && Resolve(labels[wells[i]], locations).Ok?
      && VisitRun(labels, locations, wells).trace[16 * i .. 16 * i + 16]
         == SampleTransfer(Resolve(labels[wells[i]], locations).value, wells[i])
  {
    if |wells| > 0 {
      VisitRunFirst(labels, locations, wells);
      var tail := wells[1..];
      VisitRunStep(labels, locations, wells);
      VisitRunBlocks(labels, locations, tail);
      var r := VisitRun(labels, locations, wells);
      var rest := VisitRun(labels, locations, tail);
      var head := SampleTransfer(Resolve(labels[wells[0]], locations).value, wells[0]);
      forall i | 0 <= i < |wells|
        ensures r.trace[16 * i .. 16 * i + 16] == SampleTransfer(Resolve(labels[wells[i]], locations).value, wells[i])
      {
        if i == 0 {
          assert r.trace[..16] == head;
        } else {
          assert wells[i] == tail[i - 1];
          SliceAfter(head, rest.trace, 16 * i, 16 * i + 16);
        }
      }
    }
  }

  /** One sample transfer picks up one tip and drops it. */
  lemma SampleTransferTip(source: Location, well: nat)
    ensures multiset(SampleTransfer(source, well))[PickUp] == 1
    ensures multiset(SampleTransfer(source, well))[Drop] == 1
  {
    var t := SampleTransfer(source, well);
    PrimitivesUseOneTip(source, Plate(well), DefaultVolume, DefaultMix);
    OccursOnce(t, PickUp, 0);
    OccursOnce(t, Drop, |t| - 1);
  }

  /** A finished visit uses one fresh tip per listed well. */
  lemma {:induction false} VisitRunTips(labels: seq<string>, locations: map<string, string>, wells: seq<nat>)
    requires forall i :: 0 <= i < |wells| ==> wells[i] < |labels|
    requires VisitRun(labels, locations, wells).outcome.Completed?
    ensures multiset(VisitRun(labels, locations, wells).trace)[PickUp] == |wells|
    ensures multiset(VisitRun(labels, locations, wells).trace)[Drop] == |wells|
  {
    if |wells| > 0 {
      VisitRunFirst(labels, locations, wells);
      var source := Resolve(labels[wells[0]], locations).value;
      var rest := VisitRun(labels, locations, wells[1..]);
      VisitRunStep(labels, locations, wells);
      SampleTransferTip(source, wells[0]);
      VisitRunTips(labels, locations, wells[1..]);
      CountAppend(SampleTransfer(source, wells[0]), rest.trace, PickUp);
      CountAppend(SampleTransfer(source, wells[0]), rest.trace, Drop);
    }
  }

  /** A finished visit over distinct wells delivers exactly the default
      volume into each listed qPCR well and nothing into any other. */
  lemma {:induction false} VisitRunVolumes(labels: seq<string>, locations: map<string, string>, wells: seq<nat>, k: nat)
    requires forall i :: 0 <= i < |wells| ==> wells[i] < |labels|
    requires MasterMix.Increasing(wells)
    requires VisitRun(labels, locations, wells).outcome.Completed?
    ensures Taken(VisitRun(labels, locations, wells).trace, Plate(k)) == if k in wells then -DefaultVolume else 0
  {
    if |wells| > 0 {
      VisitRunFirst(labels, locations, wells);
      var source := Resolve(labels[wells[0]], locations).value;
      var head := SampleTransfer(source, wells[0]);
      var rest := VisitRun(labels, locations, wells[1..]);
      VisitRunStep(labels, locations, wells);
      VisitRunVolumes(labels, locations, wells[1..], k);
      TakenAppend(head, rest.trace, Plate(k));
      if k == wells[0] {
        PrimitivesMoveVolume(source, Plate(k), DefaultVolume, DefaultMix, Plate(k + 1));
        assert k !in wells[1..];
      } else {
        PrimitivesMoveVolume(source, Plate(wells[0]), DefaultVolume, DefaultMix, Plate(k));
        assert k in wells <==> k in wells[1..] by {
          assert wells == [wells[0]] + wells[1..];
        }
      }
    }
  }

  /** The non-empty wells of a sample map, in row-major order. */
  function FilledWells(labels: seq<string>): seq<nat> {
    MasterMix.Where(labels, Filled)
  }

  /** The sample phase finishes exactly when every non-empty label
      resolves. */
  lemma SamplePhaseCompletes(labels: seq<string>, locations: map<string, string>)
    ensures SampleRun(labels, locations).outcome.Completed? <==>
      forall k :: 0 <= k < |labels| && labels[k] != "" ==> Resolve(labels[k], locations).Ok?
  {
    var filled := FilledWells(labels);
    SampleRunVisitsFilled(labels, locations, 0);
    VisitRunCompletes(labels, locations, filled);
    if SampleRun(labels, locations).outcome.Completed? {
      forall k | 0 <= k < |labels| && labels[k] != "" ensures Resolve(labels[k], locations).Ok? {
        assert Filled(labels[k]);
        var i :| 0 <= i < |filled| && filled[i] == k;
      }
    }
  }

  /** Otherwise it stops with the error of the first non-empty label, in
      row-major order, that does not resolve. */
  lemma SamplePhaseStops(labels: seq<string>, locations: map<string, string>) returns (k: nat)
    requires SampleRun(labels, locations).outcome.Aborted?
    ensures k < |labels| && labels[k] != ""
    ensures Resolve(labels[k], locations) == Err(SampleRun(labels, locations).outcome.failure)
    ensures forall m :: 0 <= m < k && labels[m] != "" ==> Resolve(labels[m], locations).Ok?
  {
    var filled := FilledWells(labels);
    var r := SampleRun(labels, locations);
    SampleRunVisitsFilled(labels, locations, 0);
    var i := VisitRunStops(labels, locations, filled);
    k := filled[i];
    assert Filled(labels[k]);
    forall m | 0 <= m < k && labels[m] != "" ensures Resolve(labels[m], locations).Ok? {
      assert Filled(labels[m]);
      MasterMix.WhereBefore(labels, Filled, i, m);
      var j :| 0 <= j < i && filled[j] == m;
      assert Resolve(labels[filled[j]], locations).Ok?;
    }
  }

  /** A finished sample phase: one sixteen-command block per non-empty
      well, in row-major order, each from its label's source with a fresh
      tip, delivering the default volume into every non-empty well and
      nothing into an empty one. */
  lemma SamplePhaseTransfers(labels: seq<string>, locations: map<string, string>)
    requires SampleRun(labels, locations).outcome.Completed?
    ensures var r := SampleRun(labels, locations);
      var filled := FilledWells(labels);
      && |r.trace| == 16 * |filled|
      && (forall i :: 0 <= i < |filled| ==>
            && Resolve(labels[filled[i]], locations).Ok?
            && r.trace[16 * i .. 16 * i + 16] == SampleTransfer(Resolve(labels[filled[i]], locations).value, filled[i]))
      && multiset(r.trace)[PickUp] == |filled|
      && forall k :: 0 <= k < |labels| ==>
           Taken(r.trace, Plate(k)) == if labels[k] == "" then 0 else -DefaultVolume
  {
    var filled := FilledWells(labels);
    var r := SampleRun(labels, locations);
    SampleRunVisitsFilled(labels, locations, 0);
    VisitRunBlocks(labels, locations, filled);
    VisitRunTips(labels, locations, filled);
    forall k | 0 <= k < |labels|
      ensures Taken(r.trace, Plate(k)) == if labels[k] == "" then 0 else -DefaultVolume
    {
      VisitRunVolumes(labels, locations, filled, k);
      assert k in filled <==> Filled(labels[k]);
    }
  }
}
