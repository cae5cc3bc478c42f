/** The protocol's own constants (`MASTER_MIX_MAP`, `SAMPLE_MAP` and
    `REAGENT_LOCATIONS`) and what the run does with them: which wells each
    master mix goes to, where each sample is taken from, and that the run
    finishes with 20 units in each of the 30 mapped wells, whatever order
    the master mixes are visited in. Plate rows A-H are numbered 0-7 and
    columns 1-12 are numbered 0-11. */
module StationC {
  import opened Results
  import Text
  import opened Trace
  import opened PlateMap
  import MasterMix
  import Samples
  import Protocol

  /** `REAGENT_LOCATIONS`: tube positions on the reagent rack. `Negative`
      is a synonym for `Water` and shares its tube. */
  const ReagentLocations: map<string, string> := map[
    "Endogenous" := "A1",
    "Reaction" := "A2",
    "Standard" := "A3",
    "Water" := "A4",
    "Negative" := "A4",
    "Randox" := "B1",
    "IEC RNA" := "C1",
    "PCD 8" := "C5",
    "PCD 7" := "C6",
    "PCD 6" := "D1",
    "PCD 5" := "D2",
    "PCD 4" := "D3",
    "PCD 3" := "D4",
    "PCD 2" := "D5",
    "PCD 1" := "D6"
  ]

  /** The cells of `MASTER_MIX_MAP`, one row per line of the plate. */
  const MasterMixGrid: seq<seq<string>> := [
    ["Endogenous", "Endogenous", "Reaction", "Reaction", "", "Endogenous", "", "Randox", "", "", "", "Reaction"],
    ["Endogenous", "Endogenous", "Reaction", "Reaction", "", "Reaction", "", "Randox", "", "", "", "Reaction"],
    ["Endogenous", "Endogenous", "Reaction", "Reaction", "", "", "", "Randox", "", "", "", "Reaction"],
    ["Endogenous", "Endogenous", "Reaction", "Reaction", "", "", "", "Randox", "", "", "", "Reaction"],
    ["", "", "", "", "", "", "", "", "", "", "", "Reaction"],
    ["", "", "", "", "", "", "", "", "", "", "", "Reaction"],
    ["", "", "", "", "", "", "", "", "", "", "", "Reaction"],
    ["", "", "", "", "", "", "", "", "", "", "", "Reaction"]
  ]

  /** The cells of `SAMPLE_MAP`. */
  const SampleGrid: seq<seq<string>> := [
    ["Sample 1", "Sample 1", "Sample 1", "Sample 1", "", "Water", "", "Sample 1", "", "", "", "PCD 1"],
    ["Sample 2", "Sample 2", "Sample 2", "Sample 2", "", "Water", "", "Sample 2", "", "", "", "PCD 2"],
    ["Sample 3", "Sample 3", "Sample 3", "Sample 3", "", "", "", "Sample 3", "", "", "", "PCD 3"],
    ["Sample 4", "Sample 4", "Sample 4", "Sample 4", "", "", "", "Sample 4", "", "", "", "PCD 4"],
    ["", "", "", "", "", "", "", "", "", "", "", "PCD 5"],
    ["", "", "", "", "", "", "", "", "", "", "", "PCD 6"],
    ["", "", "", "", "", "", "", "", "", "", "", "PCD 7"],
    ["", "", "", "", "", "", "", "", "", "", "", "PCD 8"]
  ]

  /** The map texts exactly as the protocol spells them: a leading and a
      trailing newline around tab-separated lines. */
  const MasterMixMap: string := MapText(MasterMixGrid)
  const SampleMap: string := MapText(SampleGrid)

  const Station: Protocol.Config := Protocol.Config(MasterMixMap, SampleMap, ReagentLocations)

  /** The master mixes the map names. */
  const MasterMixes: set<string> := {"Endogenous", "Reaction", "Randox"}

  /** Endogenous: rows A-D of columns 1 and 2, and A6. */
  predicate EndogenousCell(r: nat, c: nat) {
    r < 4 && (c < 2 || (r == 0 && c == 5))
  }

  /** Randox: rows A-D of column 8. */
  predicate RandoxCell(r: nat, c: nat) {
    r < 4 && c == 7
  }

  /** Reaction: rows A-D of columns 3 and 4, B6, and all of column 12. */
  predicate ReactionCell(r: nat, c: nat) {
    (r < 4 && (c == 2 || c == 3)) || (r == 1 && c == 5) || (r < Rows && c == 11)
  }

  /** The wells that receive a master mix and a sample. */
  predicate LoadedCell(r: nat, c: nat) {
    EndogenousCell(r, c) || RandoxCell(r, c) || ReactionCell(r, c)
  }

  /** The same wells as well numbers, in row-major order. */
  const EndogenousWells: seq<nat> := [0, 1, 5, 12, 13, 24, 25, 36, 37]
  const RandoxWells: seq<nat> := [7, 19, 31, 43]
  const ReactionWells: seq<nat> := [2, 3, 11, 14, 15, 17, 23, 26, 27, 35, 38, 39, 47, 59, 71, 83, 95]
  const LoadedWells: seq<nat> := [
    0, 1, 2, 3, 5, 7, 11, 12, 13, 14, 15, 17, 19, 23, 24,
    25, 26, 27, 31, 35, 36, 37, 38, 39, 43, 47, 59, 71, 83, 95]

  /** Each neighbour pair in order. */
  predicate Ascending(s: seq<nat>) {
    forall i :: 0 < i < |s| ==> s[i - 1] < s[i]
  }

  lemma {:induction false} AscendingIncreasing(s: seq<nat>)
    requires Ascending(s)
    ensures MasterMix.Increasing(s)
  {
    if |s| > 1 {
      AscendingIncreasing(s[1..]);
      assert forall j :: 1 <= j < |s| ==> s[j] == s[1..][j - 1];
      assert s[0] < s[1];
    }
  }

  /** Cells of `grid` in rows `lo` to `hi` hold no tab and no line break. */
  predicate CleanRows(grid: seq<seq<string>>, lo: nat, hi: nat) {
    forall i, j :: lo <= i < hi && i < |grid| && 0 <= j < |grid[i]| ==> '\t' !in grid[i][j] && '\n' !in grid[i][j]
  }

  lemma MasterMixTopClean() ensures CleanRows(MasterMixGrid, 0, 4) {}
  lemma MasterMixBottomClean() ensures CleanRows(MasterMixGrid, 4, Rows) {}
  lemma SampleTopClean() ensures CleanRows(SampleGrid, 0, 4) {}
  lemma SampleBottomClean() ensures CleanRows(SampleGrid, 4, Rows) {}

  /** A grid clean in its top and bottom halves is clean. */
  lemma CleanFromHalves(grid: seq<seq<string>>)
    requires |grid| == Rows && CleanRows(grid, 0, 4) && CleanRows(grid, 4, Rows)
    ensures Clean(grid)
  {
  }

  /** Both grids are spelled by `MapText` and read back by `Cells`. */
  lemma MasterMixSpellable()
    ensures Spellable(MasterMixGrid)
  {
    MasterMixTopClean();
    MasterMixBottomClean();
    CleanFromHalves(MasterMixGrid);
    SpellableByEnds(MasterMixGrid);
  }

  lemma SampleSpellable()
    ensures Spellable(SampleGrid)
  {
    SampleTopClean();
    SampleBottomClean();
    CleanFromHalves(SampleGrid);
    SpellableByEnds(SampleGrid);
  }

  /** The map texts read back as the grids. */
  lemma MapsRead()
    ensures Cells(MasterMixMap) == MasterMixGrid && Cells(SampleMap) == SampleGrid
  {
    MasterMixSpellable();
    SampleSpellable();
    MapTextCells(MasterMixGrid);
    MapTextCells(SampleGrid);
  }

  /** The master-mix grid names the three master mixes in the described
      cells and nothing elsewhere. */
  lemma MasterMixLayout()
    ensures forall r, c :: 0 <= r < Rows && 0 <= c < Columns ==>
      && (CellAt(MasterMixGrid, r, c) == "Endogenous" <==> EndogenousCell(r, c))
      && (CellAt(MasterMixGrid, r, c) == "Randox" <==> RandoxCell(r, c))
      && (CellAt(MasterMixGrid, r, c) == "Reaction" <==> ReactionCell(r, c))
      && (CellAt(MasterMixGrid, r, c) == "" <==> !LoadedCell(r, c))
  {
  }

  /** The sample grid fills exactly the wells the master-mix grid fills. */
  lemma SampleFillsLoaded()
    ensures forall r, c :: 0 <= r < Rows && 0 <= c < Columns ==> (CellAt(SampleGrid, r, c) == "" <==> !LoadedCell(r, c))
  {
  }

  /** Samples 1-4 fill rows A-D of columns 1-4 and 8, and each is taken
      from the elution well of its row. */
  lemma SampleSources()
    ensures forall r, c :: 0 <= r < Rows && 0 <= c < Columns && LoadedCell(r, c) && c != 5 && c != 11 ==>
      Samples.Resolve(CellAt(SampleGrid, r, c), ReagentLocations) == Ok(Elution(r))
  {
    forall r, c | 0 <= r < Rows && 0 <= c < Columns && LoadedCell(r, c) && c != 5 && c != 11
      ensures Samples.Resolve(CellAt(SampleGrid, r, c), ReagentLocations) == Ok(Elution(r))
    {
      assert CellAt(SampleGrid, r, c) == Samples.SamplePrefix + [Text.DigitChar(r + 1)];
      Samples.SampleNumberReads([Text.DigitChar(r + 1)], "");
      assert Samples.SamplePrefix + [Text.DigitChar(r + 1)] + "" == CellAt(SampleGrid, r, c);
    }
  }

  /** Labels that are not numbered samples are reagent-table keys, looked
      up exactly as written: `sample 3` is not a sample and not a key. */
  lemma ReagentLabels()
    ensures Samples.Resolve("Water", ReagentLocations) == Ok(Rack("A4"))
    ensures Samples.Resolve("Negative", ReagentLocations) == Ok(Rack("A4"))
    ensures Samples.Resolve("PCD 5", ReagentLocations) == Ok(Rack("D2"))
    ensures Samples.Resolve("sample 3", ReagentLocations) == Err(UnknownLabel("sample 3"))
  {
    assert "Water"[0] != Samples.SamplePrefix[0];
    assert "Negative"[0] != Samples.SamplePrefix[0];
    assert "PCD 5"[0] != Samples.SamplePrefix[0];
    assert "sample 3"[0] != Samples.SamplePrefix[0];
  }

  /** The tube positions of the 24-tube reagent rack: rows A-D, columns
      1-6. */
  const RackPositions: set<string> := {
    "A1", "A2", "A3", "A4", "A5", "A6",
    "B1", "B2", "B3", "B4", "B5", "B6",
    "C1", "C2", "C3", "C4", "C5", "C6",
    "D1", "D2", "D3", "D4", "D5", "D6"
  }

  /** Every position in `REAGENT_LOCATIONS` is a tube of the rack, so the
      rack lookup that follows each table lookup never fails. */
  lemma TablePositionsOnRack()
    ensures forall name :: name in ReagentLocations ==> ReagentLocations[name] in RackPositions
  {
  }

  /** Water (A6, B6) and the positive controls PCD 1-8 (column 12) are
      taken from their tubes on the reagent rack. */
  lemma ControlSources()
    ensures forall r, c :: 0 <= r < Rows && 0 <= c < Columns && LoadedCell(r, c) && (c == 5 || c == 11) ==>
      && CellAt(SampleGrid, r, c) in ReagentLocations
      && Samples.Resolve(CellAt(SampleGrid, r, c), ReagentLocations) == Ok(Rack(ReagentLocations[CellAt(SampleGrid, r, c)]))
  {
  }

  lemma GridsRegular()
    ensures Regular(MasterMixGrid) && Regular(SampleGrid)
  {
  }

  /** The flattened master-mix map: well `k` is cell (k / 12, k % 12). */
  lemma MixLabels() returns (labels: seq<string>)
    ensures Flatten(MasterMixMap) == Ok(labels) && |labels| == Wells
    ensures forall k :: 0 <= k < Wells ==> labels[k] == CellAt(MasterMixGrid, k / Columns, k % Columns)
  {
    GridsRegular();
    MapsRead();
    labels := RegularMapLabels(MasterMixMap, MasterMixGrid);
  }

  /** The flattened sample map: well `k` is cell (k / 12, k % 12). */
  lemma SampleLabels() returns (labels: seq<string>)
    ensures Flatten(SampleMap) == Ok(labels) && |labels| == Wells
    ensures forall k :: 0 <= k < Wells ==> labels[k] == CellAt(SampleGrid, k / Columns, k % Columns)
  {
    GridsRegular();
    MapsRead();
    labels := RegularMapLabels(SampleMap, SampleGrid);
  }

  /** Each well list holds exactly the wells of its description. */
  lemma WellLists()
    ensures forall x: nat :: x in EndogenousWells <==> x < Wells && EndogenousCell(x / Columns, x % Columns)
    ensures forall x: nat :: x in RandoxWells <==> x < Wells && RandoxCell(x / Columns, x % Columns)
    ensures forall x: nat :: x in ReactionWells <==> x < Wells && ReactionCell(x / Columns, x % Columns)
    ensures Ascending(EndogenousWells) && Ascending(RandoxWells) && Ascending(ReactionWells)
  {
  }

  /** The loaded wells are the three master-mix groups together. */
  lemma LoadedUnion()
    ensures forall x: nat :: x in LoadedWells <==> x in EndogenousWells || x in RandoxWells || x in ReactionWells
    ensures Ascending(LoadedWells)
  {
  }

  lemma LoadedList()
    ensures forall x: nat :: x in LoadedWells <==> x < Wells && LoadedCell(x / Columns, x % Columns)
    ensures Ascending(LoadedWells)
  {
    WellLists();
    LoadedUnion();
  }

  /** `labels` is the flattened master-mix map. */
  predicate IsMixLabels(labels: seq<string>) {
    |labels| == Wells && forall k :: 0 <= k < Wells ==> labels[k] == CellAt(MasterMixGrid, k / Columns, k % Columns)
  }

  /** One master mix's group is its well list. */
  lemma EndogenousGroup(labels: seq<string>)
    requires IsMixLabels(labels)
    ensures MasterMix.WellsFor(labels, "Endogenous") == EndogenousWells
  {
    MasterMixLayout();
    WellLists();
    AscendingIncreasing(EndogenousWells);
    MasterMix.WhereExactly(labels, s => s == "Endogenous", EndogenousWells);
  }

  lemma RandoxGroup(labels: seq<string>)
    requires IsMixLabels(labels)
    ensures MasterMix.WellsFor(labels, "Randox") == RandoxWells
  {
    MasterMixLayout();
    WellLists();
    AscendingIncreasing(RandoxWells);
    MasterMix.WhereExactly(labels, s => s == "Randox", RandoxWells);
  }

  lemma ReactionGroup(labels: seq<string>)
    requires IsMixLabels(labels)
    ensures MasterMix.WellsFor(labels, "Reaction") == ReactionWells
  {
    MasterMixLayout();
    WellLists();
    AscendingIncreasing(ReactionWells);
    MasterMix.WhereExactly(labels, s => s == "Reaction", ReactionWells);
  }

  /** `master_mix_wells` for the protocol's map: three master mixes, with
      Endogenous in 9 wells, Randox in 4 and Reaction in 17. */
  lemma MasterMixGroups(labels: seq<string>)
    requires IsMixLabels(labels)
    ensures MasterMix.LabelSet(labels) == MasterMixes
    ensures MasterMix.Groups(labels)
      == map["Endogenous" := EndogenousWells, "Randox" := RandoxWells, "Reaction" := ReactionWells]
  {
    MixLabelSet(labels);
    EndogenousGroup(labels);
    RandoxGroup(labels);
    ReactionGroup(labels);
    ThreeEntries(MasterMix.Groups(labels), "Endogenous", "Randox", "Reaction");
  }

  /** A map with three given keys is the display of its three entries. */
  lemma ThreeEntries<V>(m: map<string, V>, a: string, b: string, c: string)
    requires m.Keys == {a, b, c}
    ensures m == map[a := m[a], b := m[b], c := m[c]]
  {
  }

  /** The map names exactly the three master mixes. */
  lemma MixLabelSet(labels: seq<string>)
    requires IsMixLabels(labels)
    ensures MasterMix.LabelSet(labels) == MasterMixes
  {
    MixesKnown(labels);
    assert labels[0] == "Endogenous" && labels[7] == "Randox" && labels[2] == "Reaction";
  }

  /** `labels` is the flattened sample map. */
  predicate IsSampleLabels(labels: seq<string>) {
    |labels| == Wells && forall k :: 0 <= k < Wells ==> labels[k] == CellAt(SampleGrid, k / Columns, k % Columns)
  }

  /** The sample phase visits the 30 loaded wells in row-major order and
      finds a source for every one of them. */
  lemma SampleWells(labels: seq<string>)
    requires IsSampleLabels(labels)
    ensures Samples.FilledWells(labels) == LoadedWells
    ensures forall k :: 0 <= k < Wells && labels[k] != "" ==> Samples.Resolve(labels[k], ReagentLocations).Ok?
  {
    SampleFillsLoaded();
    SampleSources();
    ControlSources();
    LoadedList();
    AscendingIncreasing(LoadedWells);
    MasterMix.WhereExactly(labels, Samples.Filled, LoadedWells);
  }

  /** Every master mix on the map is one of the three. */
  lemma MixesKnown(labels: seq<string>)
    requires IsMixLabels(labels)
    ensures forall k :: 0 <= k < |labels| && labels[k] != "" ==> labels[k] in MasterMixes
  {
    MasterMixLayout();
    forall k | 0 <= k < |labels| && labels[k] != "" ensures labels[k] in MasterMixes {
      assert k / Columns < Rows && k % Columns < Columns;
    }
  }

  /** The protocol as written runs to the end. */
  lemma StationRunnable()
    ensures Protocol.Runnable(Station)
  {
    var mixes := MixLabels();
    var samples := SampleLabels();
    MixesKnown(mixes);
    SampleWells(samples);
    assert forall name :: name in MasterMixes ==> name in ReagentLocations;
    Protocol.RunnableWhen(Station, mixes, samples);
  }

  /** Whatever order the three master mixes are visited in, the protocol
      finishes; each of the 30 loaded wells ends with 20 units (15 of
      master mix and 5 of sample or control) and every other well with
      none; and it uses 33 tips, one per master mix and one per sample. */
  lemma StationRuns(order: seq<string>, k: nat)
    requires MasterMix.IsEnumeration(order, MasterMixes)
    requires k < Wells
    ensures Protocol.OrderFits(Station, order)
    ensures Protocol.RunProtocol(Station, order).outcome.Completed?
    ensures Taken(Protocol.RunProtocol(Station, order).trace, Plate(k)) == if k in LoadedWells then -20 else 0
    ensures multiset(Protocol.RunProtocol(Station, order).trace)[PickUp] == 33
  {
    var mixes := MixLabels();
    var samples := SampleLabels();
    MasterMixGroups(mixes);
    SampleWells(samples);
    StationRunnable();
    assert Protocol.OrderFits(Station, order);
    Protocol.ProtocolCompletes(Station, order);
    Protocol.ProtocolDelivers(Station, order, k);
    LoadedFilled(mixes, samples, k);
    MasterMixCount();
    assert |LoadedWells| == 30;
  }

  lemma MasterMixCount()
    ensures |MasterMixes| == 3
  {
    assert MasterMixes == {"Endogenous"} + {"Reaction"} + {"Randox"};
  }

  /** A loaded well is named on both maps, any other well on neither. */
  lemma LoadedFilled(mixes: seq<string>, samples: seq<string>, k: nat)
    requires IsMixLabels(mixes) && IsSampleLabels(samples) && k < Wells
    ensures mixes[k] != "" <==> k in LoadedWells
    ensures samples[k] != "" <==> k in LoadedWells
  {
    MasterMixLayout();
    SampleFillsLoaded();
    LoadedList();
    assert k / Columns < Rows && k % Columns < Columns;
  }
}
