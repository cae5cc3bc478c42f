/** The Station C qPCR set-up as one run: flatten the master-mix map,
    distribute each master mix with one tip per mix, flatten the sample
    map, then transfer every sample and control with a fresh tip. The run
    is parameterised by its configuration (the two plate maps and the
    reagent table); the protocol's own constants are in `StationC`. */
module Protocol {
  import opened Results
  import opened Trace
  import PlateMap
  import MasterMix
  import Primitives
  import Samples

  /** What a run depends on: the two plate maps and the reagent table. */
  datatype Config = Config(masterMixMap: string, sampleMap: string, locations: map<string, string>)

  /** `order` is an iteration order of the master-mix groups, whenever the
      master-mix map can be flattened at all. */
  predicate OrderFits(cfg: Config, order: seq<string>) {
    PlateMap.Flatten(cfg.masterMixMap).Ok? ==>
      MasterMix.IsEnumeration(order, MasterMix.Groups(PlateMap.Flatten(cfg.masterMixMap).value).Keys)
  }

  /** `run(protocol)` from the first pipetting step on. The sample map is
      flattened only after every master mix has been distributed. */
  function RunProtocol(cfg: Config, order: seq<string>): (r: Run)
    requires OrderFits(cfg, order)
    ensures PlateMap.Flatten(cfg.masterMixMap).Err? ==> r.trace == [] && r.outcome.Aborted?
    ensures r.outcome.Completed? ==> PlateMap.Flatten(cfg.masterMixMap).Ok? && PlateMap.Flatten(cfg.sampleMap).Ok?
    ensures r.outcome.Aborted? && r.outcome.failure.BadMap? ==>
      PlateMap.Flatten(cfg.masterMixMap).Err? || PlateMap.Flatten(cfg.sampleMap).Err?
  {
    match PlateMap.Flatten(cfg.masterMixMap)
    case Err(e) => Run([], Aborted(BadMap(e)))
    case Ok(mixes) =>
      AndThen(
        MasterMix.MasterMixRun(MasterMix.Groups(mixes), order, cfg.locations),
        match PlateMap.Flatten(cfg.sampleMap)
        case Err(e) => Run([], Aborted(BadMap(e)))
        case Ok(samples) => Samples.SampleRun(samples, cfg.locations))
  }

  /** A configuration the protocol runs to the end: both maps fit the
      plate, every master mix on the map has a rack position, and every
      sample or control on the map has a source. */
  predicate Runnable(cfg: Config) {
    var mixes := PlateMap.Flatten(cfg.masterMixMap);
    var samples := PlateMap.Flatten(cfg.sampleMap);
    && mixes.Ok? && samples.Ok?
    && (forall k :: 0 <= k < |mixes.value| && mixes.value[k] != "" ==> mixes.value[k] in cfg.locations)
    && (forall k :: 0 <= k < |samples.value| && samples.value[k] != "" ==>
          Samples.Resolve(samples.value[k], cfg.locations).Ok?)
  }

  /** `Runnable` from the two flattened maps. */
  lemma RunnableWhen(cfg: Config, mixes: seq<string>, samples: seq<string>)
    requires PlateMap.Flatten(cfg.masterMixMap) == Ok(mixes) && PlateMap.Flatten(cfg.sampleMap) == Ok(samples)
    requires forall k :: 0 <= k < |mixes| && mixes[k] != "" ==> mixes[k] in cfg.locations
    requires forall k :: 0 <= k < |samples| && samples[k] != "" ==> Samples.Resolve(samples[k], cfg.locations).Ok?
    ensures Runnable(cfg)
  {
  }

  /** The failure names a real defect of the configuration: a map line
      that overflows the plate, a master mix missing from the reagent
      table, or a sample label whose source cannot be found. */
  ghost predicate Explains(cfg: Config, f: Failure) {
    var mixes := PlateMap.Flatten(cfg.masterMixMap);
    var samples := PlateMap.Flatten(cfg.sampleMap);
    match f
    case BadMap(e) =>
      || PlateMap.FirstOverflow(PlateMap.Cells(cfg.masterMixMap), e)
      || PlateMap.FirstOverflow(PlateMap.Cells(cfg.sampleMap), e)
    case UnknownLabel(name) =>
      || (mixes.Ok? && name in MasterMix.LabelSet(mixes.value) && name !in cfg.locations)
      || (samples.Ok? && exists k :: SampleFault(samples.value, cfg.locations, k, f))
    case ElutionWellOutOfRange(_) =>
      samples.Ok? && exists k :: SampleFault(samples.value, cfg.locations, k, f)
  }

  /** The label of qPCR well `k` names a sample or control whose source
      cannot be found, for the reason `f`. */
  predicate SampleFault(samples: seq<string>, locations: map<string, string>, k: nat, f: Failure) {
    k < |samples| && samples[k] != "" && Samples.Resolve(samples[k], locations) == Err(f)
  }

  /** The run finishes exactly when the configuration is runnable, in
      whatever order the master mixes are visited. */
  lemma ProtocolCompletes(cfg: Config, order: seq<string>)
    requires OrderFits(cfg, order)
    ensures RunProtocol(cfg, order).outcome.Completed? <==> Runnable(cfg)
  {
    var mixes := PlateMap.Flatten(cfg.masterMixMap);
    var samples := PlateMap.Flatten(cfg.sampleMap);
    if mixes.Ok? {
      MasterMix.MasterMixPhaseOutcome(mixes.value, order, cfg.locations);
      if samples.Ok? {
        Samples.SamplePhaseCompletes(samples.value, cfg.locations);
      }
    }
  }

  /** A run that stops names the defect that stopped it. */
  lemma ProtocolFailure(cfg: Config, order: seq<string>)
    requires OrderFits(cfg, order)
    requires RunProtocol(cfg, order).outcome.Aborted?
    ensures Explains(cfg, RunProtocol(cfg, order).outcome.failure)
  {
    var r := RunProtocol(cfg, order);
    match PlateMap.Flatten(cfg.masterMixMap)
    case Err(e) =>
      assert r.outcome.failure == BadMap(e);
    case Ok(mixes) =>
      var m := MasterMix.MasterMixRun(MasterMix.Groups(mixes), order, cfg.locations);
      if m.outcome.Aborted? {
        assert r.outcome == m.outcome;
        MixFailure(cfg, order, mixes);
      } else {
        match PlateMap.Flatten(cfg.sampleMap)
        case Err(e) =>
          assert r.outcome.failure == BadMap(e);
        case Ok(samples) =>
          assert r.outcome == Samples.SampleRun(samples, cfg.locations).outcome;
          SampleFailure(cfg, samples);
      }
  }

  /** A master-mix phase that stops names a master mix with no rack
      position. */
  lemma MixFailure(cfg: Config, order: seq<string>, mixes: seq<string>)
    requires PlateMap.Flatten(cfg.masterMixMap) == Ok(mixes)
    requires MasterMix.IsEnumeration(order, MasterMix.Groups(mixes).Keys)
    requires MasterMix.MasterMixRun(MasterMix.Groups(mixes), order, cfg.locations).outcome.Aborted?
    ensures Explains(cfg, MasterMix.MasterMixRun(MasterMix.Groups(mixes), order, cfg.locations).outcome.failure)
  {
    MasterMix.MasterMixPhaseOutcome(mixes, order, cfg.locations);
  }

  /** A sample phase that stops names a sample label with no source. */
  lemma SampleFailure(cfg: Config, samples: seq<string>)
    requires PlateMap.Flatten(cfg.sampleMap) == Ok(samples)
    requires Samples.SampleRun(samples, cfg.locations).outcome.Aborted?
    ensures Explains(cfg, Samples.SampleRun(samples, cfg.locations).outcome.failure)
  {
    var f := Samples.SampleRun(samples, cfg.locations).outcome.failure;
    var k := Samples.SamplePhaseStops(samples, cfg.locations);
    assert SampleFault(samples, cfg.locations, k, f);
  }

  /** A finished run fills each qPCR well with 15 units of its master mix
      when the master-mix map names one, and 5 units of its sample or
      control when the sample map names one, and uses one tip per master
      mix and one per sample transfer. */
  lemma ProtocolDelivers(cfg: Config, order: seq<string>, k: nat)
    requires OrderFits(cfg, order)
    requires RunProtocol(cfg, order).outcome.Completed?
    requires k < PlateMap.Wells
    ensures var mixes := PlateMap.Flatten(cfg.masterMixMap).value;
      var samples := PlateMap.Flatten(cfg.sampleMap).value;
      Taken(RunProtocol(cfg, order).trace, Plate(k))
        == -(if mixes[k] == "" then 0 else MasterMix.MasterMixVolume)
           - (if samples[k] == "" then 0 else Primitives.DefaultVolume)
    ensures var mixes := PlateMap.Flatten(cfg.masterMixMap).value;
      var samples := PlateMap.Flatten(cfg.sampleMap).value;
      multiset(RunProtocol(cfg, order).trace)[PickUp]
        == |MasterMix.LabelSet(mixes)| + |Samples.FilledWells(samples)|
  {
    ProtocolCompletes(cfg, order);
    var mixes := PlateMap.Flatten(cfg.masterMixMap).value;
    var samples := PlateMap.Flatten(cfg.sampleMap).value;
    var m := MasterMix.MasterMixRun(MasterMix.Groups(mixes), order, cfg.locations);
    var s := Samples.SampleRun(samples, cfg.locations);
    assert RunProtocol(cfg, order).trace == m.trace + s.trace;
    MasterMix.MasterMixPhaseOutcome(mixes, order, cfg.locations);
    MasterMix.MasterMixPhaseTips(mixes, order, cfg.locations);
    MasterMix.MasterMixPhaseTransfers(mixes, order, cfg.locations, k);
    MasterMix.MasterMixFromRack(MasterMix.Groups(mixes), order, cfg.locations);
    RackTransfersTaken(m.trace, k);
    Samples.SamplePhaseTransfers(samples, cfg.locations);
    TakenAppend(m.trace, s.trace, Plate(k));
    CountAppend(m.trace, s.trace, PickUp);
  }
}
