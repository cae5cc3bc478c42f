# Station C qPCR plate map, modelled in Dafny

This project models the pipetting logic of the Opentrons protocol
`experiments/20200327-randox-test/station-C-qpcr-map.py` (BP Genomics
Station C, Randox test). The protocol sets up a 96-well qPCR plate from two
tab-separated plate maps written into the script:

- `MASTER_MIX_MAP` says which master mix goes into which well. Each distinct
  master mix gets one tip, and 15 units go from its tube into every well of
  its group.
- `SAMPLE_MAP` says which sample or control goes into which well. Each one is
  moved with its own tip by `transfer_with_primitives`, a fixed sequence of
  sixteen pipette commands that moves 5 units.
- A label `Sample N` is taken from well `N - 1` of the elution plate. Any
  other label is looked up in `REAGENT_LOCATIONS`, the table of tubes on the
  reagent rack.

The model runs the protocol as a pure function. Its result is the list of
pipette commands issued and an outcome: finished, or stopped by the
exception the script would raise. The model proves what that list does for
any pair of maps, and then what it does for the maps written in the script.

Modules, in dependency order:

| module | file | what it holds |
|---|---|---|
| `Results` | `results.dfy` | `Option`, `Result`, and Python list indexing with negative indices |
| `Text` | `text.dfy` | `str.strip`, `str.split`, join, and decimal digit strings as `int()` reads them |
| `PlateMap` | `plate_map.dfy` | the map flattener at lines 105-108 and 137-140, including how it overflows |
| `Trace` | `trace.dfy` | pipette commands, runs, tip level, and net liquid taken from each location |
| `Primitives` | `primitives.dfy` | `transfer_with_primitives` |
| `MasterMix` | `master_mix.dfy` | grouping by label and the master-mix loop, with the set iteration order as a parameter |
| `Samples` | `samples.dfy` | the `Sample N` recogniser, source resolution, and the per-sample loop |
| `Protocol` | `protocol.dfy` | the whole run for any two maps and reagent table |
| `StationC` | `station_c.dfy` | the script's own constants and what the run does with them |

Conventions used in the model:

- Wells of the qPCR plate are numbered 0-95 in row-major order (`A1` is 0, `A2` is 1, `B1` is 12).
- Elution-plate wells are numbered by their position in `wells()`.
- Volumes are integers in the protocol's units (µL).

## Model

| member | source | states |
|---|---|---|
| `Results.PyIndex` | experiments/20200327-randox-test/station-C-qpcr-map.py:155 | Python's `xs[i]` is defined exactly for `-len <= i < len`; a negative index counts from the end, and the result is always a valid position |
| `Text.Strip` | experiments/20200327-randox-test/station-C-qpcr-map.py:106 | the stripped text neither starts nor ends with a stripped character, and the input is that text with stripped characters on both sides |
| `Text.StripExact` | experiments/20200327-randox-test/station-C-qpcr-map.py:106 | strip removes exactly the outer runs: a body that does not begin or end with a stripped character survives whole |
| `Text.Split` | experiments/20200327-randox-test/station-C-qpcr-map.py:106-107 | split gives at least one piece; no piece contains the separator; the pieces joined with the separator give back the input |
| `Text.SplitJoin` | experiments/20200327-randox-test/station-C-qpcr-map.py:106-107 | round trip: splitting joined pieces gives the pieces back, provided none contains the separator |
| `Text.Decimal` | experiments/20200327-randox-test/station-C-qpcr-map.py:155 | round trip with `int()`: the decimal spelling of `n` reads back as `n`, and it has no leading zero |
| `PlateMap.Cells` | experiments/20200327-randox-test/station-C-qpcr-map.py:106-107 | the map has at least one line and every line at least one cell; no cell holds a tab or a newline; joined back with tabs and newlines the cells give the stripped map text, so with `Text.SplitJoin` the cells are fully determined |
| `PlateMap.WriteRow` | experiments/20200327-randox-test/station-C-qpcr-map.py:107-108 | the inner loop succeeds exactly when the line's last cell lands inside the list; it writes cell `j` at `i*12+j` and nothing else; otherwise it names the first cell out of range |
| `PlateMap.WriteRows` | experiments/20200327-randox-test/station-C-qpcr-map.py:106-108 | the outer loop succeeds exactly when every remaining line fits; each index then holds the cell written there last; otherwise the error is the first overflowing write |
| `PlateMap.Flatten` | experiments/20200327-randox-test/station-C-qpcr-map.py:105-108 | flattening succeeds exactly when every line fits; index `k` holds the cell written there last, in row-major order, or `""`; a failure is the first write at index 96 or beyond |
| `PlateMap.RegularMapFlatten` | experiments/20200327-randox-test/station-C-qpcr-map.py:105-108 | for a map of at most 8 lines of at most 12 cells, flattening succeeds and index `r*12+c` holds cell `(r, c)`, or `""` where the map has no such cell |
| `PlateMap.OverlongRowSpills` | experiments/20200327-randox-test/station-C-qpcr-map.py:107-108 | a 13th cell on a line is not rejected: it lands in the first slot of the next row and is overwritten there if a next line exists |
| `PlateMap.NinthLineOverflows` | experiments/20200327-randox-test/station-C-qpcr-map.py:106-108 | after eight lines of at most 12 cells, a ninth line raises at its first cell; this includes a blank line, which still splits into one empty cell |
| `PlateMap.MapTextCells` | experiments/20200327-randox-test/station-C-qpcr-map.py:11-31 | round trip: a grid laid out as the script lays out its maps (tabs, newlines, leading and trailing newline) reads back as the same grid, provided no cell holds a tab or newline and the laid-out lines do not begin or end with a newline or space; tabs count as content, so empty first or last cells are allowed |
| `PlateMap.LeadingEmptyCellsKept` | experiments/20200327-randox-test/station-C-qpcr-map.py:106-108 | `strip('\n ')` keeps tabs, so a first line that begins with empty cells reads back unchanged and its labels keep their columns |
| `PlateMap.LeadingTabKept` | experiments/20200327-randox-test/station-C-qpcr-map.py:105-108 | the map text `"\n\tA\n"` reads as one line with an empty first cell, and flattens with `""` at well 0 and `A` at well 1 |
| `Trace.RackTransfersTaken` | experiments/20200327-randox-test/station-C-qpcr-map.py:128 | in a trace whose only liquid moves are transfers out of rack tubes, a qPCR well gains exactly the volume transferred into it |
| `Primitives.PrimitivesInOrder` | experiments/20200327-randox-test/station-C-qpcr-map.py:58-76 | the sequence is sixteen commands: pick up; pre-wet with 1 and two mix cycles at the source; move `volume - 1`; two mix cycles and the last 1 at the destination; blow out; air gap; drop |
| `Primitives.TransferWithPrimitives` | experiments/20200327-randox-test/station-C-qpcr-map.py:58-76 | one command per API call, loops unrolled: sixteen commands; `PrimitivesInOrder` spells them out |
| `Primitives.PrimitivesTipLevels` | experiments/20200327-randox-test/station-C-qpcr-map.py:58-76 | the liquid in the tip never goes negative and never exceeds the larger of `volume` and `1 + mix`, and it reaches that peak; the tip is empty at the blow-out and at the end |
| `Primitives.DefaultPrimitivesFitTip` | experiments/20200327-randox-test/station-C-qpcr-map.py:58 | with the defaults (volume 5, mix 19) the tip peaks at exactly 20, the capacity of the P20 tips, and never exceeds it |
| `Primitives.PrimitivesMoveVolume` | experiments/20200327-randox-test/station-C-qpcr-map.py:58-76 | net effect: the source loses exactly `volume`, the destination gains exactly `volume`, and no other location changes |
| `Primitives.PrimitivesUseOneTip` | experiments/20200327-randox-test/station-C-qpcr-map.py:58-76 | the sequence starts with its only pick-up and ends with its only drop |
| `MasterMix.IncreasingUnique` | experiments/20200327-randox-test/station-C-qpcr-map.py:119-122 | two strictly increasing well lists with the same elements are equal, so a group is determined by which wells carry its label |
| `MasterMix.WhereExactly` | experiments/20200327-randox-test/station-C-qpcr-map.py:119-122 | the row-major collection loop yields the one increasing list of exactly the wells whose label passes the test |
| `MasterMix.Groups` | experiments/20200327-randox-test/station-C-qpcr-map.py:110-122 | `master_mix_wells` has exactly the distinct non-empty labels as keys, and each group lists, in increasing order, only wells carrying its label; `GroupsPartition` adds that every such well is listed |
| `MasterMix.GroupsPartition` | experiments/20200327-randox-test/station-C-qpcr-map.py:110-122 | `master_mix_wells` has one key per distinct non-empty label and none for `""`; a well lies in a group exactly when it carries that label; every group is non-empty and in row-major order |
| `MasterMix.GroupRun` | experiments/20200327-randox-test/station-C-qpcr-map.py:126-130 | one group starts with a pick-up; it stops exactly when it has wells and its label is not in the table, and then with that label's `KeyError` after the pick-up alone |
| `MasterMix.MasterMixRun` | experiments/20200327-randox-test/station-C-qpcr-map.py:125-130 | the master-mix loop, if it stops, stops with a `KeyError` naming a visited label that is not in the table |
| `MasterMix.GroupRunShape` | experiments/20200327-randox-test/station-C-qpcr-map.py:125-130 | a group with a known tube finishes; its commands are the pick-up, then for each well in order a 15-unit transfer from that one tube followed by a blow-out above the well, then the drop, so one tip carries one reagent; with an unknown tube it stops with a `KeyError` right after the pick-up |
| `MasterMix.GroupRunServes` | experiments/20200327-randox-test/station-C-qpcr-map.py:125-130 | a group with a known tube transfers 15 units from its tube into each of its wells exactly once, and into no other well |
| `MasterMix.MasterMixCompletes` | experiments/20200327-randox-test/station-C-qpcr-map.py:125-128 | the master-mix loop finishes exactly when every visited master mix has a tube |
| `MasterMix.MasterMixStops` | experiments/20200327-randox-test/station-C-qpcr-map.py:125-128 | otherwise it stops at the first master mix, in visiting order, that has no tube, with that name's `KeyError` |
| `MasterMix.MasterMixTips` | experiments/20200327-randox-test/station-C-qpcr-map.py:125-130 | a finished loop picks up and drops one tip per master mix; a stopped loop holds one tip it never dropped |
| `MasterMix.MasterMixServes` | experiments/20200327-randox-test/station-C-qpcr-map.py:125-130 | over a visiting order of distinct groups, each well receives exactly one 15-unit transfer from its own master mix's tube, or none if it has no master mix |
| `MasterMix.MasterMixFromRack` | experiments/20200327-randox-test/station-C-qpcr-map.py:125-130 | the master-mix loop moves liquid only by transfers out of reagent-rack tubes, whatever the order and even when it stops early |
| `MasterMix.MasterMixBlocks` | experiments/20200327-randox-test/station-C-qpcr-map.py:125-130 | a finished master-mix loop is the groups' runs laid end to end in visiting order: the `i`-th stretch, starting after the pick-up, two commands per well and drop of each earlier group, is exactly the run of group `order[i]` |
| `MasterMix.OrderedGroups` | experiments/20200327-randox-test/station-C-qpcr-map.py:114-125 | any iteration order of the dictionary visits each distinct non-empty label once and nothing else |
| `MasterMix.MasterMixPhaseOutcome` | experiments/20200327-randox-test/station-C-qpcr-map.py:110-130 | in any iteration order, the phase finishes exactly when every non-empty label has a tube; if it stops, it names a label on the map that has none |
| `MasterMix.MasterMixPhaseTips` | experiments/20200327-randox-test/station-C-qpcr-map.py:112-130 | a finished phase uses one tip per distinct master mix, whatever the order |
| `MasterMix.MasterMixPhaseBlocks` | experiments/20200327-randox-test/station-C-qpcr-map.py:110-130 | the same for the grouping of a map: a finished phase is one block per distinct master mix, in the iteration order |
| `MasterMix.MasterMixPhaseTransfers` | experiments/20200327-randox-test/station-C-qpcr-map.py:119-129 | when every label has a tube, each labelled well receives one 15-unit transfer from its label's tube, and an unlabelled well receives none |
| `MasterMix.EnumerationSize` | experiments/20200327-randox-test/station-C-qpcr-map.py:114 | an iteration order that lists each key exactly once has as many entries as there are keys |
| `Samples.SampleNumber` | experiments/20200327-randox-test/station-C-qpcr-map.py:153-155 | the pattern matches exactly when the label starts with `Sample ` and a digit |
| `Samples.SampleNumberReads` | experiments/20200327-randox-test/station-C-qpcr-map.py:153-155 | `Sample `, one or more digits, then anything not starting with a digit, is read as the number the digits spell |
| `Samples.SampleNumberShape` | experiments/20200327-randox-test/station-C-qpcr-map.py:153 | conversely, every label the pattern accepts has that shape |
| `Samples.SampleNumberOfDecimal` | experiments/20200327-randox-test/station-C-qpcr-map.py:153-155 | round trip: `Sample ` followed by `n` in decimal and a non-digit tail is read back as `n` |
| `Samples.Resolve` | experiments/20200327-randox-test/station-C-qpcr-map.py:153-157 | a numbered sample `N` is elution well `N - 1` for `1 <= N <= 96`, the last well for `N = 0`, and an `IndexError` beyond 96; any other label is its tube when it is a table key and a `KeyError` otherwise; a plate well is never a source |
| `Samples.ResolvesSampleThree` | experiments/20200327-randox-test/station-C-qpcr-map.py:153-155 | `Sample 3` comes from the third elution well, whatever the reagent table holds |
| `Samples.ResolvesSampleZero` | experiments/20200327-randox-test/station-C-qpcr-map.py:155 | `Sample 0` indexes the well list at -1 and so takes from the last elution well |
| `Samples.RejectsSampleBeyondPlate` | experiments/20200327-randox-test/station-C-qpcr-map.py:155 | `Sample 97` raises `IndexError` |
| `Samples.IgnoresTrailingText` | experiments/20200327-randox-test/station-C-qpcr-map.py:153 | the pattern is not anchored at the end: `Sample 12x` is sample 12 |
| `Samples.SampleRunFrom` | experiments/20200327-randox-test/station-C-qpcr-map.py:142-159 | the per-sample loop issues whole sixteen-command transfers only; if it stops, the error is that of some non-empty label at or after the current well that does not resolve |
| `Samples.SampleRunVisitsFilled` | experiments/20200327-randox-test/station-C-qpcr-map.py:142-159 | the loop over all 96 wells, skipping empty labels, does the same as visiting just the non-empty wells in row-major order |
| `Samples.VisitRunCompletes` | experiments/20200327-randox-test/station-C-qpcr-map.py:143-159 | a visit finishes exactly when every listed well's label resolves |
| `Samples.VisitRunStops` | experiments/20200327-randox-test/station-C-qpcr-map.py:143-159 | otherwise it stops at the first listed label that fails, with that label's error; before it the trace is exactly one sixteen-command block per earlier well, in order, each from that well's source |
| `Samples.VisitRunBlocks` | experiments/20200327-randox-test/station-C-qpcr-map.py:143-159 | a finished visit is one sixteen-command block per listed well, in order, each from that well's label's source into that well |
| `Samples.VisitRunTips` | experiments/20200327-randox-test/station-C-qpcr-map.py:143-159 | a finished visit picks up and drops one tip per listed well |
| `Samples.VisitRunVolumes` | experiments/20200327-randox-test/station-C-qpcr-map.py:143-159 | over distinct wells, a finished visit puts exactly 5 units into each listed well and nothing into any other |
| `Samples.SamplePhaseCompletes` | experiments/20200327-randox-test/station-C-qpcr-map.py:142-159 | the sample phase finishes exactly when every non-empty label resolves |
| `Samples.SamplePhaseStops` | experiments/20200327-randox-test/station-C-qpcr-map.py:142-159 | otherwise it stops with the error of the first non-empty label, in row-major order, that does not resolve; every earlier label resolves |
| `Samples.SamplePhaseTransfers` | experiments/20200327-randox-test/station-C-qpcr-map.py:142-159 | a finished phase is one block per non-empty well in row-major order, from that label's source, with one tip each; every non-empty well gains 5 units and every empty well none |
| `Protocol.RunProtocol` | experiments/20200327-randox-test/station-C-qpcr-map.py:103-159 | when the master-mix map overflows the plate, the run stops before any pipetting; a finished run read both maps; a stop for a map overflow comes from one of the two maps |
| `Protocol.ProtocolCompletes` | experiments/20200327-randox-test/station-C-qpcr-map.py:103-159 | in any iteration order of the master mixes, the run finishes exactly when both maps fit the plate, every master mix has a tube, and every sample label has a source |
| `Protocol.ProtocolFailure` | experiments/20200327-randox-test/station-C-qpcr-map.py:103-159 | a run that stops names a real defect: a map line that overflows the plate, a master mix on the map with no tube, or a sample label whose source cannot be found |
| `Protocol.ProtocolDelivers` | experiments/20200327-randox-test/station-C-qpcr-map.py:103-159 | in a finished run each well gains 15 units if it has a master mix plus 5 if it has a sample or control; it uses one tip per distinct master mix plus one per sample transfer |
| `StationC.MapsRead` | experiments/20200327-randox-test/station-C-qpcr-map.py:11-31 | the two map texts of the script read back as the two 8-by-12 grids written in it |
| `StationC.MasterMixLayout` | experiments/20200327-randox-test/station-C-qpcr-map.py:11-20 | on the master-mix map, Endogenous fills A1-D2 and A6; Randox fills A8-D8; Reaction fills A3-D4, B6 and column 12; every other cell is empty |
| `StationC.SampleFillsLoaded` | experiments/20200327-randox-test/station-C-qpcr-map.py:22-31 | the sample map fills exactly the wells the master-mix map fills |
| `StationC.SampleSources` | experiments/20200327-randox-test/station-C-qpcr-map.py:22-26 | every `Sample N` cell, in rows A-D, is taken from the elution well of its row |
| `StationC.ControlSources` | experiments/20200327-randox-test/station-C-qpcr-map.py:22-50 | the Water and PCD cells are reagent-table keys and are taken from their tubes |
| `StationC.ReagentLabels` | experiments/20200327-randox-test/station-C-qpcr-map.py:34-50 | `Water` and its synonym `Negative` share tube A4; `PCD 5` is tube D2; `sample 3` in lower case is neither a sample nor a key |
| `StationC.TablePositionsOnRack` | experiments/20200327-randox-test/station-C-qpcr-map.py:34-50 | every position in `REAGENT_LOCATIONS` is a tube of the 24-tube rack (A1-D6), so the rack lookups at lines 128 and 157 cannot fail for the script's table |
| `StationC.MixLabels` | experiments/20200327-randox-test/station-C-qpcr-map.py:105-108 | the script's master-mix map flattens without error, and well `k` holds cell `(k / 12, k % 12)` |
| `StationC.SampleLabels` | experiments/20200327-randox-test/station-C-qpcr-map.py:137-140 | the script's sample map flattens without error, and well `k` holds cell `(k / 12, k % 12)` |
| `StationC.MasterMixGroups` | experiments/20200327-randox-test/station-C-qpcr-map.py:110-122 | the script's map gives three master mixes: Endogenous in 9 wells, Randox in 4, Reaction in 17, each in row-major order |
| `StationC.SampleWells` | experiments/20200327-randox-test/station-C-qpcr-map.py:142-157 | the sample loop visits the 30 loaded wells, and every one of their labels has a source |
| `StationC.StationRunnable` | experiments/20200327-randox-test/station-C-qpcr-map.py:11-50 | the script's constants form a runnable configuration |
| `StationC.StationRuns` | experiments/20200327-randox-test/station-C-qpcr-map.py:103-159 | in whatever order the three master mixes are visited, the script finishes; each of the 30 loaded wells ends with 20 units and every other well with none; it uses 33 tips |

## Left out

- Labware, instrument and module loading, the temperature module, and the pipette flow rates (lines 79-101) are left out. They set up hardware and do not change which commands are issued or where liquid goes.
- The `metadata` block, `QPCR_LABWARE` and `SAMPLE_TIP_LOCATIONS` are left out. Running out of tips is not modelled: the run uses 33 of the 192 tips in the two racks.
- The iteration order of `set(master_mix_labels)` is decided by Python's string hashing. It is a parameter of the model, and every property holds for every order that lists each master mix once.
- `p20.transfer(15, ..., new_tip='never')` is one `Transfer` command. How the API splits it into aspirates and dispenses is not part of this model.
- Only the elution well's position in `wells()` is modelled, not its name (`A1`, `B1`, ...).
- The regular expression engine is not modelled. What is modelled is the one pattern `Sample ([0-9]+)`: matched at the start, ASCII digits only, longest run of digits.
- `Primitives.PrimitivesTipLevels`: counts liquid only. The 3-unit air gap (`air_gap(3, -1)`) and the blow-out are events that move no liquid, so the tip level ignores the air held in the tip.
- `PlateMap.Flatten`: strings are sequences of characters. Unicode normalisation and `strip`'s handling of other whitespace do not arise, because the script strips only `\n` and space.
- Protocol.ProtocolCompletes: rack positions are assumed valid. The source indexes `reagent_rack[...]` with the table's position (lines 128 and 157), which raises `KeyError` for a position that is not a tube of the 24-tube rack; `Trace.Rack(position)` cannot fail, so for an arbitrary table "runnable" does not check positions. For the protocol's own table nothing is lost: `StationC.TablePositionsOnRack` shows all 15 positions lie in A1-D6.
