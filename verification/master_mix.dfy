/** Master-mix distribution: the flattened master-mix map is grouped by
    label so that each reagent gets a single tip, which then carries 15
    units from the reagent's rack position into every well of its group. */
module MasterMix {
  import opened Trace

  const MasterMixVolume: int := 15

  /** Strictly increasing, hence free of repetitions. */
  predicate Increasing(s: seq<nat>) {
    forall i, j :: 0 <= i < j < |s| ==> s[i] < s[j]
  }

  /** An increasing sequence is determined by its elements. */
  lemma {:induction false} IncreasingUnique(a: seq<nat>, b: seq<nat>)
    requires Increasing(a) && Increasing(b)
    requires forall x :: x in a <==> x in b
    ensures a == b
  {
    if |b| > 0 {
      assert b[0] in b;
    }
    if |a| > 0 {
      assert a[0] in b && b[0] in a;
      IncreasingHead(a, b[0]);
      IncreasingHead(b, a[0]);
      IncreasingTail(a);
      IncreasingTail(b);
      IncreasingUnique(a[1..], b[1..]);
      assert a == [a[0]] + a[1..] && b == [b[0]] + b[1..];
    }
  }

  /** The head of an increasing sequence is its least element. */
  lemma IncreasingHead(a: seq<nat>, x: nat)
    requires Increasing(a) && x in a
    ensures a[0] <= x
  {
  }

  /** Dropping the head keeps the order and removes just the head. */
  lemma IncreasingTail(a: seq<nat>)
    requires Increasing(a) && |a| > 0
    ensures Increasing(a[1..])
    ensures forall x :: x in a[1..] <==> x in a && x != a[0]
  {
    forall x | x in a && x != a[0] ensures x in a[1..] {
      var i :| 0 <= i < |a| && a[i] == x;
      assert a[1..][i - 1] == x;
    }
  }

  /** Well indices from `k` on, in increasing (row-major) order, whose
      label satisfies `keep`: the source's `zip(labels, wells_by_row)`
      loop with its `continue` on the labels it skips. */
  function WhereFrom(labels: seq<string>, keep: string -> bool, k: nat): (r: seq<nat>)
    requires k <= |labels|
    ensures forall i :: 0 <= i < |r| ==> k <= r[i] < |labels| && keep(labels[r[i]])
    ensures forall i, j :: 0 <= i < j < |r| ==> r[i] < r[j]
    ensures forall m :: k <= m < |labels| && keep(labels[m]) ==> m in r
    decreases |labels| - k
  {
    if k == |labels| then []
    else
      var rest := WhereFrom(labels, keep, k + 1);
      if keep(labels[k]) then
        var r := [k] + rest;
        assert forall i :: 0 < i < |r| ==> r[i] == rest[i - 1];
        r
      else rest
  }

  /** All well indices whose label satisfies `keep`, in row-major order. */
  function Where(labels: seq<string>, keep: string -> bool): seq<nat> {
    WhereFrom(labels, keep, 0)
  }

  /** `Where` is the increasing list of exactly the wells whose label
      satisfies `keep`. */
  lemma WhereExactly(labels: seq<string>, keep: string -> bool, wells: seq<nat>)
    requires Increasing(wells)
    requires forall x: nat :: x in wells <==> x < |labels| && keep(labels[x])
    ensures Where(labels, keep) == wells
  {
    IncreasingUnique(Where(labels, keep), wells);
  }

  /** A kept well before the `i`-th listed one is listed before it. */
  lemma WhereBefore(labels: seq<string>, keep: string -> bool, i: nat, m: nat)
    requires i < |Where(labels, keep)|
    requires m < Where(labels, keep)[i] && keep(labels[m])
    ensures exists j :: 0 <= j < i && Where(labels, keep)[j] == m
  {
    var w := Where(labels, keep);
    var j :| 0 <= j < |w| && w[j] == m;
    assert j < i;
  }

  /** The wells whose master-mix label is `name`. */
  function WellsFor(labels: seq<string>, name: string): seq<nat> {
    Where(labels, s => s == name)
  }

  /** The distinct non-empty labels: the keys created from `set(labels)`. */
  function LabelSet(labels: seq<string>): set<string> {
    set k | 0 <= k < |labels| && labels[k] != "" :: labels[k]
  }

  /** `master_mix_wells`: each non-empty label mapped to its wells. The
      keys are the distinct non-empty labels, and each group lists, in
      increasing order, wells that carry its label. */
  function Groups(labels: seq<string>): (g: map<string, seq<nat>>)
    ensures g.Keys == LabelSet(labels)
    ensures forall name :: name in g ==> Increasing(g[name])
    ensures forall name, i :: name in g && 0 <= i < |g[name]| ==> g[name][i] < |labels| && labels[g[name][i]] == name
  {
    map name | name in LabelSet(labels) :: WellsFor(labels, name)
  }

  /** Grouping partitions the non-empty wells: one group per distinct
      non-empty label, a well lies in a group exactly when it carries that
      group's label (so empty wells lie in none and every other well in
      exactly one), and each group is non-empty and in row-major order. */
  lemma GroupsPartition(labels: seq<string>)
    ensures "" !in Groups(labels)
    ensures forall k :: 0 <= k < |labels| && labels[k] != "" ==> labels[k] in Groups(labels)
    ensures forall name, k :: name in Groups(labels) && 0 <= k < |labels| ==>
      (k in Groups(labels)[name] <==> labels[k] == name)
    ensures forall name :: name in Groups(labels) ==> |Groups(labels)[name]| >= 1
    ensures forall name, i, j :: name in Groups(labels) && 0 <= i < j < |Groups(labels)[name]| ==>
      Groups(labels)[name][i] < Groups(labels)[name][j]
  {
    var g := Groups(labels);
    forall name | name in g
      ensures |g[name]| >= 1
      ensures forall k :: 0 <= k < |labels| ==> (k in g[name] <==> labels[k] == name)
    {
      WellsForExactly(labels, name);
      var k :| 0 <= k < |labels| && labels[k] != "" && labels[k] == name;
    }
  }

  /** The wells for `name` are exactly those labelled `name`. */
  lemma WellsForExactly(labels: seq<string>, name: string)
    ensures forall k :: 0 <= k < |labels| ==> (k in WellsFor(labels, name) <==> labels[k] == name)
  {
    var w := WellsFor(labels, name);
    forall k | 0 <= k < |labels| && k in w ensures labels[k] == name {
      var i :| 0 <= i < |w| && w[i] == k;
    }
  }

  /** One group, seen from a single well: the group is non-empty and in
      increasing order, and the well lies in it exactly when it carries
      the group's label. */
  lemma GroupAt(labels: seq<string>, name: string, k: nat)
    requires name in Groups(labels) && k < |labels|
    ensures |Groups(labels)[name]| >= 1
    ensures Increasing(Groups(labels)[name])
    ensures k in Groups(labels)[name] <==> labels[k] == name
  {
    GroupsPartition(labels);
  }

  /** `order` lists every element of `keys` exactly once: the iteration
      order of the dictionary, which the source leaves to set iteration. */
  predicate IsEnumeration(order: seq<string>, keys: set<string>) {
    && (forall i :: 0 <= i < |order| ==> order[i] in keys)
    && (forall x :: x in keys ==> x in order)
    && (forall i, j :: 0 <= i < j < |order| ==> order[i] != order[j])
  }

  /** The inner loop for one group, after its pick-up. */
  function Deliveries(source: Location, wells: seq<nat>): seq<Command> {
    if |wells| == 0 then []
    else
      [Transfer(MasterMixVolume, source, Plate(wells[0])), BlowOut(Plate(wells[0]))]
      + Deliveries(source, wells[1..])
  }

  /** One group: pick up a tip, deliver to each well, drop the tip. The
      reagent table is consulted inside the per-well loop, so an unknown
      label fails after the pick-up and before any delivery. */
  function GroupRun(name: string, wells: seq<nat>, locations: map<string, string>): (r: Run)
    ensures |r.trace| >= 1 && r.trace[0] == PickUp
    ensures r.outcome.Aborted? <==> |wells| >= 1 && name !in locations
    ensures r.outcome.Aborted? ==> r.outcome.failure == UnknownLabel(name) && r.trace == [PickUp]
  {
    if |wells| == 0 then Run([PickUp, Drop], Completed)
    else if name !in locations then Run([PickUp], Aborted(UnknownLabel(name)))
    else Run([PickUp] + Deliveries(Rack(locations[name]), wells) + [Drop], Completed)
  }

  /** The groups in the given iteration order, stopping at the first failure. */
  function MasterMixRun(groups: map<string, seq<nat>>, order: seq<string>, locations: map<string, string>): (r: Run)
    requires forall i :: 0 <= i < |order| ==> order[i] in groups
    ensures r.outcome.Aborted? ==>
      && r.outcome.failure.UnknownLabel?
      && r.outcome.failure.name in order
      && r.outcome.failure.name !in locations
  {
    if |order| == 0 then Run([], Completed)
    else AndThen(GroupRun(order[0], groups[order[0]], locations), MasterMixRun(groups, order[1..], locations))
  }

  /** Deliveries neither pick up nor drop tips. */
  lemma {:induction false} DeliveriesKeepTip(source: Location, wells: seq<nat>)
    ensures multiset(Deliveries(source, wells))[PickUp] == 0
    ensures multiset(Deliveries(source, wells))[Drop] == 0
  {
    if |wells| > 0 {
      DeliveriesKeepTip(source, wells[1..]);
    }
  }

  /** Every well of a group, listed once, receives exactly one 15-unit
      transfer from the group's source; other wells receive none. */
  lemma {:induction false} DeliveriesInto(source: Location, wells: seq<nat>, well: nat)
    requires Increasing(wells)
    ensures TransfersInto(Deliveries(source, wells), well)
      == if well in wells then [Transfer(MasterMixVolume, source, Plate(well))] else []
  {
    if |wells| > 0 {
      var head := [Transfer(MasterMixVolume, source, Plate(wells[0])), BlowOut(Plate(wells[0]))];
      DeliveriesInto(source, wells[1..], well);
      TransfersIntoAppend(head, Deliveries(source, wells[1..]), well);
      assert TransfersInto(head, well) == if well == wells[0] then [head[0]] else [] by {
        assert head[1..][1..] == [];
      }
      assert wells == [wells[0]] + wells[1..];
      assert well == wells[0] ==> well !in wells[1..];
    }
  }

  /** A group's deliveries move liquid only by transfers out of its rack
      tube. */
  lemma {:induction false} DeliveriesFromRack(position: string, wells: seq<nat>)
    ensures RackTransfersOnly(Deliveries(Rack(position), wells))
  {
    if |wells| > 0 {
      DeliveriesFromRack(position, wells[1..]);
      RackTransfersOnlyAppend(
        [Transfer(MasterMixVolume, Rack(position), Plate(wells[0])), BlowOut(Plate(wells[0]))],
        Deliveries(Rack(position), wells[1..]));
    }
  }

  /** The master-mix phase moves liquid only by transfers out of the
      reagent rack, in any order and even when it stops early. */
  lemma {:induction false} MasterMixFromRack(groups: map<string, seq<nat>>, order: seq<string>, locations: map<string, string>)
    requires forall i :: 0 <= i < |order| ==> order[i] in groups
    ensures RackTransfersOnly(MasterMixRun(groups, order, locations).trace)
  {
    if |order| > 0 {
      var name := order[0];
      var g := GroupRun(name, groups[name], locations);
      MasterMixFromRack(groups, order[1..], locations);
      if |groups[name]| > 0 && name in locations {
        var body := Deliveries(Rack(locations[name]), groups[name]);
        DeliveriesFromRack(locations[name], groups[name]);
        RackTransfersOnlyAppend([PickUp], body);
        RackTransfersOnlyAppend([PickUp] + body, [Drop]);
      }
      if g.outcome.Completed? {
        RackTransfersOnlyAppend(g.trace, MasterMixRun(groups, order[1..], locations).trace);
      }
    }
  }

  /** The deliveries alternate: a 15-unit transfer from the source into
      the `i`-th well, then a blow-out above that well. */
  lemma {:induction false} DeliveriesShape(source: Location, wells: seq<nat>)
    ensures |Deliveries(source, wells)| == 2 * |wells|
    ensures forall i :: 0 <= i < |wells| ==>
      && Deliveries(source, wells)[2 * i] == Transfer(MasterMixVolume, source, Plate(wells[i]))
      && Deliveries(source, wells)[2 * i + 1] == BlowOut(Plate(wells[i]))
  {
    if |wells| > 0 {
      var d := Deliveries(source, wells);
      var rest := Deliveries(source, wells[1..]);
      DeliveriesShape(source, wells[1..]);
      forall i | 1 <= i < |wells|
        ensures d[2 * i] == Transfer(MasterMixVolume, source, Plate(wells[i]))
        ensures d[2 * i + 1] == BlowOut(Plate(wells[i]))
      {
        assert wells[i] == wells[1..][i - 1];
        assert d[2 * i] == rest[2 * (i - 1)];
        assert d[2 * i + 1] == rest[2 * (i - 1) + 1];
      }
    }
  }

  /** One non-empty group. When its label is in the table it finishes with
      a single tip: the pick-up first, then for each well in order a
      15-unit transfer from the label's tube followed by a blow-out above
      the well, and the drop last, so the tip carries this one reagent
      only. Otherwise it stops right after picking up its tip. */
  lemma GroupRunShape(name: string, wells: seq<nat>, locations: map<string, string>)
    requires |wells| >= 1
    ensures var g := GroupRun(name, wells, locations);
      && (name in locations ==>
            && g.outcome.Completed?
            && |g.trace| == 2 * |wells| + 2
            && g.trace[0] == PickUp && g.trace[|g.trace| - 1] == Drop
            && (forall i :: 0 <= i < |wells| ==>
                  && g.trace[2 * i + 1] == Transfer(MasterMixVolume, Rack(locations[name]), Plate(wells[i]))
                  && g.trace[2 * i + 2] == BlowOut(Plate(wells[i])))
            && multiset(g.trace)[PickUp] == 1 && multiset(g.trace)[Drop] == 1)
      && (name !in locations ==> g == Run([PickUp], Aborted(UnknownLabel(name))))
  {
    if name in locations {
      var source := Rack(locations[name]);
      var d := Deliveries(source, wells);
      var t := [PickUp] + d + [Drop];
      DeliveriesKeepTip(source, wells);
      DeliveriesShape(source, wells);
      forall i | 0 <= i < |wells|
        ensures t[2 * i + 1] == Transfer(MasterMixVolume, source, Plate(wells[i]))
        ensures t[2 * i + 2] == BlowOut(Plate(wells[i]))
      {
        assert t[2 * i + 1] == d[2 * i];
        assert t[2 * i + 2] == d[2 * i + 1];
      }
      CountAppend([PickUp], d, PickUp);
      CountAppend([PickUp] + d, [Drop], PickUp);
      CountAppend([PickUp], d, Drop);
      CountAppend([PickUp] + d, [Drop], Drop);
    }
  }

  /** The master-mix phase finishes exactly when every label it visits is
      in the reagent table. */
  lemma {:induction false} MasterMixCompletes(groups: map<string, seq<nat>>, order: seq<string>, locations: map<string, string>)
    requires forall i :: 0 <= i < |order| ==> order[i] in groups && |groups[order[i]]| >= 1
    ensures MasterMixRun(groups, order, locations).outcome.Completed?
      <==> forall i :: 0 <= i < |order| ==> order[i] in locations
  {
    if |order| > 0 {
      GroupRunShape(order[0], groups[order[0]], locations);
      MasterMixCompletes(groups, order[1..], locations);
      assert forall i :: 1 <= i < |order| ==> order[i] == order[1..][i - 1];
    }
  }

  /** Otherwise it stops at the first visited label that is not in the
      table, with a KeyError for that label. */
  lemma {:induction false} MasterMixStops(groups: map<string, seq<nat>>, order: seq<string>, locations: map<string, string>)
    returns (i: nat)
    requires forall i :: 0 <= i < |order| ==> order[i] in groups && |groups[order[i]]| >= 1
    requires MasterMixRun(groups, order, locations).outcome.Aborted?
    ensures i < |order| && order[i] !in locations
    ensures MasterMixRun(groups, order, locations).outcome.failure == UnknownLabel(order[i])
    ensures forall j :: 0 <= j < i ==> order[j] in locations
  {
    var g := GroupRun(order[0], groups[order[0]], locations);
    var rest := MasterMixRun(groups, order[1..], locations);
    assert MasterMixRun(groups, order, locations) == AndThen(g, rest);
    GroupRunShape(order[0], groups[order[0]], locations);
    if order[0] in locations {
      assert rest.outcome == MasterMixRun(groups, order, locations).outcome;
      assert forall j :: 0 <= j < |order[1..]| ==> order[1..][j] == order[j + 1];
      var i' := MasterMixStops(groups, order[1..], locations);
      i := i' + 1;
    } else {
      i := 0;
    }
  }

  /** Tips: a finished phase picks up and drops one tip per group; a phase
      that stopped still holds the tip it picked up last. */
  lemma {:induction false} MasterMixTips(groups: map<string, seq<nat>>, order: seq<string>, locations: map<string, string>)
    requires forall i :: 0 <= i < |order| ==> order[i] in groups && |groups[order[i]]| >= 1
    ensures var r := MasterMixRun(groups, order, locations);
      && (r.outcome.Completed? ==> multiset(r.trace)[PickUp] == |order| && multiset(r.trace)[Drop] == |order|)
      && (r.outcome.Aborted? ==> multiset(r.trace)[PickUp] == multiset(r.trace)[Drop] + 1)
  {
    if |order| > 0 {
      var g := GroupRun(order[0], groups[order[0]], locations);
      var rest := MasterMixRun(groups, order[1..], locations);
      GroupRunShape(order[0], groups[order[0]], locations);
      MasterMixTips(groups, order[1..], locations);
      if g.outcome.Completed? {
        assert multiset(g.trace + rest.trace) == multiset(g.trace) + multiset(rest.trace);
      }
    }
  }

  /** Where the `i`-th visited group starts in a finished phase: each
      earlier group issued a pick-up, two commands per well and a drop. */
  function GroupStart(groups: map<string, seq<nat>>, order: seq<string>, i: nat): nat
    requires i <= |order|
    requires forall j :: 0 <= j < |order| ==> order[j] in groups
  {
    if i == 0 then 0 else GroupStart(groups, order, i - 1) + 2 * |groups[order[i - 1]]| + 2
  }

  /** Dropping the first visited group shifts every start by its length. */
  lemma {:induction false} GroupStartShift(groups: map<string, seq<nat>>, order: seq<string>, i: nat)
    requires |order| >= 1 && i < |order|
    requires forall j :: 0 <= j < |order| ==> order[j] in groups
    ensures GroupStart(groups, order, i + 1)
      == 2 * |groups[order[0]]| + 2 + GroupStart(groups, order[1..], i)
  {
    if i > 0 {
      GroupStartShift(groups, order, i - 1);
      assert order[i] == order[1..][i - 1];
    }
  }

  /** The stretch of `t` where the `i`-th visited group's commands belong
      holds exactly the run of group `order[i]`, whose label is in the
      table. */
  predicate BlockAt(t: seq<Command>, groups: map<string, seq<nat>>, order: seq<string>, locations: map<string, string>, i: nat)
    requires i < |order|
    requires forall j :: 0 <= j < |order| ==> order[j] in groups
  {
    && order[i] in locations
    && GroupStart(groups, order, i + 1) <= |t|
    && t[GroupStart(groups, order, i) .. GroupStart(groups, order, i + 1)] == GroupRun(order[i], groups[order[i]], locations).trace
  }

  /** A finished phase is the visited groups' commands laid end to end, in
      the iteration order: the `i`-th stretch is exactly the run of group
      `order[i]`, whose layout `GroupRunShape` gives. */
  lemma {:induction false} MasterMixBlocks(groups: map<string, seq<nat>>, order: seq<string>, locations: map<string, string>)
    requires forall i :: 0 <= i < |order| ==> order[i] in groups && |groups[order[i]]| >= 1
    requires MasterMixRun(groups, order, locations).outcome.Completed?
    ensures |MasterMixRun(groups, order, locations).trace| == GroupStart(groups, order, |order|)
    ensures forall i :: 0 <= i < |order| ==> BlockAt(MasterMixRun(groups, order, locations).trace, groups, order, locations, i)
  {
    if |order| > 0 {
      var name := order[0];
      var g := GroupRun(name, groups[name], locations);
      var tail := order[1..];
      var rest := MasterMixRun(groups, tail, locations);
      GroupRunShape(name, groups[name], locations);
      assert forall j :: 0 <= j < |tail| ==> tail[j] == order[j + 1];
      MasterMixBlocks(groups, tail, locations);
      assert MasterMixRun(groups, order, locations).trace == g.trace + rest.trace;
      GroupStartShift(groups, order, |order| - 1);
      forall i | 0 <= i < |order|
        ensures BlockAt(g.trace + rest.trace, groups, order, locations, i)
      {
        BlockStep(groups, order, locations, g.trace, rest.trace, i);
      }
    }
  }

  /** The `i`-th stretch of the first group's commands followed by the
      rest of the phase. */
  lemma BlockStep(groups: map<string, seq<nat>>, order: seq<string>, locations: map<string, string>,
                  first: seq<Command>, rest: seq<Command>, i: nat)
    requires i < |order|
    requires forall j :: 0 <= j < |order| ==> order[j] in groups
    requires order[0] in locations && first == GroupRun(order[0], groups[order[0]], locations).trace
    requires |first| == 2 * |groups[order[0]]| + 2
    requires |rest| == GroupStart(groups, order[1..], |order| - 1)
    requires i > 0 ==> BlockAt(rest, groups, order[1..], locations, i - 1)
    ensures BlockAt(first + rest, groups, order, locations, i)
  {
    if i == 0 {
      assert (first + rest)[..|first|] == first;
    } else {
      var tail := order[1..];
      GroupStartShift(groups, order, i - 1);
      GroupStartShift(groups, order, i);
      SliceAfter(first, rest, GroupStart(groups, order, i), GroupStart(groups, order, i + 1));
      assert order[i] == tail[i - 1];
    }
  }

  /** Each master-mix well is served exactly once, from the rack position
      of its own label, by the groups listed in `order`, provided each
      listed group is sorted, holds the well exactly when the well carries
      its label, and has a known rack position. */
  lemma {:induction false} MasterMixServes(labels: seq<string>, groups: map<string, seq<nat>>,
                                           order: seq<string>, locations: map<string, string>, k: nat)
    requires k < |labels|
    requires forall i :: 0 <= i < |order| ==>
      && order[i] in groups && order[i] in locations && |groups[order[i]]| >= 1
      && Increasing(groups[order[i]])
      && (k in groups[order[i]] <==> labels[k] == order[i])
    requires forall i, j :: 0 <= i < j < |order| ==> order[i] != order[j]
    ensures MasterMixRun(groups, order, locations).outcome.Completed?
    ensures TransfersInto(MasterMixRun(groups, order, locations).trace, k)
      == if labels[k] in order
         then [Transfer(MasterMixVolume, Rack(locations[labels[k]]), Plate(k))]
         else []
  {
    if |order| > 0 {
      var name := order[0];
      assert forall i :: 0 <= i < |order[1..]| ==> order[1..][i] == order[i + 1];
      GroupRunServes(name, groups[name], locations, k);
      MasterMixServes(labels, groups, order[1..], locations, k);
      var g := GroupRun(name, groups[name], locations);
      var rest := MasterMixRun(groups, order[1..], locations);
      assert MasterMixRun(groups, order, locations) == Run(g.trace + rest.trace, rest.outcome);
      TransfersIntoAppend(g.trace, rest.trace, k);
      assert labels[k] in order <==> labels[k] == name || labels[k] in order[1..] by {
        assert order == [name] + order[1..];
      }
      assert labels[k] == name ==> labels[k] !in order[1..];
    }
  }

  /** A group whose label is in the table finishes, and serves each of its
      wells once from the label's rack position. */
  lemma GroupRunServes(name: string, wells: seq<nat>, locations: map<string, string>, k: nat)
    requires name in locations && |wells| >= 1
    requires Increasing(wells)
    ensures GroupRun(name, wells, locations).outcome.Completed?
    ensures TransfersInto(GroupRun(name, wells, locations).trace, k)
      == if k in wells then [Transfer(MasterMixVolume, Rack(locations[name]), Plate(k))] else []
  {
    var body := Deliveries(Rack(locations[name]), wells);
    TransfersIntoAppend([PickUp] + body, [Drop], k);
    TransfersIntoAppend([PickUp], body, k);
    DeliveriesInto(Rack(locations[name]), wells, k);
    assert TransfersInto([PickUp], k) == [];
    assert TransfersInto([Drop], k) == [];
  }

  /** The groups of a map, visited in an enumeration of their labels: each
      visited group is non-empty and in row-major order, the visited labels
      are exactly the distinct non-empty labels of the map, and there are
      as many visits as labels. */
  lemma OrderedGroups(labels: seq<string>, order: seq<string>)
    requires IsEnumeration(order, Groups(labels).Keys)
    ensures forall i :: 0 <= i < |order| ==>
      order[i] in Groups(labels) && |Groups(labels)[order[i]]| >= 1 && Increasing(Groups(labels)[order[i]])
    ensures forall k :: 0 <= k < |labels| ==> (labels[k] in order <==> labels[k] != "")
    ensures forall i :: 0 <= i < |order| ==> order[i] in LabelSet(labels)
    ensures |order| == |LabelSet(labels)|
  {
    var g := Groups(labels);
    assert g.Keys == LabelSet(labels);
    forall i | 0 <= i < |order|
      ensures |g[order[i]]| >= 1 && Increasing(g[order[i]])
    {
      var k :| 0 <= k < |labels| && labels[k] != "" && labels[k] == order[i];
      GroupAt(labels, order[i], k);
    }
    forall k | 0 <= k < |labels| && labels[k] != "" ensures labels[k] in order {
      assert labels[k] in LabelSet(labels);
    }
    EnumerationSize(order, g.Keys);
  }

  /** The master-mix phase over the grouping of a map, in any order the
      set iteration may produce, finishes exactly when every non-empty label
      is in the reagent table; otherwise it fails with a KeyError naming
      one of the map's labels that the table lacks. */
  lemma MasterMixPhaseOutcome(labels: seq<string>, order: seq<string>, locations: map<string, string>)
    requires IsEnumeration(order, Groups(labels).Keys)
    ensures var r := MasterMixRun(Groups(labels), order, locations);
      && (r.outcome.Completed? <==> forall k :: 0 <= k < |labels| && labels[k] != "" ==> labels[k] in locations)
      && (r.outcome.Aborted? ==>
            && r.outcome.failure.UnknownLabel?
            && r.outcome.failure.name in LabelSet(labels)
            && r.outcome.failure.name !in locations)
  {
    var g := Groups(labels);
    var r := MasterMixRun(g, order, locations);
    OrderedGroups(labels, order);
    MasterMixCompletes(g, order, locations);
    if r.outcome.Aborted? {
      var i := MasterMixStops(g, order, locations);
    }
    if forall k :: 0 <= k < |labels| && labels[k] != "" ==> labels[k] in locations {
      forall i | 0 <= i < |order| ensures order[i] in locations {
        var k :| 0 <= k < |labels| && labels[k] != "" && labels[k] == order[i];
      }
    }
  }

  /** A finished master-mix phase uses one tip per distinct label. */
  lemma MasterMixPhaseTips(labels: seq<string>, order: seq<string>, locations: map<string, string>)
    requires IsEnumeration(order, Groups(labels).Keys)
    ensures var r := MasterMixRun(Groups(labels), order, locations);
      r.outcome.Completed? ==>
        multiset(r.trace)[PickUp] == |LabelSet(labels)| && multiset(r.trace)[Drop] == |LabelSet(labels)|
  {
    OrderedGroups(labels, order);
    MasterMixTips(Groups(labels), order, locations);
  }

  /** A finished master-mix phase over the grouping of a map, in any
      iteration order, is one block per distinct label laid end to end:
      each block is that label's group run. */
  lemma MasterMixPhaseBlocks(labels: seq<string>, order: seq<string>, locations: map<string, string>)
    requires IsEnumeration(order, Groups(labels).Keys)
    requires MasterMixRun(Groups(labels), order, locations).outcome.Completed?
    ensures |MasterMixRun(Groups(labels), order, locations).trace| == GroupStart(Groups(labels), order, |order|)
    ensures forall i :: 0 <= i < |order| ==>
      BlockAt(MasterMixRun(Groups(labels), order, locations).trace, Groups(labels), order, locations, i)
  {
    OrderedGroups(labels, order);
    MasterMixBlocks(Groups(labels), order, locations);
  }

  /** When every label is known, every non-empty well receives exactly one
      15-unit transfer, from its own label's rack position, and every empty
      well none, whatever the iteration order. */
  lemma MasterMixPhaseTransfers(labels: seq<string>, order: seq<string>, locations: map<string, string>, k: nat)
    requires IsEnumeration(order, Groups(labels).Keys)
    requires forall m :: 0 <= m < |labels| && labels[m] != "" ==> labels[m] in locations
    requires k < |labels|
    ensures TransfersInto(MasterMixRun(Groups(labels), order, locations).trace, k)
      == if labels[k] == "" then []
         else [Transfer(MasterMixVolume, Rack(locations[labels[k]]), Plate(k))]
  {
    var g := Groups(labels);
    OrderedGroups(labels, order);
    forall i | 0 <= i < |order|
      ensures order[i] in locations && (k in g[order[i]] <==> labels[k] == order[i])
    {
      var m :| 0 <= m < |labels| && labels[m] != "" && labels[m] == order[i];
      GroupAt(labels, order[i], k);
    }
    MasterMixServes(labels, g, order, locations, k);
  }

  /** An enumeration of a set is as long as the set is large. */
  lemma {:induction false} EnumerationSize(order: seq<string>, keys: set<string>)
    requires IsEnumeration(order, keys)
    ensures |order| == |keys|
  {
    if |order| > 0 {
      var rest := keys - {order[0]};
      assert IsEnumeration(order[1..], rest) by {
        forall x | x in rest ensures x in order[1..] {
          var i :| 0 <= i < |order| && order[i] == x;
          assert order[i] == order[1..][i - 1];
        }
        forall i | 0 <= i < |order[1..]| ensures order[1..][i] in rest {
          assert order[1..][i] == order[i + 1];
        }
      }
      EnumerationSize(order[1..], rest);
    } else {
      assert forall x :: x !in keys;
    }
  }
}
