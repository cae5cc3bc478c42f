/** `transfer_with_primitives`: the fixed small-volume pipetting sequence
    used for every sample and control. One tip; pre-wet at the source with
    two mix cycles, move `volume - 1`, two mix cycles at the destination,
    push out the last unit, blow out, draw a small air gap, drop the tip. */
module Primitives {
  import opened Trace

  /** Default `volume` and `mix` arguments; the protocol never overrides them. */
  const DefaultVolume: int := 5
  const DefaultMix: int := 19

  /** `air_gap(3, -1)`. */
  const AirGapVolume: int := 3
  const AirGapHeight: int := -1

  /** Capacity of the P20 pipette's tips. */
  const TipCapacity: int := 20

  /** `for _ in range(n): aspirate(mix, loc); dispense(mix, loc)` */
  function MixCycles(n: nat, mix: int, loc: Location): (r: seq<Command>)
    ensures |r| == 2 * n
  {
    if n == 0 then [] else [Aspirate(mix, loc), Dispense(mix, loc)] + MixCycles(n - 1, mix, loc)
  }

  function TransferWithPrimitives(source: Location, dest: Location, volume: int, mix: int): (t: seq<Command>)
    ensures |t| == 16
  {
    [PickUp, Aspirate(1, source)]
    + MixCycles(2, mix, source)
    + [Aspirate(volume - 1, source), Dispense(volume - 1, dest)]
    + MixCycles(2, mix, dest)
    + [Dispense(1, dest), BlowOut(dest), AirGap(AirGapVolume, AirGapHeight), Drop]
  }

  /** The sequence command by command: sixteen commands, in this order and
      with these volumes. */
  lemma PrimitivesInOrder(source: Location, dest: Location, volume: int, mix: int)
    ensures TransferWithPrimitives(source, dest, volume, mix) == Spelled(source, dest, volume, mix)
  {
    MixCyclesTwice(mix, source);
    MixCyclesTwice(mix, dest);
  }

  /** The sixteen commands written out one by one. */
  function Spelled(source: Location, dest: Location, volume: int, mix: int): seq<Command> {
    [
      PickUp,
      Aspirate(1, source),
      Aspirate(mix, source), Dispense(mix, source),
      Aspirate(mix, source), Dispense(mix, source),
      Aspirate(volume - 1, source), Dispense(volume - 1, dest),
      Aspirate(mix, dest), Dispense(mix, dest),
      Aspirate(mix, dest), Dispense(mix, dest),
      Dispense(1, dest),
      BlowOut(dest),
      AirGap(3, -1),
      Drop]
  }

  lemma MixCyclesTwice(mix: int, loc: Location)
    ensures MixCycles(2, mix, loc) == [Aspirate(mix, loc), Dispense(mix, loc), Aspirate(mix, loc), Dispense(mix, loc)]
  {
    assert MixCycles(1, mix, loc) == [Aspirate(mix, loc), Dispense(mix, loc)];
  }

  /** Most liquid the tip holds during the sequence: the pre-wet volume
      `1 + mix`, or the net volume if that is larger. */
  function PeakLevel(volume: int, mix: int): int {
    if volume > 1 + mix then volume else 1 + mix
  }

  /** The tip level stays within `0 .. cap` over the first `n` commands. */
  predicate LevelsWithin(t: seq<Command>, n: nat, cap: int)
    requires n <= |t|
  {
    0 <= TipLevel(t, n) <= cap && (n == 0 || LevelsWithin(t, n - 1, cap))
  }

  lemma {:induction false} LevelsWithinAll(t: seq<Command>, n: nat, cap: int)
    requires n <= |t| && LevelsWithin(t, n, cap)
    ensures forall m :: 0 <= m <= n ==> 0 <= TipLevel(t, m) <= cap
  {
    if n > 0 {
      LevelsWithinAll(t, n - 1, cap);
    }
  }

  /** The tip level after each of the sixteen commands. */
  lemma SpelledLevels(source: Location, dest: Location, volume: int, mix: int)
    ensures var t := Spelled(source, dest, volume, mix);
      && TipLevel(t, 0) == 0
      && TipLevel(t, 1) == 0
      && TipLevel(t, 2) == 1
      && TipLevel(t, 3) == 1 + mix
      && TipLevel(t, 4) == 1
      && TipLevel(t, 5) == 1 + mix
      && TipLevel(t, 6) == 1
      && TipLevel(t, 7) == volume
      && TipLevel(t, 8) == 1
      && TipLevel(t, 9) == 1 + mix
      && TipLevel(t, 10) == 1
      && TipLevel(t, 11) == 1 + mix
      && TipLevel(t, 12) == 1
      && TipLevel(t, 13) == 0
      && TipLevel(t, 14) == 0
      && TipLevel(t, 15) == 0
      && TipLevel(t, 16) == 0
  {
  }

  /** Volume bookkeeping in the tip: it never goes negative, never exceeds
      `PeakLevel` and reaches it, is back to zero when the blow-out comes,
      and ends empty. */
  lemma PrimitivesTipLevels(source: Location, dest: Location, volume: int, mix: int)
    requires volume >= 1 && mix >= 0
    ensures var t := TransferWithPrimitives(source, dest, volume, mix);
      && (forall n :: 0 <= n <= |t| ==> 0 <= TipLevel(t, n) <= PeakLevel(volume, mix))
      && (exists n :: 0 <= n <= |t| && TipLevel(t, n) == PeakLevel(volume, mix))
      && t[13] == BlowOut(dest) && TipLevel(t, 13) == 0
      && TipLevel(t, |t|) == 0
  {
    var t := Spelled(source, dest, volume, mix);
    var cap := PeakLevel(volume, mix);
    PrimitivesInOrder(source, dest, volume, mix);
    SpelledLevels(source, dest, volume, mix);
    // Each assertion unfolds `LevelsWithin` two commands further.
    assert LevelsWithin(t, 0, cap);
    assert LevelsWithin(t, 2, cap);
    assert LevelsWithin(t, 4, cap);
    assert LevelsWithin(t, 6, cap);
    assert LevelsWithin(t, 8, cap);
    assert LevelsWithin(t, 10, cap);
    assert LevelsWithin(t, 12, cap);
    assert LevelsWithin(t, 14, cap);
    assert LevelsWithin(t, 16, cap);
    LevelsWithinAll(t, 16, cap);
    if volume > 1 + mix {
      assert TipLevel(t, 7) == cap;
    } else {
      assert TipLevel(t, 3) == cap;
    }
  }

  /** With the defaults the tip holds at most 20 units, the P20's capacity,
      and exactly 20 during the pre-wet. */
  lemma DefaultPrimitivesFitTip(source: Location, dest: Location)
    ensures var t := TransferWithPrimitives(source, dest, DefaultVolume, DefaultMix);
      forall n :: 0 <= n <= |t| ==> 0 <= TipLevel(t, n) <= TipCapacity
    ensures PeakLevel(DefaultVolume, DefaultMix) == TipCapacity
  {
    PrimitivesTipLevels(source, dest, DefaultVolume, DefaultMix);
  }

  /** Conservation: the sequence takes exactly `volume` out of the source,
      leaves exactly `volume` in the destination, and touches nothing else. */
  lemma PrimitivesMoveVolume(source: Location, dest: Location, volume: int, mix: int, other: Location)
    requires source != dest
    requires other != source && other != dest
    ensures var t := TransferWithPrimitives(source, dest, volume, mix);
      && Taken(t, source) == volume
      && Taken(t, dest) == -volume
      && Taken(t, other) == 0
  {
    var t := TransferWithPrimitives(source, dest, volume, mix);
    PrimitivesInOrder(source, dest, volume, mix);
    assert Drawn(t, 0, source) == 0;
    assert Drawn(t, 1, source) == 0;
    assert Drawn(t, 2, source) == 1;
    assert Drawn(t, 3, source) == 1 + mix;
    assert Drawn(t, 4, source) == 1;
    assert Drawn(t, 5, source) == 1 + mix;
    assert Drawn(t, 6, source) == 1;
    assert Drawn(t, 7, source) == volume;
    assert Drawn(t, 8, source) == volume;
    assert Drawn(t, 9, source) == volume;
    assert Drawn(t, 10, source) == volume;
    assert Drawn(t, 11, source) == volume;
    assert Drawn(t, 12, source) == volume;
    assert Drawn(t, 13, source) == volume;
    assert Drawn(t, 14, source) == volume;
    assert Drawn(t, 15, source) == volume;
    assert Drawn(t, 16, source) == volume;
    assert Drawn(t, 0, dest) == 0;
    assert Drawn(t, 1, dest) == 0;
    assert Drawn(t, 2, dest) == 0;
    assert Drawn(t, 3, dest) == 0;
    assert Drawn(t, 4, dest) == 0;
    assert Drawn(t, 5, dest) == 0;
    assert Drawn(t, 6, dest) == 0;
    assert Drawn(t, 7, dest) == 0;
    assert Drawn(t, 8, dest) == -(volume - 1);
    assert Drawn(t, 9, dest) == -(volume - 1) + mix;
    assert Drawn(t, 10, dest) == -(volume - 1);
    assert Drawn(t, 11, dest) == -(volume - 1) + mix;
    assert Drawn(t, 12, dest) == -(volume - 1);
    assert Drawn(t, 13, dest) == -volume;
    assert Drawn(t, 14, dest) == -volume;
    assert Drawn(t, 15, dest) == -volume;
    assert Drawn(t, 16, dest) == -volume;
    assert Drawn(t, 0, other) == 0;
    assert Drawn(t, 1, other) == 0;
    assert Drawn(t, 2, other) == 0;
    assert Drawn(t, 3, other) == 0;
    assert Drawn(t, 4, other) == 0;
    assert Drawn(t, 5, other) == 0;
    assert Drawn(t, 6, other) == 0;
    assert Drawn(t, 7, other) == 0;
    assert Drawn(t, 8, other) == 0;
    assert Drawn(t, 9, other) == 0;
    assert Drawn(t, 10, other) == 0;
    assert Drawn(t, 11, other) == 0;
    assert Drawn(t, 12, other) == 0;
    assert Drawn(t, 13, other) == 0;
    assert Drawn(t, 14, other) == 0;
    assert Drawn(t, 15, other) == 0;
    assert Drawn(t, 16, other) == 0;
  }

  /** One tip brackets the sequence: it starts with the only pick-up and
      ends with the only drop. */
  lemma PrimitivesUseOneTip(source: Location, dest: Location, volume: int, mix: int)
    ensures var t := TransferWithPrimitives(source, dest, volume, mix);
      && t[0] == PickUp && t[|t| - 1] == Drop
      && (forall i :: 0 < i < |t| ==> t[i] != PickUp)
      && (forall i :: 0 <= i < |t| - 1 ==> t[i] != Drop)
  {
    PrimitivesInOrder(source, dest, volume, mix);
  }
}
