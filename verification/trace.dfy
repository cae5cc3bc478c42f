/** The robot API seen from the protocol: the pipette commands it issues,
    the failures that abort it, and the liquid bookkeeping over a trace of
    commands. Air, blow-outs and tip handling are recorded as events and
    move no liquid. */
module Trace {
  import PlateMap

  /** A place the pipette can reach: a tube position on the reagent rack
      (`"A1"` ...), a well of the elution plate (0-based, `wells()` order),
      or a well of the qPCR plate (0-based, row-major). */
  datatype Location = Rack(position: string) | Elution(index: nat) | Plate(index: nat)

  datatype Command =
    | PickUp
    | Aspirate(volume: int, at: Location)
    | Dispense(volume: int, at: Location)
      /** `transfer(v, source, dest, new_tip='never')`, one command */
    | Transfer(volume: int, source: Location, dest: Location)
      /** blow-out at the top of a well */
    | BlowOut(above: Location)
    | AirGap(volume: int, height: int)
    | Drop

  /** Why a run stops early: an IndexError from a plate map, a KeyError
      from the reagent table, or an IndexError from the elution plate. */
  datatype Failure =
    | BadMap(error: PlateMap.GridError)
    | UnknownLabel(name: string)
    | ElutionWellOutOfRange(number: nat)

  datatype Outcome = Completed | Aborted(failure: Failure)

  /** The commands a run issued, and whether it finished or stopped. */
  datatype Run = Run(trace: seq<Command>, outcome: Outcome)

  /** Run `first`, then `next` unless `first` stopped. */
  function AndThen(first: Run, next: Run): Run {
    if first.outcome.Aborted? then first
    else Run(first.trace + next.trace, next.outcome)
  }

  /** Change of the liquid held in the tip caused by one command. */
  function TipDelta(c: Command): int {
    match c
    case Aspirate(v, _) => v
    case Dispense(v, _) => -v
    case _ => 0
  }

  /** Liquid in the tip after the first `n` commands of `t`. */
  function TipLevel(t: seq<Command>, n: nat): int
    requires n <= |t|
  {
    if n == 0 then 0 else TipLevel(t, n - 1) + TipDelta(t[n - 1])
  }

  /** Net liquid one command takes out of `loc` (negative when it adds). */
  function DrawnBy(c: Command, loc: Location): int {
    match c
    case Aspirate(v, at) => if at == loc then v else 0
    case Dispense(v, at) => if at == loc then -v else 0
    case Transfer(v, source, dest) =>
      (if source == loc then v else 0) - (if dest == loc then v else 0)
    case _ => 0
  }

  /** Net liquid the first `n` commands of `t` take out of `loc`. */
  function Drawn(t: seq<Command>, n: nat, loc: Location): int
    requires n <= |t|
  {
    if n == 0 then 0 else Drawn(t, n - 1, loc) + DrawnBy(t[n - 1], loc)
  }

  /** Net liquid the whole trace takes out of `loc`. */
  function Taken(t: seq<Command>, loc: Location): int {
    Drawn(t, |t|, loc)
  }

  /** Commands appended later do not change what the earlier ones took. */
  lemma {:induction false} DrawnPrefix(a: seq<Command>, b: seq<Command>, n: nat, loc: Location)
    requires n <= |a|
    ensures Drawn(a + b, n, loc) == Drawn(a, n, loc)
  {
    if n > 0 {
      DrawnPrefix(a, b, n - 1, loc);
      assert (a + b)[n - 1] == a[n - 1];
    }
  }

  lemma {:induction false} DrawnAppend(a: seq<Command>, b: seq<Command>, m: nat, loc: Location)
    requires m <= |b|
    ensures Drawn(a + b, |a| + m, loc) == Taken(a, loc) + Drawn(b, m, loc)
  {
    if m == 0 {
      DrawnPrefix(a, b, |a|, loc);
    } else {
      DrawnAppend(a, b, m - 1, loc);
      assert (a + b)[|a| + m - 1] == b[m - 1];
    }
  }

  /** Net liquid taken is additive over consecutive stretches of a trace. */
  lemma TakenAppend(a: seq<Command>, b: seq<Command>, loc: Location)
    ensures Taken(a + b, loc) == Taken(a, loc) + Taken(b, loc)
  {
    DrawnAppend(a, b, |b|, loc);
  }

  /** The `Transfer` commands of `t` whose destination is qPCR well `well`,
      in order. */
  function TransfersInto(t: seq<Command>, well: nat): seq<Command> {
    if |t| == 0 then []
    else (if t[0].Transfer? && t[0].dest == Plate(well) then [t[0]] else []) + TransfersInto(t[1..], well)
  }

  lemma {:induction false} TransfersIntoAppend(a: seq<Command>, b: seq<Command>, well: nat)
    ensures TransfersInto(a + b, well) == TransfersInto(a, well) + TransfersInto(b, well)
  {
    if |a| > 0 {
      assert (a + b)[1..] == a[1..] + b;
      TransfersIntoAppend(a[1..], b, well);
    } else {
      assert a + b == b;
    }
  }

  /** A command found at exactly one position occurs once. */
  lemma OccursOnce(t: seq<Command>, c: Command, p: nat)
    requires p < |t| && t[p] == c
    requires forall i :: 0 <= i < |t| && i != p ==> t[i] != c
    ensures multiset(t)[c] == 1
  {
    assert t == t[..p] + [c] + t[p + 1..];
    assert c !in t[..p];
    assert c !in t[p + 1..];
  }

  /** A stretch inside the second part of a concatenation. */
  lemma SliceAfter(a: seq<Command>, b: seq<Command>, lo: nat, hi: nat)
    requires |a| <= lo <= hi <= |a| + |b|
    ensures (a + b)[lo..hi] == b[lo - |a|..hi - |a|]
  {
  }

  /** Occurrences add up over consecutive stretches of a trace. */
  lemma CountAppend(a: seq<Command>, b: seq<Command>, c: Command)
    ensures multiset(a + b)[c] == multiset(a)[c] + multiset(b)[c]
  {
    assert multiset(a + b) == multiset(a) + multiset(b);
  }

  /** Total volume of a list of commands' `Transfer`s. */
  function TransferredVolume(t: seq<Command>): int {
    if |t| == 0 then 0
    else (if t[0].Transfer? then t[0].volume else 0) + TransferredVolume(t[1..])
  }

  /** Liquid moves only by `Transfer`s out of the reagent rack: no bare
      aspirate or dispense, and no transfer out of a plate well. */
  predicate RackTransfersOnly(t: seq<Command>) {
    forall i :: 0 <= i < |t| ==> !t[i].Aspirate? && !t[i].Dispense? && (t[i].Transfer? ==> t[i].source.Rack?)
  }

  /** In such a trace a qPCR well gains exactly what is transferred into it. */
  lemma {:induction false} RackTransfersTaken(t: seq<Command>, well: nat)
    requires RackTransfersOnly(t)
    ensures Taken(t, Plate(well)) == -TransferredVolume(TransfersInto(t, well))
  {
    if |t| > 0 {
      var head := [t[0]];
      var into := if t[0].Transfer? && t[0].dest == Plate(well) then [t[0]] else [];
      assert t == head + t[1..];
      assert RackTransfersOnly(t[1..]) by {
        forall i | 0 <= i < |t[1..]| ensures !t[1..][i].Aspirate? {
          assert t[1..][i] == t[i + 1];
        }
      }
      RackTransfersTaken(t[1..], well);
      TakenAppend(head, t[1..], Plate(well));
      assert Taken(head, Plate(well)) == DrawnBy(t[0], Plate(well)) by {
        assert Drawn(head, 0, Plate(well)) == 0;
      }
      assert TransfersInto(t, well) == into + TransfersInto(t[1..], well);
      assert TransferredVolume(into + TransfersInto(t[1..], well))
        == TransferredVolume(into) + TransferredVolume(TransfersInto(t[1..], well)) by {
        if into != [] {
          assert (into + TransfersInto(t[1..], well))[1..] == TransfersInto(t[1..], well);
        } else {
          assert into + TransfersInto(t[1..], well) == TransfersInto(t[1..], well);
        }
      }
    }
  }

  lemma RackTransfersOnlyAppend(a: seq<Command>, b: seq<Command>)
    requires RackTransfersOnly(a) && RackTransfersOnly(b)
    ensures RackTransfersOnly(a + b)
  {
    forall i | 0 <= i < |a + b| ensures !(a + b)[i].Aspirate? {
      if i >= |a| {
        assert (a + b)[i] == b[i - |a|];
      }
    }
  }
}
