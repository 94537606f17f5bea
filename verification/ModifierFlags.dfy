/** Modifier sides, the window-server flag word that describes them, and the
    order in which side changes are posted
    (input-emulation/src/macos_keyboard.rs). Every bit field of that file (sides,
    kinds, the 32-bit flag word) is the set of its one bits: `|` is `+`, `&` is
    `*`, `& !` is `-`, and a single-bit test is `in`. */
module ModifierFlags {

  datatype ModifierKind = Shift | Control | Alternate | Command

  datatype ModifierSide =
    | LeftShift | RightShift
    | LeftControl | RightControl
    | LeftOption | RightOption
    | LeftCommand | RightCommand
  {
    function Kind(): ModifierKind {
      match this
      case LeftShift | RightShift => Shift
      case LeftControl | RightControl => Control
      case LeftOption | RightOption => Alternate
      case LeftCommand | RightCommand => Command
    }

    function Sibling(): ModifierSide {
      match this
      case LeftShift => RightShift
      case RightShift => LeftShift
      case LeftControl => RightControl
      case RightControl => LeftControl
      case LeftOption => RightOption
      case RightOption => LeftOption
      case LeftCommand => RightCommand
      case RightCommand => LeftCommand
    }

    predicate IsDefaultSide() {
      LeftShift? || LeftControl? || LeftOption? || LeftCommand?
    }

    /** The fixed macOS virtual key code of this side. */
    function KeyCode(): KeyCode {
      match this
      case LeftShift => 0x38
      case RightShift => 0x3C
      case LeftControl => 0x3B
      case RightControl => 0x3E
      case LeftOption => 0x3A
      case RightOption => 0x3D
      case LeftCommand => 0x37
      case RightCommand => 0x36
    }

    /** The bit shared by both sides of one key: 0x0002_0000 is bit 17, and so on. */
    function GeneralBit(): Bit {
      match Kind()
      case Shift => 17
      case Control => 18
      case Alternate => 19
      case Command => 20
    }

    /** The device-dependent bit of this side alone: 0x0000_0001 is bit 0,
        0x0000_2000 is bit 13. */
    function DeviceBit(): Bit {
      match this
      case LeftControl => 0
      case LeftShift => 1
      case RightShift => 2
      case LeftCommand => 3
      case RightCommand => 4
      case LeftOption => 5
      case RightOption => 6
      case RightControl => 13
    }
  }

  type KeyCode = code: int | 0 <= code < 0x1_0000
  type Bit = b: int | 0 <= b < 32
  type Flags = set<Bit>
  type Sides = set<ModifierSide>
  type Kinds = set<ModifierKind>

  /** Every side, in the order every loop over sides visits them. */
  const ALL: seq<ModifierSide> :=
    [LeftShift, RightShift, LeftControl, RightControl, LeftOption, RightOption, LeftCommand, RightCommand]

  const ALPHA_SHIFT: Bit := 16

  /** Every bit this backend writes. */
  const MANAGED: Flags := {ALPHA_SHIFT, 17, 18, 19, 20, 0, 1, 2, 3, 4, 5, 6, 13}

  lemma {:induction false} AllIsComplete(side: ModifierSide) returns (i: nat)
    ensures i < |ALL| && ALL[i] == side
    ensures forall j :: 0 <= j < |ALL| && ALL[j] == side ==> j == i
  {
    match side
    case LeftShift => i := 0;
    case RightShift => i := 1;
    case LeftControl => i := 2;
    case RightControl => i := 3;
    case LeftOption => i := 4;
    case RightOption => i := 5;
    case LeftCommand => i := 6;
    case RightCommand => i := 7;
  }

  // ---------------------------------------------------------------- flags

  /** The window server's flag value for a set of held sides. */
  function FlagsFor(sides: Sides): Flags {
    (set side | side in sides :: side.GeneralBit()) + (set side | side in sides :: side.DeviceBit())
  }

  /** The bits the local keyboard still holds: whatever the remote does not
      explain, plus the shared bit of every side that is distinguishably local. */
  function LocallyHeldFlags(localFlags: Flags, remoteFlags: Flags): Flags {
    var local := (localFlags - remoteFlags) * MANAGED;
    local + set side: ModifierSide | side in ALL && side.DeviceBit() in local :: side.GeneralBit()
  }

  /** A side no longer shows in a flag word: its own bit is clear, and the
      shared bit is clear or explained by the other side. */
  predicate ShowsReleased(observed: Flags, side: ModifierSide) {
    side.DeviceBit() !in observed
    && (side.GeneralBit() in observed ==> side.Sibling().DeviceBit() in observed)
  }

  lemma {:induction false} BitsIdentifySides(a: ModifierSide, b: ModifierSide)
    ensures a.DeviceBit() == b.DeviceBit() <==> a == b
    ensures a.GeneralBit() == b.GeneralBit() <==> a == b || a == b.Sibling()
    ensures a.DeviceBit() != b.GeneralBit()
    ensures a.DeviceBit() in MANAGED && a.GeneralBit() in MANAGED
    ensures a in ALL
  {
    var _ := AllIsComplete(a);
  }

  lemma {:induction false} FlagsForBits(sides: Sides, side: ModifierSide)
    ensures side.DeviceBit() in FlagsFor(sides) <==> side in sides
    ensures side.GeneralBit() in FlagsFor(sides) <==> side in sides || side.Sibling() in sides
    ensures FlagsFor(sides) <= MANAGED && ALPHA_SHIFT !in FlagsFor(sides)
  {
    forall other: ModifierSide ensures
      && (side.DeviceBit() == other.DeviceBit() <==> side == other)
      && (side.GeneralBit() == other.GeneralBit() <==> side == other || side.Sibling() == other)
      && side.DeviceBit() != other.GeneralBit() && other.DeviceBit() != side.GeneralBit()
      && other.DeviceBit() != ALPHA_SHIFT && other.GeneralBit() != ALPHA_SHIFT
      && other.DeviceBit() in MANAGED && other.GeneralBit() in MANAGED
    {
      BitsIdentifySides(other, side);
      BitsIdentifySides(side, other);
    }
  }

  /** The words of single sides, as the window server's headers number them, and
      the key codes they go with. */
  lemma {:induction false} SideWords()
    ensures FlagsFor({LeftShift}) == {17, 1} && LeftShift.KeyCode() == 56
    ensures FlagsFor({RightShift}) == {17, 2} && RightShift.KeyCode() == 60
    ensures FlagsFor({LeftControl}) == {18, 0} && LeftControl.KeyCode() == 59
    ensures FlagsFor({RightControl}) == {18, 13} && RightControl.KeyCode() == 62
    ensures FlagsFor({LeftOption}) == {19, 5} && LeftOption.KeyCode() == 58
    ensures FlagsFor({RightOption}) == {19, 6} && RightOption.KeyCode() == 61
    ensures FlagsFor({LeftCommand}) == {20, 3} && LeftCommand.KeyCode() == 55
    ensures FlagsFor({RightCommand}) == {20, 4} && RightCommand.KeyCode() == 54
  {
    forall side: ModifierSide ensures FlagsFor({side}) == {side.GeneralBit(), side.DeviceBit()} {
      assert side in {side};
    }
  }

  lemma {:induction false} ManagedBit(bit: Bit) returns (side: ModifierSide)
    requires bit in MANAGED && bit != ALPHA_SHIFT
    ensures bit == side.DeviceBit() || bit == side.GeneralBit()
  {
    if bit == 17 { side := LeftShift; }
    else if bit == 18 { side := LeftControl; }
    else if bit == 19 { side := LeftOption; }
    else if bit == 20 { side := LeftCommand; }
    else if bit == 0 { side := LeftControl; }
    else if bit == 1 { side := LeftShift; }
    else if bit == 2 { side := RightShift; }
    else if bit == 3 { side := LeftCommand; }
    else if bit == 4 { side := RightCommand; }
    else if bit == 5 { side := LeftOption; }
    else if bit == 6 { side := RightOption; }
    else { side := RightControl; }
  }

  lemma {:induction false} SameFlags(x: Flags, y: Flags)
    requires x <= MANAGED && y <= MANAGED
    requires ALPHA_SHIFT in x <==> ALPHA_SHIFT in y
    requires forall side: ModifierSide :: side.DeviceBit() in x <==> side.DeviceBit() in y
    requires forall side: ModifierSide :: side.GeneralBit() in x <==> side.GeneralBit() in y
    ensures x == y
  {
    forall bit: Bit ensures bit in x <==> bit in y {
      if bit in MANAGED && bit != ALPHA_SHIFT {
        var side := ManagedBit(bit);
      }
    }
  }

  lemma {:induction false} LocallyHeldBits(localFlags: Flags, remoteFlags: Flags, side: ModifierSide)
    ensures var local := localFlags - remoteFlags;
      var held := LocallyHeldFlags(localFlags, remoteFlags);
      && (side.DeviceBit() in held <==> side.DeviceBit() in local)
      && (side.GeneralBit() in held <==>
            side.GeneralBit() in local || side.DeviceBit() in local || side.Sibling().DeviceBit() in local)
      && (ALPHA_SHIFT in held <==> ALPHA_SHIFT in local)
      && held <= MANAGED
  {
    forall other: ModifierSide ensures
      && (side.GeneralBit() == other.GeneralBit() <==> side == other || side.Sibling() == other)
      && side.DeviceBit() != other.GeneralBit() && other.GeneralBit() != ALPHA_SHIFT
      && other.DeviceBit() in MANAGED && other.GeneralBit() in MANAGED && other in ALL
    {
      BitsIdentifySides(side, other);
      BitsIdentifySides(other, side);
    }
  }

  lemma {:induction false} FlagAlgebraAt(a: Sides, b: Sides, side: ModifierSide)
    ensures var held := LocallyHeldFlags(FlagsFor(a + b), FlagsFor(b));
      && (side.DeviceBit() in held <==> side.DeviceBit() in FlagsFor(a - b))
      && (side.GeneralBit() in held <==> side.GeneralBit() in FlagsFor(a - b))
      && held <= MANAGED && ALPHA_SHIFT !in held
  {
    LocallyHeldBits(FlagsFor(a + b), FlagsFor(b), side);
    FlagsForBits(a + b, side); FlagsForBits(b, side); FlagsForBits(a - b, side);
    FlagsForBits(a + b, side.Sibling()); FlagsForBits(b, side.Sibling());
  }

  /** Removing the remote sides' flags from the combined observation leaves
      exactly the flags of the sides that only the local user holds. */
  lemma {:induction false} FlagAlgebra(a: Sides, b: Sides)
    ensures LocallyHeldFlags(FlagsFor(a + b), FlagsFor(b)) == FlagsFor(a - b)
  {
    forall side: ModifierSide { FlagAlgebraAt(a, b, side); }
    FlagAlgebraAt(a, b, LeftShift);
    FlagsForBits(a - b, LeftShift);
    SameFlags(LocallyHeldFlags(FlagsFor(a + b), FlagsFor(b)), FlagsFor(a - b));
  }

  /** The flags a release retry posts show every pending side as released,
      whatever the observation they were computed from. */
  lemma {:induction false} RetryFlagsShowReleased(observed: Flags, held: Sides, pending: Sides, side: ModifierSide)
    requires side in pending && held !! pending
    ensures ShowsReleased(LocallyHeldFlags(observed, FlagsFor(held) + FlagsFor(pending)) + FlagsFor(held), side)
  {
    LocallyHeldBits(observed, FlagsFor(held) + FlagsFor(pending), side);
    LocallyHeldBits(observed, FlagsFor(held) + FlagsFor(pending), side.Sibling());
    FlagsForBits(held, side); FlagsForBits(pending, side);
    FlagsForBits(held, side.Sibling()); FlagsForBits(pending, side.Sibling());
  }

  /** `flags_for`: folds the sides in order. */
  method ComputeFlags(sides: Sides) returns (flags: Flags)
    ensures flags == FlagsFor(sides)
  {
    flags := {};
    for i := 0 to |ALL|
      invariant flags == FlagsFor(set side | side in sides && side in ALL[..i])
    {
      if ALL[i] in sides {
        flags := flags + {ALL[i].GeneralBit(), ALL[i].DeviceBit()};
      }
    }
    forall side: ModifierSide ensures side in ALL[..|ALL|] { var _ := AllIsComplete(side); }
    assert sides == set side | side in sides && side in ALL[..|ALL|];
  }

  /** Native flags plus key-bitmap evidence, which never names a side. */
  method ObservedModifierFlags(flags: Flags, keySides: Sides) returns (observed: Flags)
    ensures forall side: ModifierSide ::
      && (side.DeviceBit() in observed <==> side.DeviceBit() in flags)
      && (side.GeneralBit() in observed <==>
            side.GeneralBit() in flags || side in keySides || side.Sibling() in keySides)
    ensures flags <= observed <= flags + MANAGED
  {
    observed := flags;
    for i := 0 to |ALL|
      invariant observed == flags + set side | side in keySides && side in ALL[..i] :: side.GeneralBit()
    {
      if ALL[i] in keySides {
        observed := observed + {ALL[i].GeneralBit()};
      }
    }
    forall side: ModifierSide ensures side in ALL[..|ALL|] { var _ := AllIsComplete(side); }
    assert observed == flags + set side | side in keySides :: side.GeneralBit();
    GeneralBitsOf(flags, keySides, observed);
  }

  /** What an observation confirms: a side is shown released exactly if its own bit
      is clear and either the other side of its kind shows, or no key of the kind is
      down in the bitmap. */
  lemma {:induction false} ReleaseIsShownExactly(shown: Sides, keySides: Sides, side: ModifierSide)
    ensures var observed := FlagsFor(shown) + set other | other in keySides :: other.GeneralBit();
      ShowsReleased(observed, side) <==>
        side !in shown
        && (side.Sibling() in shown || (side !in keySides && side.Sibling() !in keySides))
  {
    var observed := FlagsFor(shown) + set other | other in keySides :: other.GeneralBit();
    GeneralBitsOf(FlagsFor(shown), keySides, observed);
    FlagsForBits(shown, side);
    FlagsForBits(shown, side.Sibling());
  }

  lemma {:induction false} GeneralBitsOf(flags: Flags, keySides: Sides, observed: Flags)
    requires observed == flags + set side | side in keySides :: side.GeneralBit()
    ensures forall side: ModifierSide ::
      && (side.DeviceBit() in observed <==> side.DeviceBit() in flags)
      && (side.GeneralBit() in observed <==>
            side.GeneralBit() in flags || side in keySides || side.Sibling() in keySides)
    ensures observed <= flags + MANAGED
  {
    forall side: ModifierSide, other: ModifierSide
      ensures side.DeviceBit() != other.GeneralBit() && other.GeneralBit() in MANAGED
      ensures side.GeneralBit() == other.GeneralBit() <==> side == other || side == other.Sibling()
    {
      BitsIdentifySides(side, other);
      BitsIdentifySides(other, side);
    }
  }

  // ------------------------------------------------------- wanted sides

  function KindsOf(sides: Sides): Kinds {
    set side | side in sides :: side.Kind()
  }

  /** Known sides of a depressed kind, and the left side of a depressed kind of
      which no side is known. */
  function DesiredSides(aggregate: Kinds, known: Sides): Sides {
    (set side | side in known && side.Kind() in aggregate)
    + set side: ModifierSide | side in ALL && side.IsDefaultSide() && side.Kind() in aggregate
        && side !in known && side.Sibling() !in known
  }

  method ComputeDesiredSides(aggregate: Kinds, known: Sides) returns (desired: Sides)
    ensures desired == DesiredSides(aggregate, known)
  {
    desired := {};
    for i := 0 to |ALL|
      invariant desired == set side | side in known && side.Kind() in aggregate && side in ALL[..i]
    {
      if ALL[i] in known && ALL[i].Kind() in aggregate {
        desired := desired + {ALL[i]};
      }
    }
    ghost var kept := desired;
    forall side: ModifierSide ensures side in ALL[..|ALL|] { var _ := AllIsComplete(side); }
    assert kept == set side | side in known && side.Kind() in aggregate;
    for i := 0 to |ALL|
      invariant desired == kept + set side | side in ALL[..i] && side.IsDefaultSide()
        && side.Kind() in aggregate && side !in known && side.Sibling() !in known
    {
      var side := ALL[i];
      if !side.IsDefaultSide() || side.Kind() !in aggregate {
        continue;
      }
      if side in desired || side.Sibling() in desired {
        assert side !in ALL[..i] by { DistinctAt(i); }
        continue;
      }
      desired := desired + {side};
    }
    assert ALL[..|ALL|] == ALL;
  }

  lemma {:induction false} DistinctAt(i: nat)
    requires i < |ALL|
    ensures ALL[i] !in ALL[..i] && ALL[i] !in ALL[i + 1..]
  {
    var j := AllIsComplete(ALL[i]);
  }

  /** The wanted sides show exactly the aggregate's kinds, keep every known
      side of a depressed kind, and invent at most the left side of a kind. */
  lemma {:induction false} DesiredSidesMatchAggregate(aggregate: Kinds, known: Sides)
    ensures KindsOf(DesiredSides(aggregate, known)) == aggregate
    ensures forall side :: side in known && side.Kind() in aggregate ==> side in DesiredSides(aggregate, known)
    ensures forall side :: side in DesiredSides(aggregate, known) && side !in known ==>
      side.IsDefaultSide() && side.Sibling() !in DesiredSides(aggregate, known)
  {
    var desired := DesiredSides(aggregate, known);
    forall kind | kind in aggregate ensures kind in KindsOf(desired) {
      var left := match kind
        case Shift => LeftShift case Control => LeftControl
        case Alternate => LeftOption case Command => LeftCommand;
      assert left in ALL && left.Kind() == kind && left.Sibling().Kind() == kind;
      if left in known {
        assert left in desired;
      } else if left.Sibling() in known {
        assert left.Sibling() in desired;
      } else {
        assert left in desired;
      }
    }
  }

  // --------------------------------------------------------------- plans

  /** One posted transition and the full side set in effect after it. */
  datatype PlanStep = PlanStep(side: ModifierSide, next: Sides)

  function ReleasePlan(order: seq<ModifierSide>, held: Sides, desired: Sides, current: Sides): seq<PlanStep> {
    if order == [] then []
    else if order[0] in held && order[0] !in desired then
      [PlanStep(order[0], current - {order[0]})] + ReleasePlan(order[1..], held, desired, current - {order[0]})
    else ReleasePlan(order[1..], held, desired, current)
  }

  function PressPlan(order: seq<ModifierSide>, held: Sides, desired: Sides, current: Sides): seq<PlanStep> {
    if order == [] then []
    else if order[0] in desired && order[0] !in held then
      [PlanStep(order[0], current + {order[0]})] + PressPlan(order[1..], held, desired, current + {order[0]})
    else PressPlan(order[1..], held, desired, current)
  }

  function EndOf(from: Sides, plan: seq<PlanStep>): Sides {
    if plan == [] then from else plan[|plan| - 1].next
  }

  function TransitionsOver(order: seq<ModifierSide>, held: Sides, desired: Sides): seq<PlanStep> {
    var releases := ReleasePlan(order, held, desired, held);
    releases + PressPlan(order, held, desired, EndOf(held, releases))
  }

  function Transitions(held: Sides, desired: Sides): seq<PlanStep> {
    TransitionsOver(ALL, held, desired)
  }

  method ComputeTransitions(held: Sides, desired: Sides) returns (steps: seq<PlanStep>)
    ensures steps == Transitions(held, desired)
  {
    steps := [];
    var current := held;
    for i := 0 to |ALL|
      invariant steps + ReleasePlan(ALL[i..], held, desired, current) == ReleasePlan(ALL, held, desired, held)
      invariant current == EndOf(held, steps)
    {
      var side := ALL[i];
      StepReleasePlan(ALL[i..], held, desired, current, steps);
      assert ALL[i..][1..] == ALL[i + 1..];
      if side in held && side !in desired {
        current := current - {side};
        steps := steps + [PlanStep(side, current)];
      }
    }
    ghost var releases, start := steps, current;
    assert releases == ReleasePlan(ALL, held, desired, held);
    for i := 0 to |ALL|
      invariant steps + PressPlan(ALL[i..], held, desired, current) == releases + PressPlan(ALL, held, desired, start)
    {
      var side := ALL[i];
      StepPressPlan(ALL[i..], held, desired, current, steps);
      assert ALL[i..][1..] == ALL[i + 1..];
      if side in desired && side !in held {
        current := current + {side};
        steps := steps + [PlanStep(side, current)];
      }
    }
    assert ALL[|ALL|..] == [];
    assert steps == releases + PressPlan(ALL, held, desired, start);
  }

  lemma {:induction false} StepReleasePlan(
      order: seq<ModifierSide>, held: Sides, desired: Sides, current: Sides, steps: seq<PlanStep>)
    requires order != []
    ensures steps + ReleasePlan(order, held, desired, current) ==
      if order[0] in held && order[0] !in desired
      then steps + [PlanStep(order[0], current - {order[0]})]
           + ReleasePlan(order[1..], held, desired, current - {order[0]})
      else steps + ReleasePlan(order[1..], held, desired, current)
  {
  }

  lemma {:induction false} StepPressPlan(
      order: seq<ModifierSide>, held: Sides, desired: Sides, current: Sides, steps: seq<PlanStep>)
    requires order != []
    ensures steps + PressPlan(order, held, desired, current) ==
      if order[0] in desired && order[0] !in held
      then steps + [PlanStep(order[0], current + {order[0]})]
           + PressPlan(order[1..], held, desired, current + {order[0]})
      else steps + PressPlan(order[1..], held, desired, current)
  {
  }

  /** Every step changes exactly the side it names. */
  predicate Chain(from: Sides, plan: seq<PlanStep>)
    decreases |plan|
  {
    plan == [] ||
    (&& plan[0].next == (if plan[0].side in from then from - {plan[0].side} else from + {plan[0].side})
     && Chain(plan[0].next, plan[1..]))
  }

  lemma {:induction false} ChainAppend(from: Sides, left: seq<PlanStep>, right: seq<PlanStep>)
    requires Chain(from, left) && Chain(EndOf(from, left), right)
    ensures Chain(from, left + right)
    ensures EndOf(from, left + right) == EndOf(EndOf(from, left), right)
    decreases |left|
  {
    if left == [] {
      assert left + right == right;
    } else {
      assert (left + right)[1..] == left[1..] + right;
      ChainAppend(left[0].next, left[1..], right);
    }
  }

  predicate Distinct(order: seq<ModifierSide>) {
    order == [] || (order[0] !in order[1..] && Distinct(order[1..]))
  }

  function Among(order: seq<ModifierSide>, sides: Sides): Sides {
    set side | side in sides && side in order
  }

  lemma {:induction false} AmongRest(order: seq<ModifierSide>, sides: Sides)
    requires order != [] && Distinct(order)
    ensures order[0] !in Among(order[1..], sides)
    ensures Among(order, sides) == Among(order[1..], sides) + if order[0] in sides then {order[0]} else {}
  {
  }

  predicate AllReleases(plan: seq<PlanStep>, surplus: Sides) {
    forall k :: 0 <= k < |plan| ==> plan[k].side in surplus && plan[k].side !in plan[k].next
  }

  predicate AllPresses(plan: seq<PlanStep>, missing: Sides) {
    forall k :: 0 <= k < |plan| ==> plan[k].side in missing && plan[k].side in plan[k].next
  }

  lemma {:induction false} AllReleasesMore(plan: seq<PlanStep>, surplus: Sides)
    requires plan != [] && AllReleases(plan[1..], surplus) && plan[0].side in surplus && plan[0].side !in plan[0].next
    ensures AllReleases(plan, surplus)
  {
    assert forall k :: 0 < k < |plan| ==> plan[k] == plan[1..][k - 1];
  }

  lemma {:induction false} AllPressesMore(plan: seq<PlanStep>, missing: Sides)
    requires plan != [] && AllPresses(plan[1..], missing) && plan[0].side in missing && plan[0].side in plan[0].next
    ensures AllPresses(plan, missing)
  {
    assert forall k :: 0 < k < |plan| ==> plan[k] == plan[1..][k - 1];
  }

  lemma {:induction false} ReleasesAreOrdered(order: seq<ModifierSide>, held: Sides, desired: Sides, current: Sides)
    requires Distinct(order)
    requires current == held * desired + Among(order, held - desired)
    ensures var plan := ReleasePlan(order, held, desired, current);
      && |plan| == |Among(order, held - desired)|
      && AllReleases(plan, held - desired)
      && Chain(current, plan) && EndOf(current, plan) == held * desired
    decreases |order|
  {
    if order != [] {
      var side := order[0];
      AmongRest(order, held - desired);
      if side in held && side !in desired {
        assert current - {side} == held * desired + Among(order[1..], held - desired);
        ReleasesAreOrdered(order[1..], held, desired, current - {side});
        var tail := ReleasePlan(order[1..], held, desired, current - {side});
        assert ReleasePlan(order, held, desired, current)[1..] == tail;
        AllReleasesMore(ReleasePlan(order, held, desired, current), held - desired);
      } else {
        ReleasesAreOrdered(order[1..], held, desired, current);
      }
    }
  }

  lemma {:induction false} PressesAreOrdered(order: seq<ModifierSide>, held: Sides, desired: Sides, current: Sides)
    requires Distinct(order)
    requires current == desired - Among(order, desired - held)
    ensures var plan := PressPlan(order, held, desired, current);
      && |plan| == |Among(order, desired - held)|
      && AllPresses(plan, desired - held)
      && Chain(current, plan) && EndOf(current, plan) == desired
    decreases |order|
  {
    if order != [] {
      var side := order[0];
      AmongRest(order, desired - held);
      if side in desired && side !in held {
        assert current + {side} == desired - Among(order[1..], desired - held);
        PressesAreOrdered(order[1..], held, desired, current + {side});
        var tail := PressPlan(order[1..], held, desired, current + {side});
        assert PressPlan(order, held, desired, current)[1..] == tail;
        AllPressesMore(PressPlan(order, held, desired, current), desired - held);
      } else {
        PressesAreOrdered(order[1..], held, desired, current);
      }
    }
  }

  lemma {:induction false} AllSidesAmong(sides: Sides)
    ensures Among(ALL, sides) == sides && Distinct(ALL)
  {
    forall side: ModifierSide ensures side in ALL { var _ := AllIsComplete(side); }
    assert Distinct(ALL[7..]) && Distinct(ALL[6..]) && Distinct(ALL[5..]) && Distinct(ALL[4..]);
    assert Distinct(ALL[3..]) && Distinct(ALL[2..]) && Distinct(ALL[1..]);
  }

  lemma {:induction false} PlanOver(order: seq<ModifierSide>, held: Sides, desired: Sides)
    requires Distinct(order)
    requires Among(order, held - desired) == held - desired && Among(order, desired - held) == desired - held
    ensures IsMinimalPlan(held, desired, TransitionsOver(order, held, desired))
  {
    assert held == held * desired + (held - desired);
    assert held * desired == desired - (desired - held);
    ReleasesAreOrdered(order, held, desired, held);
    PressesAreOrdered(order, held, desired, held * desired);
    JoinPlans(held, desired, ReleasePlan(order, held, desired, held), PressPlan(order, held, desired, held * desired));
  }

  lemma {:induction false} JoinPlans(held: Sides, desired: Sides, releases: seq<PlanStep>, presses: seq<PlanStep>)
    requires |releases| == |held - desired| && |presses| == |desired - held|
    requires AllReleases(releases, held - desired) && AllPresses(presses, desired - held)
    requires Chain(held, releases) && Chain(EndOf(held, releases), presses)
    requires EndOf(EndOf(held, releases), presses) == desired
    ensures IsMinimalPlan(held, desired, releases + presses)
  {
    ChainAppend(held, releases, presses);
  }

  /** A plan that changes one side per step, first releases every surplus side
      and then presses every missing one, never touches a side in both sets,
      ends at the desired set, and has no step to spare. */
  predicate IsMinimalPlan(held: Sides, desired: Sides, plan: seq<PlanStep>) {
    var releases := |held - desired|;
    && |plan| == releases + |desired - held|
    && (forall k :: 0 <= k < releases ==> plan[k].side in held - desired && plan[k].side !in plan[k].next)
    && (forall k :: releases <= k < |plan| ==> plan[k].side in desired - held && plan[k].side in plan[k].next)
    && Chain(held, plan) && EndOf(held, plan) == desired
  }

  lemma {:induction false} PlanIsMinimal(held: Sides, desired: Sides)
    ensures IsMinimalPlan(held, desired, Transitions(held, desired))
  {
    AllSidesAmong(held - desired);
    AllSidesAmong(desired - held);
    PlanOver(ALL, held, desired);
  }
}
