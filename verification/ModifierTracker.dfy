/** The macOS backend's picture of the remote's modifiers
    (input-emulation/src/macos.rs): an aggregate X11 mask that snapshots
    replace, and the physical sides that key events identified. It feeds
    `KeyboardInjector.SyncModifiers`. */
module ModifierTracker {
  import opened ModifierFlags

  datatype XMod = ShiftMask | LockMask | ControlMask | Mod1Mask | Mod2Mask | Mod3Mask | Mod4Mask | Mod5Mask

  function MaskOf(kind: ModifierKind): XMod {
    match kind
    case Shift => ShiftMask
    case Control => ControlMask
    case Alternate => Mod1Mask
    case Command => Mod4Mask
  }

  /** Mod5 is AltGr, which the backend maps to Option. */
  function KindsIn(mods: set<XMod>): Kinds {
    (if ShiftMask in mods then {Shift} else {})
    + (if ControlMask in mods then {Control} else {})
    + (if Mod1Mask in mods || Mod5Mask in mods then {Alternate} else {})
    + (if Mod4Mask in mods then {Command} else {})
  }

  /** No identified side outlives its kind's mask bit. */
  predicate Consistent(physical: Sides, mods: set<XMod>) {
    forall side :: side in physical ==> MaskOf(side.Kind()) in mods
  }

  const GROUPS: seq<ModifierKind> := [Shift, Control, Alternate, Command]

  class ModifierTracker {
    var physical: Sides
    var modifiers: set<XMod>

    constructor ()
      ensures physical == {} && modifiers == {}
    {
      physical, modifiers := {}, {};
    }

    /** One modifier key event; the aggregate follows the remaining sides. */
    method UpdateModifiers(side: ModifierSide, pressed: bool)
      requires Consistent(physical, modifiers)
      modifies this
      ensures physical == (if pressed then old(physical) + {side} else old(physical) - {side})
      ensures Consistent(physical, modifiers)
      ensures MaskOf(side.Kind()) in modifiers <==> side in physical || side.Sibling() in physical
      ensures forall mod :: mod != MaskOf(side.Kind()) ==> (mod in modifiers <==> mod in old(modifiers))
    {
      physical := if pressed then physical + {side} else physical - {side};
      var groupHeld := side in physical || side.Sibling() in physical;
      var mask := MaskOf(side.Kind());
      modifiers := if groupHeld then modifiers + {mask} else modifiers - {mask};
    }

    /** An authoritative snapshot: it cannot name a side, so a side survives
        exactly while its own mask bit is still set. */
    method SetModifiers(depressed: set<XMod>, latched: set<XMod>, locked: set<XMod>)
      modifies this
      ensures modifiers == depressed + latched + locked
      ensures physical == set side | side in old(physical) && MaskOf(side.Kind()) in modifiers
      ensures Consistent(physical, modifiers)
    {
      modifiers := depressed + latched + locked;
      for i := 0 to |GROUPS|
        invariant modifiers == depressed + latched + locked
        invariant physical == set side |
          side in old(physical) && (side.Kind() in GROUPS[..i] ==> MaskOf(side.Kind()) in modifiers)
      {
        var kind := GROUPS[i];
        if MaskOf(kind) !in modifiers {
          physical := set side | side in physical && side.Kind() != kind;
        }
      }
      forall kind: ModifierKind ensures kind in GROUPS[..|GROUPS|] {
        var i := match kind case Shift => 0 case Control => 1 case Alternate => 2 case Command => 3;
        assert GROUPS[..|GROUPS|][i] == kind;
      }
    }

    method ToggleCapsLock()
      requires Consistent(physical, modifiers)
      modifies this`modifiers
      ensures Consistent(physical, modifiers)
      ensures LockMask in modifiers <==> LockMask !in old(modifiers)
      ensures forall mod :: mod != LockMask ==> (mod in modifiers <==> mod in old(modifiers))
    {
      modifiers := if LockMask in modifiers then modifiers - {LockMask} else modifiers + {LockMask};
    }
  }

  /** What a consistent tracker makes the injector hold: every identified side,
      and exactly the kinds the aggregate reports. */
  lemma {:induction false} EveryIdentifiedSideIsWanted(physical: Sides, mods: set<XMod>)
    requires Consistent(physical, mods)
    ensures physical <= DesiredSides(KindsIn(mods), physical)
    ensures KindsOf(DesiredSides(KindsIn(mods), physical)) == KindsIn(mods)
    ensures forall side :: side in DesiredSides(KindsIn(mods), physical) - physical ==>
      side.IsDefaultSide() && side.Sibling() !in physical
  {
    DesiredSidesMatchAggregate(KindsIn(mods), physical);
    forall side | side in physical ensures side.Kind() in KindsIn(mods) {
      assert MaskOf(side.Kind()) in mods;
    }
  }

  function AfterSnapshot(physical: Sides, snapshot: set<XMod>): Sides {
    set side | side in physical && MaskOf(side.Kind()) in snapshot
  }

  /** A known side is kept while its kind stays depressed, except when Option is
      reported through Mod5 alone: then, and only then, known Option sides are
      forgotten although the kind is still down. */
  lemma {:induction false} KnownSideLostOnlyUnderMod5(physical: Sides, snapshot: set<XMod>, side: ModifierSide)
    requires side in physical && side.Kind() in KindsIn(snapshot)
    ensures side !in AfterSnapshot(physical, snapshot) <==>
      side.Kind().Alternate? && Mod1Mask !in snapshot && Mod5Mask in snapshot
  {
  }

  /** Right Option identified, then an AltGr-only snapshot: the injector is
      asked to hold left Option instead. */
  lemma {:induction false} AltGrSnapshotMigratesToLeftOption()
    ensures var kept := AfterSnapshot({RightOption}, {Mod5Mask});
      kept == {} && DesiredSides(KindsIn({Mod5Mask}), kept) == {LeftOption}
  {
    var _ := AllIsComplete(LeftOption);
    DesiredSidesMatchAggregate(KindsIn({Mod5Mask}), {});
    forall side | side in DesiredSides(KindsIn({Mod5Mask}), {}) ensures side == LeftOption {
      assert side.Kind() in KindsIn({Mod5Mask});
    }
  }
}
