/** What the releases of the keyboard injector hand to the sink, judged by the
    attempts alone: everything recorded as down is tried, on both paths if the
    first refuses it, and exactly what went is forgotten. */
module KeyboardReleases {
  import opened Wrappers
  import opened ModifierFlags
  import opened KeyboardState
  import opened KeyboardRuns
  import opened KeyboardSafety

  datatype Target = OfKey(key: KeyCode) | OfSide(side: ModifierSide)

  /** An up of the key, or a flags-changed event that shows the side released. */
  predicate Lifts(injection: Injection, target: Target) {
    match target
    case OfKey(key) => injection.Key? && injection.keyCode == key && !injection.down
    case OfSide(side) =>
      injection.Modifiers? && injection.keyCode == side.KeyCode() && side.DeviceBit() !in injection.flags
  }

  predicate TriedSince(attempts: seq<Attempt>, from: nat, target: Target) {
    exists i :: from <= i < |attempts| && Lifts(attempts[i].injection, target)
  }

  predicate LiftedSince(attempts: seq<Attempt>, from: nat, target: Target) {
    exists i :: from <= i < |attempts| && attempts[i].accepted && Lifts(attempts[i].injection, target)
  }

  predicate AnsweredBy(sink: Sink, attempts: seq<Attempt>, from: nat) {
    forall i :: from <= i < |attempts| ==> attempts[i].accepted == sink.accepts(i)
  }

  lemma {:induction false} SinceLater(attempts: seq<Attempt>, later: seq<Attempt>, from: nat, target: Target)
    requires attempts <= later && from <= |attempts|
    ensures TriedSince(later, from, target) <==>
      TriedSince(attempts, from, target) || TriedSince(later, |attempts|, target)
    ensures LiftedSince(later, from, target) <==>
      LiftedSince(attempts, from, target) || LiftedSince(later, |attempts|, target)
  {
    assert forall i :: 0 <= i < |attempts| ==> later[i] == attempts[i];
    assert forall i :: 0 <= i < |attempts| ==> attempts[i] == later[i];
  }

  // ------------------------------------------------------------ one release

  /** Once on its path, and once more on the fallback if the first path refused. */
  function Tries(sink: Sink, n: nat, path: Path, injection: Injection): seq<Attempt> {
    [Attempt(path, injection, sink.accepts(n))]
    + if sink.accepts(n) || path.CgEvent? then [] else [Attempt(CgEvent, injection, sink.accepts(n + 1))]
  }

  lemma {:induction false} ReleaseTries(sink: Sink, m: State, path: Path, injection: Injection)
    ensures var (m1, released) := Release(sink, m, path, injection);
      var tries := Tries(sink, |m.attempts|, path, injection);
      && m1.attempts == m.attempts + tries && released == tries[|tries| - 1].accepted
      && m1 == m.(attempts := m1.attempts, degraded := m.degraded || (path.Nx? && !tries[0].accepted))
  {
  }

  /** What went and what was tried, after one release. */
  lemma {:induction false} ReleaseLifts(sink: Sink, m: State, path: Path, injection: Injection, target: Target)
    ensures var (m1, released) := Release(sink, m, path, injection);
      && (TriedSince(m1.attempts, |m.attempts|, target) <==> Lifts(injection, target))
      && (LiftedSince(m1.attempts, |m.attempts|, target) <==> released && Lifts(injection, target))
      && AnsweredBy(sink, m1.attempts, |m.attempts|)
  {
    ReleaseTries(sink, m, path, injection);
    var (m1, released) := Release(sink, m, path, injection);
    assert m1.attempts[|m.attempts|].injection == injection;
    assert m1.attempts[|m1.attempts| - 1].injection == injection;
  }

  /** An up is handed to the sink whether or not the key is on record, and forgets
      the key exactly when macOS accepted it on some path. */
  lemma {:induction false} KeyUpTries(sink: Sink, m: State, key: KeyCode)
    ensures var (m1, released) := KeyUp(sink, m, key);
      && m1.attempts == m.attempts + Tries(sink, |m.attempts|, m.path, Key(key, false, m.postFlags))
      && (released <==> LiftedSince(m1.attempts, |m.attempts|, OfKey(key)))
      && m1.pressed == (if released then m.pressed - {key} else m.pressed)
      && m1.held == m.held && m1.pending == m.pending
  {
    ReleaseTries(sink, m, m.path, Key(key, false, m.postFlags));
    ReleaseLifts(sink, m, m.path, Key(key, false, m.postFlags), OfKey(key));
  }

  /** A tap is dropped on a degraded path, ends with a down that is refused, and
      otherwise hands over the up; the key is recorded exactly if that is refused. */
  lemma {:induction false} CapsTapTries(sink: Sink, m: State, key: KeyCode)
    ensures var (m1, ok) := CapsTap(sink, m, key);
      var n := |m.attempts|;
      var down := Attempt(m.path, Key(key, true, m.postFlags), sink.accepts(n));
      var tries := Tries(sink, n + 1, m.path, Key(key, false, m.postFlags));
      && (m.degraded ==> ok && m1 == m.(dropped := m.dropped + 1))
      && (!m.degraded ==>
            && m1.attempts == m.attempts + [down] + (if down.accepted then tries else [])
            && (ok <==> !down.accepted || tries[|tries| - 1].accepted)
            && m1.pressed == m.pressed + (if ok then {} else {key})
            && m1.held == m.held && m1.pending == m.pending
            && (down.accepted && m1.degraded ==> m1.pressed != {} || m1.held != {} || m1.pending != {}))
  {
    if !m.degraded {
      ReleaseTries(sink, Post(sink, m, Key(key, true, m.postFlags)).0, m.path, Key(key, false, m.postFlags));
    }
  }

  // --------------------------------------------------------------- the keys

  lemma {:induction false} ReleaseKeysLift(sink: Sink, m: State, path: Path, keys: seq<KeyCode>, target: Target)
    ensures var m1 := ReleaseKeys(sink, m, path, keys);
      && m.attempts <= m1.attempts && AnsweredBy(sink, m1.attempts, |m.attempts|)
      && (TriedSince(m1.attempts, |m.attempts|, target) <==> target.OfKey? && target.key in keys)
      && (target.OfKey? ==> (target.key in m1.pressed <==>
            target.key in m.pressed && !LiftedSince(m1.attempts, |m.attempts|, target)))
    decreases |keys|
  {
    if keys != [] {
      var injection := Key(keys[0], false, m.postFlags);
      ReleaseTries(sink, m, path, injection);
      ReleaseLifts(sink, m, path, injection, target);
      var m0 := ReleaseKey(sink, m, path, keys[0]);
      ReleaseKeysLift(sink, m0, path, keys[1..], target);
      SinceLater(m0.attempts, ReleaseKeys(sink, m0, path, keys[1..]).attempts, |m.attempts|, target);
    }
  }

  // -------------------------------------------------------------- the sides

  /** The event that a step of the plan hands over. */
  function Planned(locallyHeld: Flags, step: PlanStep): Injection {
    Modifiers(step.side.KeyCode(), locallyHeld + FlagsFor(step.next))
  }

  lemma {:induction false} PlannedLifts(locallyHeld: Flags, step: PlanStep, target: Target)
    requires step.side !in step.next && step.side.DeviceBit() !in locallyHeld
    ensures Lifts(Planned(locallyHeld, step), target) <==> target == OfSide(step.side)
  {
    FlagsForBits(step.next, step.side);
    if target.OfSide? {
      KeyCodesAreDistinct(step.side, target.side);
    }
  }

  lemma {:induction false} ReleaseSideLifts(
      sink: Sink, m: State, path: Path, locallyHeld: Flags, step: PlanStep, target: Target)
    requires step.side !in step.next && step.side.DeviceBit() !in locallyHeld
    ensures var (m1, released) := ReleaseSide(sink, m, path, locallyHeld, step);
      && m.attempts <= m1.attempts && AnsweredBy(sink, m1.attempts, |m.attempts|)
      && (TriedSince(m1.attempts, |m.attempts|, target) <==> target == OfSide(step.side))
      && (LiftedSince(m1.attempts, |m.attempts|, target) <==> released && target == OfSide(step.side))
      && m1.pending == (if released then m.pending + {step.side} else m.pending)
      && m1.fenceSent == (m.fenceSent && !released)
      && m1.readings == m.readings && m1.pressed == m.pressed
  {
    ReleaseTries(sink, m, path, Planned(locallyHeld, step));
    ReleaseLifts(sink, m, path, Planned(locallyHeld, step), target);
    PlannedLifts(locallyHeld, step, target);
  }

  lemma {:induction false} FirstRelease(left: Sides, locallyHeld: Flags, plan: seq<PlanStep>)
    requires plan != [] && Chain(left, plan) && OnlyReleases(plan) && BaselineFits(locallyHeld, plan)
    ensures var step := plan[0];
      && step.side in left && step.next == left - {step.side}
      && step.side !in step.next && step.side.DeviceBit() !in locallyHeld
    ensures Chain(plan[0].next, plan[1..]) && OnlyReleases(plan[1..]) && BaselineFits(locallyHeld, plan[1..])
    ensures EndOf(left, plan) == EndOf(plan[0].next, plan[1..])
  {
    assert plan[0] in plan;
  }

  /** Every side of the plan is tried, whatever became of the ones before it, and
      the ones that did not go are collected. */
  lemma {:induction false} ReleaseSidesLift(
      sink: Sink, m: State, path: Path, left: Sides, stillHeld: Sides, locallyHeld: Flags, plan: seq<PlanStep>,
      target: Target)
    requires Chain(left, plan) && OnlyReleases(plan) && BaselineFits(locallyHeld, plan) && EndOf(left, plan) == {}
    requires left !! stillHeld
    ensures var (m1, held) := ReleaseSides(sink, m, path, locallyHeld, plan, stillHeld);
      && m.attempts <= m1.attempts && AnsweredBy(sink, m1.attempts, |m.attempts|)
      && (TriedSince(m1.attempts, |m.attempts|, target) <==> target.OfSide? && target.side in left)
      && (target.OfSide? ==>
            var lifted := LiftedSince(m1.attempts, |m.attempts|, target);
            && (target.side in held <==> target.side in stillHeld || (target.side in left && !lifted))
            && (target.side in m1.pending <==> target.side in m.pending || lifted)
            && (lifted ==> !m1.fenceSent))
      && m1.readings == m.readings && m1.pressed == m.pressed && (m1.fenceSent ==> m.fenceSent)
    decreases |plan|
  {
    if plan != [] {
      FirstRelease(left, locallyHeld, plan);
      var step := plan[0];
      ReleaseSideLifts(sink, m, path, locallyHeld, step, target);
      var (m0, released) := ReleaseSide(sink, m, path, locallyHeld, step);
      var collected := if released then stillHeld else stillHeld + {step.side};
      ReleaseSidesLift(sink, m0, path, step.next, collected, locallyHeld, plan[1..], target);
      var m1 := ReleaseSides(sink, m0, path, locallyHeld, plan[1..], collected).0;
      SinceLater(m0.attempts, m1.attempts, |m.attempts|, target);
      LiftedWasTried(m1.attempts, |m0.attempts|, target);
    }
  }

  lemma {:induction false} LiftedWasTried(attempts: seq<Attempt>, from: nat, target: Target)
    ensures LiftedSince(attempts, from, target) ==> TriedSince(attempts, from, target)
  {
  }

  // ------------------------------------------------------------ release all

  predicate OnRecord(m: State, target: Target) {
    match target
    case OfKey(key) => key in m.pressed
    case OfSide(side) => side in m.held
  }

  lemma {:induction false} ReleaseHeldLifts(sink: Sink, m: State, target: Target)
    requires Inv(m)
    ensures var m1 := ReleaseHeld(sink, m, m.path);
      && m.attempts <= m1.attempts && AnsweredBy(sink, m1.attempts, |m.attempts|)
      && (TriedSince(m1.attempts, |m.attempts|, target) <==> target.OfSide? && target.side in m.held)
      && (target.OfSide? ==>
            var lifted := LiftedSince(m1.attempts, |m.attempts|, target);
            && (target.side in m1.held <==> target.side in m.held && !lifted)
            && (lifted ==> target.side in m1.pending && !m1.fenceSent))
      && m1.readings == m.readings && m1.pressed == m.pressed
  {
    EmptyingPlan(m);
    var plan := Transitions(m.held, {});
    ReleaseSidesLift(sink, m, m.path, m.held, {}, Baseline(m, m.localFlags), plan, target);
    var r := ReleaseSides(sink, m, m.path, Baseline(m, m.localFlags), plan, {});
    LiftedWasTried(r.0.attempts, |m.attempts|, target);
  }

  lemma {:induction false} FinishKeepsLifted(sink: Sink, m: State, side: ModifierSide)
    ensures var m1 := Finish(sink, m);
      && m1.attempts == m.attempts && m1.held == m.held && m1.pressed == m.pressed
      && (side in m.pending && !m.fenceSent ==> side in m1.pending || sink.readback(m.readings).None?)
  {
  }

  /** Cleanup hands the sink a release of exactly what was on record, each on both
      paths if need be; exactly what did not go stays on record, and a side that
      went waits to be confirmed unless the sink cannot be read. */
  lemma {:induction false} ReleaseAllTries(sink: Sink, m: State, target: Target)
    requires Inv(m)
    ensures var m1 := ReleaseAll(sink, m);
      var lifted := LiftedSince(m1.attempts, |m.attempts|, target);
      && m.attempts <= m1.attempts && AnsweredBy(sink, m1.attempts, |m.attempts|)
      && (TriedSince(m1.attempts, |m.attempts|, target) <==> OnRecord(m, target))
      && (OnRecord(m1, target) <==> OnRecord(m, target) && !lifted)
      && (target.OfSide? && lifted ==> target.side in m1.pending || sink.readback(m.readings).None?)
  {
    var keys := AscendingFrom(m.pressed, 0);
    AscendingIsTheSet(m.pressed, 0);
    ReleaseKeysLift(sink, m, m.path, keys, target);
    ReleaseKeysKeepInv(sink, m, m.path, keys);
    var m1 := ReleaseKeys(sink, m, m.path, keys);
    ReleaseHeldLifts(sink, m1, target);
    var m2 := ReleaseHeld(sink, m1, m1.path);
    SinceLater(m1.attempts, m2.attempts, |m.attempts|, target);
    LiftedWasTried(m1.attempts, |m.attempts|, target);
    LiftedWasTried(m2.attempts, |m1.attempts|, target);
    if target.OfSide? {
      FinishKeepsLifted(sink, m2, target.side);
    } else {
      FinishIsSilent(sink, m2);
    }
  }

  lemma {:induction false} AcceptedWasLifted(sink: Sink, attempts: seq<Attempt>, from: nat, target: Target)
    requires AnsweredBy(sink, attempts, from) && TriedSince(attempts, from, target)
    requires forall n :: n >= from ==> sink.accepts(n)
    ensures LiftedSince(attempts, from, target)
  {
  }

  lemma {:induction false} ReleaseAllClears(sink: Sink, m: State, target: Target) returns (m1: State)
    requires Inv(m) && forall n :: n >= |m.attempts| ==> sink.accepts(n)
    ensures m1 == ReleaseAll(sink, m) && !OnRecord(m1, target)
  {
    m1 := ReleaseAll(sink, m);
    ReleaseAllTries(sink, m, target);
    if OnRecord(m, target) {
      AcceptedWasLifted(sink, m1.attempts, |m.attempts|, target);
    }
  }

  lemma {:induction false} NothingOnRecord(m: State)
    requires Inv(m) && (forall side :: !OnRecord(m, OfSide(side))) && (forall key :: !OnRecord(m, OfKey(key)))
    ensures m.held == {} && m.pressed == {} && ToldBy(m.attempts) == Told({}, {})
  {
    assert forall side :: side in m.held ==> OnRecord(m, OfSide(side));
    assert forall key :: key in m.pressed ==> OnRecord(m, OfKey(key));
  }

  lemma {:induction false} FinishKeepsInv(sink: Sink, m: State)
    requires Inv(m)
    ensures Inv(Finish(sink, m))
  {
  }

  lemma {:induction false} ReleaseAllKeeps(sink: Sink, m: State) returns (m1: State)
    requires Inv(m)
    ensures m1 == ReleaseAll(sink, m) && Inv(m1)
  {
    m1 := ReleaseAll(sink, m);
    var m2 := ReleaseAllKeepsInv(sink, m);
    FinishKeepsInv(sink, m2);
  }

  /** A sink that accepts everything from there on is left with nothing down, and
      the injector with nothing on record. */
  lemma {:induction false} ReleaseAllEmpties(sink: Sink, m: State) returns (m1: State)
    requires Inv(m) && forall n :: n >= |m.attempts| ==> sink.accepts(n)
    ensures m1 == ReleaseAll(sink, m)
    ensures m1.held == {} && m1.pressed == {} && ToldBy(m1.attempts) == Told({}, {})
  {
    m1 := ReleaseAllKeeps(sink, m);
    forall side ensures !OnRecord(m1, OfSide(side)) {
      var _ := ReleaseAllClears(sink, m, OfSide(side));
    }
    forall key ensures !OnRecord(m1, OfKey(key)) {
      var _ := ReleaseAllClears(sink, m, OfKey(key));
    }
    NothingOnRecord(m1);
  }

  // ------------------------------------------------- what the events say

  lemma {:induction false} ReleaseKeysSay(sink: Sink, m: State, path: Path, keys: seq<KeyCode>, i: nat)
      returns (key: KeyCode)
    requires |m.attempts| <= i < |ReleaseKeys(sink, m, path, keys).attempts|
    ensures key in keys && ReleaseKeys(sink, m, path, keys).attempts[i].injection == Key(key, false, m.postFlags)
    decreases |keys|
  {
    key := keys[0];
    ReleaseTries(sink, m, path, Key(key, false, m.postFlags));
    var m0 := ReleaseKey(sink, m, path, key);
    ReleaseKeysLift(sink, m0, path, keys[1..], OfKey(key));
    if i >= |m0.attempts| {
      key := ReleaseKeysSay(sink, m0, path, keys[1..], i);
    }
  }

  lemma {:induction false} ReleaseSidesSay(
      sink: Sink, m: State, path: Path, left: Sides, stillHeld: Sides, locallyHeld: Flags, plan: seq<PlanStep>, i: nat)
      returns (step: PlanStep)
    requires Chain(left, plan) && OnlyReleases(plan) && BaselineFits(locallyHeld, plan) && EndOf(left, plan) == {}
    requires left !! stillHeld
    requires |m.attempts| <= i < |ReleaseSides(sink, m, path, locallyHeld, plan, stillHeld).0.attempts|
    ensures step in plan
    ensures ReleaseSides(sink, m, path, locallyHeld, plan, stillHeld).0.attempts[i].injection
      == Planned(locallyHeld, step)
    decreases |plan|
  {
    step := plan[0];
    FirstRelease(left, locallyHeld, plan);
    ReleaseTries(sink, m, path, Planned(locallyHeld, step));
    var (m0, released) := ReleaseSide(sink, m, path, locallyHeld, step);
    var collected := if released then stillHeld else stillHeld + {step.side};
    ReleaseSidesLift(sink, m0, path, step.next, collected, locallyHeld, plan[1..], OfSide(step.side));
    if i >= |m0.attempts| {
      step := ReleaseSidesSay(sink, m0, path, step.next, collected, locallyHeld, plan[1..], i);
    }
  }

  /** Cleanup hands over nothing but ups of recorded keys, with the flags last
      posted, and steps of the plan that empties the held sides, each showing the
      local flags and the sides the plan has yet to release. */
  lemma {:induction false} ReleaseAllSays(sink: Sink, m: State, i: nat)
    requires Inv(m) && |m.attempts| <= i < |ReleaseAll(sink, m).attempts|
    ensures var injection := ReleaseAll(sink, m).attempts[i].injection;
      || (exists key :: key in m.pressed && injection == Key(key, false, m.postFlags))
      || (exists step :: step in Transitions(m.held, {}) && injection == Planned(Baseline(m, m.localFlags), step))
  {
    var keys := AscendingFrom(m.pressed, 0);
    AscendingIsTheSet(m.pressed, 0);
    ReleaseKeysKeepInv(sink, m, m.path, keys);
    ReleaseKeysSameFlags(sink, m, m.path, keys);
    var m1 := ReleaseKeys(sink, m, m.path, keys);
    var m2 := ReleaseHeld(sink, m1, m1.path);
    FinishIsSilent(sink, m2);
    EmptyingPlan(m1);
    ReleaseHeldLifts(sink, m1, OfSide(LeftShift));
    if i < |m1.attempts| {
      var key := ReleaseKeysSay(sink, m, m.path, keys, i);
      assert m2.attempts[i] == m1.attempts[i];
    } else {
      var step := ReleaseSidesSay(
        sink, m1, m1.path, m1.held, {}, Baseline(m1, m1.localFlags), Transitions(m1.held, {}), i);
    }
  }

  lemma {:induction false} ReleaseKeysSameFlags(sink: Sink, m: State, path: Path, keys: seq<KeyCode>)
    ensures var m1 := ReleaseKeys(sink, m, path, keys);
      m1.localFlags == m.localFlags && m1.remoteFlags == m.remoteFlags && m1.postFlags == m.postFlags
    decreases |keys|
  {
    if keys != [] {
      ReleaseTries(sink, m, path, Key(keys[0], false, m.postFlags));
      ReleaseKeysSameFlags(sink, ReleaseKey(sink, m, path, keys[0]), path, keys[1..]);
    }
  }

  /** The flags of the last accepted modifier event since `from`. */
  function LastFlags(attempts: seq<Attempt>, from: nat, flags: Flags): Flags
    decreases |attempts|
  {
    if |attempts| <= from then flags
    else
      var last := attempts[|attempts| - 1];
      if last.accepted && last.injection.Modifiers? then last.injection.flags
      else LastFlags(attempts[..|attempts| - 1], from, flags)
  }

  lemma {:induction false} LastFlagsLater(attempts: seq<Attempt>, later: seq<Attempt>, from: nat, flags: Flags)
    requires attempts <= later && from <= |attempts|
    ensures LastFlags(later, from, flags) == LastFlags(later, |attempts|, LastFlags(attempts, from, flags))
    decreases |later|
  {
    if |attempts| < |later| {
      LastFlagsLater(attempts, later[..|later| - 1], from, flags);
    } else {
      assert attempts == later;
    }
  }

  lemma {:induction false} LastFlagsOneMore(attempts: seq<Attempt>, attempt: Attempt, from: nat, flags: Flags)
    requires from <= |attempts|
    ensures LastFlags(attempts + [attempt], from, flags)
      == if attempt.accepted && attempt.injection.Modifiers? then attempt.injection.flags
         else LastFlags(attempts, from, flags)
  {
    assert (attempts + [attempt])[..|attempts|] == attempts;
  }

  lemma {:induction false} ReleaseFlags(sink: Sink, m: State, path: Path, injection: Injection)
    ensures var (m1, released) := Release(sink, m, path, injection);
      LastFlags(m1.attempts, |m.attempts|, m.postFlags)
        == if released && injection.Modifiers? then injection.flags else m.postFlags
  {
    ReleaseTries(sink, m, path, injection);
    var tries := Tries(sink, |m.attempts|, path, injection);
    LastFlagsOneMore(m.attempts, tries[0], |m.attempts|, m.postFlags);
    if |tries| == 2 {
      LastFlagsOneMore(m.attempts + [tries[0]], tries[1], |m.attempts|, m.postFlags);
      assert m.attempts + tries == m.attempts + [tries[0]] + [tries[1]];
    } else {
      assert m.attempts + tries == m.attempts + [tries[0]];
    }
  }

  lemma {:induction false} ReleaseKeysFlags(sink: Sink, m: State, path: Path, keys: seq<KeyCode>)
    ensures var m1 := ReleaseKeys(sink, m, path, keys);
      m.attempts <= m1.attempts && m1.postFlags == LastFlags(m1.attempts, |m.attempts|, m.postFlags)
    decreases |keys|
  {
    if keys != [] {
      ReleaseTries(sink, m, path, Key(keys[0], false, m.postFlags));
      ReleaseFlags(sink, m, path, Key(keys[0], false, m.postFlags));
      var m0 := ReleaseKey(sink, m, path, keys[0]);
      ReleaseKeysFlags(sink, m0, path, keys[1..]);
      LastFlagsLater(m0.attempts, ReleaseKeys(sink, m0, path, keys[1..]).attempts, |m.attempts|, m.postFlags);
    }
  }

  lemma {:induction false} ReleaseSidesFlags(
      sink: Sink, m: State, path: Path, locallyHeld: Flags, plan: seq<PlanStep>, stillHeld: Sides)
    ensures var m1 := ReleaseSides(sink, m, path, locallyHeld, plan, stillHeld).0;
      m.attempts <= m1.attempts && m1.postFlags == LastFlags(m1.attempts, |m.attempts|, m.postFlags)
    decreases |plan|
  {
    if plan != [] {
      ReleaseTries(sink, m, path, Planned(locallyHeld, plan[0]));
      ReleaseFlags(sink, m, path, Planned(locallyHeld, plan[0]));
      var (m0, released) := ReleaseSide(sink, m, path, locallyHeld, plan[0]);
      var collected := if released then stillHeld else stillHeld + {plan[0].side};
      ReleaseSidesFlags(sink, m0, path, locallyHeld, plan[1..], collected);
      LastFlagsLater(m0.attempts, ReleaseSides(sink, m0, path, locallyHeld, plan[1..], collected).0.attempts,
        |m.attempts|, m.postFlags);
    }
  }

  /** The flags on record after cleanup are those of its last accepted modifier
      event, or else the ones before. */
  lemma {:induction false} ReleaseAllPosts(sink: Sink, m: State)
    ensures var m1 := ReleaseAll(sink, m);
      m1.postFlags == LastFlags(m1.attempts, |m.attempts|, m.postFlags)
  {
    var keys := AscendingFrom(m.pressed, 0);
    var m1 := ReleaseKeys(sink, m, m.path, keys);
    ReleaseKeysFlags(sink, m, m.path, keys);
    ReleaseSidesFlags(sink, m1, m.path, Baseline(m1, m1.localFlags), Transitions(m1.held, {}), {});
    var m2 := ReleaseHeld(sink, m1, m.path);
    LastFlagsLater(m1.attempts, m2.attempts, |m.attempts|, m.postFlags);
    FinishIsSilent(sink, m2);
  }

  // ------------------------------------------------------- confirm and retry

  /** A confirmation takes exactly the confirmed sides out of the pending set. */
  lemma {:induction false} ConfirmClearsExactly(sink: Sink, m: State, side: ModifierSide)
    ensures side in ConfirmReleases(sink, m).0.pending <==> side in m.pending && !Confirmed(sink, m, side)
    ensures ConfirmReleases(sink, m).0.attempts == m.attempts
  {
  }

  lemma {:induction false} RetrySideEndsRefused(sink: Sink, m: State, path: Path, flags: Flags, side: ModifierSide)
    ensures var (m1, fenced) := RetrySide(sink, m, path, flags, side);
      && |m.attempts| < |m1.attempts| && (!fenced ==> !m1.attempts[|m1.attempts| - 1].accepted)
  {
    var injection := Modifiers(side.KeyCode(), flags);
    ReleaseTries(sink, m, path, injection);
    ReleaseTries(sink, Release(sink, m, path, injection).0, CgEvent, injection);
  }

  lemma {:induction false} RetrySidesEndRefused(
      sink: Sink, m: State, path: Path, flags: Flags, order: seq<ModifierSide>)
    ensures var (m1, fenced) := RetrySides(sink, m, path, flags, order);
      && |m.attempts| <= |m1.attempts|
      && (!fenced ==> |m.attempts| < |m1.attempts| && !m1.attempts[|m1.attempts| - 1].accepted)
    decreases |order|
  {
    if order != [] {
      if order[0] in m.pending {
        RetrySideEndsRefused(sink, m, path, flags, order[0]);
        RetrySidesEndRefused(sink, RetrySide(sink, m, path, flags, order[0]).0, path, flags, order[1..]);
      } else {
        RetrySidesEndRefused(sink, m, path, flags, order[1..]);
      }
    }
  }

  lemma {:induction false} RetryAllEndsRefused(sink: Sink, m: State, flags: Flags) returns (r: (State, bool))
    ensures r == RetrySides(sink, m, m.path, flags, ALL)
    ensures !r.1 ==> |m.attempts| < |r.0.attempts| && !r.0.attempts[|r.0.attempts| - 1].accepted
  {
    r := RetrySides(sink, m, m.path, flags, ALL);
    RetrySidesEndRefused(sink, m, m.path, flags, ALL);
  }

  /** A retry with something pending hands the sink an event, and gives up only at
      one that was refused. */
  lemma {:induction false} RetryGivesUpOnlyRefused(sink: Sink, m: State) returns (attempts: seq<Attempt>, sent: bool)
    requires m.pending != {}
    ensures Retry(sink, m).0.attempts == attempts && Retry(sink, m).1 == sent
    ensures !sent ==> |m.attempts| < |attempts| && !attempts[|attempts| - 1].accepted
  {
    var r := RetryAllEndsRefused(sink, m.(readings := m.readings + 1), RetryPosts(sink, m));
    attempts, sent := r.0.attempts, r.1;
  }

  // ---------------------------------------------------------- a failing path

  predicate NxRefused(attempts: seq<Attempt>, from: nat) {
    exists i :: from <= i < |attempts| && attempts[i].path.Nx? && !attempts[i].accepted
  }

  /** A refusal on the first path leaves its mark. */
  predicate Marks(m: State, m1: State) {
    && m.attempts <= m1.attempts && (m.degraded ==> m1.degraded)
    && (NxRefused(m1.attempts, |m.attempts|) ==> m1.degraded)
  }

  lemma {:induction false} MarksThen(m: State, m1: State, m2: State)
    requires Marks(m, m1) && Marks(m1, m2)
    ensures Marks(m, m2)
  {
    if NxRefused(m2.attempts, |m.attempts|) {
      var i :| |m.attempts| <= i < |m2.attempts| && m2.attempts[i].path.Nx? && !m2.attempts[i].accepted;
      assert i < |m1.attempts| ==> m1.attempts[i] == m2.attempts[i];
    }
  }

  lemma {:induction false} ReleaseMarks(sink: Sink, m: State, path: Path, injection: Injection)
    ensures Marks(m, Release(sink, m, path, injection).0)
  {
    ReleaseTries(sink, m, path, injection);
  }

  lemma {:induction false} PostMarks(sink: Sink, m: State, injection: Injection)
    ensures Marks(m, Post(sink, m, injection).0)
  {
  }

  lemma {:induction false} SyncStepsMark(sink: Sink, m: State, locallyHeld: Flags, plan: seq<PlanStep>)
    ensures Marks(m, SyncSteps(sink, m, locallyHeld, plan).0)
    decreases |plan|
  {
    if plan != [] {
      PostMarks(sink, m, Planned(locallyHeld, plan[0]));
      var (m1, accepted) := SyncStep(sink, m, locallyHeld, plan[0]);
      if accepted {
        SyncStepsMark(sink, m1, locallyHeld, plan[1..]);
        MarksThen(m, m1, SyncSteps(sink, m1, locallyHeld, plan[1..]).0);
      }
    }
  }

  lemma {:induction false} ReleaseKeysMark(sink: Sink, m: State, path: Path, keys: seq<KeyCode>)
    ensures Marks(m, ReleaseKeys(sink, m, path, keys))
    decreases |keys|
  {
    if keys != [] {
      ReleaseMarks(sink, m, path, Key(keys[0], false, m.postFlags));
      var m1 := ReleaseKey(sink, m, path, keys[0]);
      ReleaseKeysMark(sink, m1, path, keys[1..]);
      MarksThen(m, m1, ReleaseKeys(sink, m1, path, keys[1..]));
    }
  }

  lemma {:induction false} ReleaseSidesMark(
      sink: Sink, m: State, path: Path, locallyHeld: Flags, plan: seq<PlanStep>, stillHeld: Sides)
    ensures Marks(m, ReleaseSides(sink, m, path, locallyHeld, plan, stillHeld).0)
    decreases |plan|
  {
    if plan != [] {
      ReleaseMarks(sink, m, path, Planned(locallyHeld, plan[0]));
      var (m1, released) := ReleaseSide(sink, m, path, locallyHeld, plan[0]);
      var collected := if released then stillHeld else stillHeld + {plan[0].side};
      ReleaseSidesMark(sink, m1, path, locallyHeld, plan[1..], collected);
      MarksThen(m, m1, ReleaseSides(sink, m1, path, locallyHeld, plan[1..], collected).0);
    }
  }

  lemma {:induction false} RetrySideMarks(sink: Sink, m: State, path: Path, flags: Flags, side: ModifierSide)
    ensures Marks(m, RetrySide(sink, m, path, flags, side).0)
  {
    var injection := Modifiers(side.KeyCode(), flags);
    ReleaseMarks(sink, m, path, injection);
    var (m1, released) := Release(sink, m, path, injection);
    if released && path.Nx? {
      ReleaseMarks(sink, m1, CgEvent, injection);
      MarksThen(m, m1, Release(sink, m1, CgEvent, injection).0);
    }
  }

  lemma {:induction false} RetrySidesMark(sink: Sink, m: State, path: Path, flags: Flags, order: seq<ModifierSide>)
    ensures Marks(m, RetrySides(sink, m, path, flags, order).0)
    decreases |order|
  {
    if order != [] {
      if order[0] !in m.pending {
        RetrySidesMark(sink, m, path, flags, order[1..]);
      } else {
        RetrySideMarks(sink, m, path, flags, order[0]);
        var (m1, fenced) := RetrySide(sink, m, path, flags, order[0]);
        RetrySidesMark(sink, m1, path, flags, order[1..]);
        MarksThen(m, m1, RetrySides(sink, m1, path, flags, order[1..]).0);
      }
    }
  }

  /** Marked, or already replaced by the fallback with its count of dropped presses
      reset. */
  predicate MarkedOrLeft(m: State, m1: State) {
    && m.attempts <= m1.attempts
    && (NxRefused(m1.attempts, |m.attempts|) ==> m1.degraded || m1.path.CgEvent?)
    && (m1.path != m.path ==> m1.dropped == 0)
  }

  lemma {:induction false} FinishLeavesMark(sink: Sink, m: State, m1: State)
    requires Marks(m, m1) && m1.path == m.path
    ensures MarkedOrLeft(m, Finish(sink, m1)) && MarkedOrLeft(m, Settle(m1))
  {
  }

  lemma {:induction false} SyncLeavesMark(sink: Sink, m: State, op: Op)
    requires Inv(m) && op.SyncOp?
    ensures MarkedOrLeft(m, Apply(sink, m, op))
  {
    var m0 := m.(localFlags := op.localFlags);
    var plan := Transitions(m0.held, DesiredSides(op.aggregate, op.known));
    var m1 := SyncSteps(sink, m0, Baseline(m0, op.localFlags), plan).0;
    SyncStepsMark(sink, m0, Baseline(m0, op.localFlags), plan);
    PlanFits(m0, op.localFlags, DesiredSides(op.aggregate, op.known));
    SyncStepsKeepInv(sink, m0, Baseline(m0, op.localFlags), plan);
    FinishLeavesMark(sink, m, m1);
  }

  lemma {:induction false} ReleaseAllLeavesMark(sink: Sink, m: State)
    requires Inv(m)
    ensures MarkedOrLeft(m, ReleaseAll(sink, m))
  {
    var keys := AscendingFrom(m.pressed, 0);
    var m1 := ReleaseKeys(sink, m, m.path, keys);
    ReleaseKeysMark(sink, m, m.path, keys);
    ReleaseKeysKeepInv(sink, m, m.path, keys);
    ReleaseSidesMark(sink, m1, m1.path, Baseline(m1, m1.localFlags), Transitions(m1.held, {}), {});
    ReleaseHeldKeepsInv(sink, m1);
    var m2 := ReleaseHeld(sink, m1, m1.path);
    MarksThen(m, m1, m2);
    FinishLeavesMark(sink, m, m2);
  }

  lemma {:induction false} RetryLeavesMark(sink: Sink, m: State)
    requires Inv(m)
    ensures MarkedOrLeft(m, Retry(sink, m).0)
  {
    RetryKeepsInv(sink, m);
    if m.pending != {} {
      var r := RetryAtOnce(sink, m);
      RetrySidesMark(sink, m.(readings := m.readings + 1), m.path, RetryPosts(sink, m), ALL);
    }
  }

  /** Whatever the call, a refusal on the first path degrades it, unless the call
      ended clean and with it on the fallback. */
  lemma {:induction false} EveryRefusalDegrades(sink: Sink, m: State, op: Op)
    requires Inv(m)
    ensures MarkedOrLeft(m, Apply(sink, m, op))
  {
    match op
    case SyncOp(_, _, _) => SyncLeavesMark(sink, m, op);
    case ConfirmOp => FinishLeavesMark(sink, m, m);
    case RetryOp => RetryLeavesMark(sink, m);
    case KeyDownOp(key) => PostMarks(sink, m, Key(key, true, m.postFlags));
    case KeyUpOp(key) => ReleaseMarks(sink, m, m.path, Key(key, false, m.postFlags));
    case CapsTapOp(key) =>
      var m1 := Post(sink, m, Key(key, true, m.postFlags)).0;
      PostMarks(sink, m, Key(key, true, m.postFlags));
      ReleaseMarks(sink, m1, m.path, Key(key, false, m.postFlags));
      MarksThen(m, m1, Release(sink, m1, m.path, Key(key, false, m.postFlags)).0);
    case ReleaseAllOp => ReleaseAllLeavesMark(sink, m);
  }
}
