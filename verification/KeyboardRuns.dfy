/** What every run of the keyboard injector keeps, for every sink: the record
    of held input agrees with what macOS accepted, releases stay pending until
    they are confirmed, and the path changes once, from a clean state. */
module KeyboardRuns {
  import opened Wrappers
  import opened ModifierFlags
  import opened KeyboardState

  // ------------------------------------------- what macOS has been told

  /** The sides macOS last saw pressed and the ordinary keys it last saw down,
      judged only by the injections it accepted. */
  datatype Told = Told(raised: Sides, down: set<KeyCode>)

  function Hear(told: Told, injection: Injection): Told {
    match injection
    case Modifiers(code, flags) =>
      told.(raised := set side: ModifierSide | side in ALL &&
        if side.KeyCode() == code then side.DeviceBit() in flags else side in told.raised)
    case Key(code, down, _) =>
      told.(down := if down then told.down + {code} else told.down - {code})
  }

  function HearIf(told: Told, injection: Injection, accepted: bool): Told {
    if accepted then Hear(told, injection) else told
  }

  function ToldBy(attempts: seq<Attempt>): Told
    decreases |attempts|
  {
    if attempts == [] then Told({}, {})
    else
      var last := attempts[|attempts| - 1];
      HearIf(ToldBy(attempts[..|attempts| - 1]), last.injection, last.accepted)
  }

  lemma {:induction false} ToldByOneMore(attempts: seq<Attempt>, attempt: Attempt)
    ensures ToldBy(attempts + [attempt]) == HearIf(ToldBy(attempts), attempt.injection, attempt.accepted)
  {
    assert (attempts + [attempt])[..|attempts|] == attempts;
  }

  lemma {:induction false} KeyCodesAreDistinct(a: ModifierSide, b: ModifierSide)
    ensures a.KeyCode() == b.KeyCode() <==> a == b
    ensures a in ALL
  {
    var _ := AllIsComplete(a);
  }

  /** An accepted flags-changed event of one side moves only that side. */
  lemma {:induction false} HearSide(told: Told, side: ModifierSide, flags: Flags)
    ensures Hear(told, Modifiers(side.KeyCode(), flags)) ==
      told.(raised := if side.DeviceBit() in flags then told.raised + {side} else told.raised - {side})
  {
    forall other: ModifierSide
      ensures other.KeyCode() == side.KeyCode() <==> other == side
      ensures other in ALL
    {
      KeyCodesAreDistinct(other, side);
    }
  }

  /** Only the log and the degradation mark may differ. */
  predicate SameRecord(m: State, m1: State) {
    m1 == m.(attempts := m1.attempts, degraded := m1.degraded)
    && (m.degraded ==> m1.degraded) && (m1.degraded ==> m.degraded || m.path.Nx?)
    && m.attempts <= m1.attempts
  }

  lemma {:induction false} InjectIsHeard(sink: Sink, m: State, path: Path, injection: Injection)
    ensures var (m1, accepted) := Inject(sink, m, path, injection);
      && ToldBy(m1.attempts) == HearIf(ToldBy(m.attempts), injection, accepted)
      && m1.attempts == m.attempts + [Attempt(path, injection, accepted)]
      && m1 == m.(attempts := m1.attempts)
  {
    ToldByOneMore(m.attempts, Attempt(path, injection, sink.accepts(|m.attempts|)));
  }

  lemma {:induction false} PostIsHeard(sink: Sink, m: State, injection: Injection)
    ensures var (m1, accepted) := Post(sink, m, injection);
      && ToldBy(m1.attempts) == HearIf(ToldBy(m.attempts), injection, accepted)
      && SameRecord(m, m1)
      && m1.attempts == m.attempts + [Attempt(m.path, injection, accepted)]
  {
    InjectIsHeard(sink, m, m.path, injection);
  }

  lemma {:induction false} ReleaseIsHeard(sink: Sink, m: State, path: Path, injection: Injection)
    requires path.Nx? ==> m.path.Nx?
    ensures var (m1, accepted) := Release(sink, m, path, injection);
      && ToldBy(m1.attempts) == HearIf(ToldBy(m.attempts), injection, accepted)
      && SameRecord(m, m1)
      && (forall i :: |m.attempts| <= i < |m1.attempts| ==> m1.attempts[i].injection == injection)
      && (accepted ==> m1.attempts[|m1.attempts| - 1].accepted)
      && (path.CgEvent? ==> m1.attempts == m.attempts + [Attempt(CgEvent, injection, accepted)])
  {
    InjectIsHeard(sink, m, path, injection);
    var (m1, accepted) := Inject(sink, m, path, injection);
    if !accepted && path.Nx? {
      InjectIsHeard(sink, m1.(degraded := true), CgEvent, injection);
    }
  }

  // -------------------------------------------------------- the invariant

  /** `held` is exactly what macOS last saw pressed, the remote flags describe
      it, no side is both held and pending, every ordinary key macOS last saw
      down is recorded, and only the first path can be degraded. */
  predicate Inv(m: State) {
    && m.held !! m.pending
    && m.remoteFlags == FlagsFor(m.held)
    && m.held == ToldBy(m.attempts).raised
    && ToldBy(m.attempts).down <= m.pressed
    && (m.degraded ==> m.path.Nx?)
  }

  lemma {:induction false} BaselineIsClear(m: State, localFlags: Flags, side: ModifierSide)
    requires m.remoteFlags == FlagsFor(m.held) && side in m.held + m.pending
    ensures side.DeviceBit() !in Baseline(m, localFlags)
  {
    LocallyHeldBits(localFlags, m.remoteFlags + FlagsFor(m.pending), side);
    FlagsForBits(m.held, side);
    FlagsForBits(m.pending, side);
  }

  lemma {:induction false} PlannedStepIsHeard(told: Told, locallyHeld: Flags, step: PlanStep)
    requires step.next == told.raised - {step.side} || step.next == told.raised + {step.side}
    requires step.side !in step.next ==> step.side.DeviceBit() !in locallyHeld
    ensures Hear(told, Modifiers(step.side.KeyCode(), locallyHeld + FlagsFor(step.next)))
         == told.(raised := step.next)
  {
    HearSide(told, step.side, locallyHeld + FlagsFor(step.next));
    FlagsForBits(step.next, step.side);
  }

  /** No side that the plan releases shows in the baseline. */
  predicate BaselineFits(locallyHeld: Flags, plan: seq<PlanStep>) {
    forall step :: step in plan && step.side !in step.next ==> step.side.DeviceBit() !in locallyHeld
  }

  /** Nothing logged after `before` presses an ordinary key. */
  predicate NoPress(before: seq<Attempt>, after: seq<Attempt>) {
    forall i :: |before| <= i < |after| ==> !(after[i].injection.Key? && after[i].injection.down)
  }

  /** One call up to its final confirmation: no ordinary key is pressed, no
      recorded side is forgotten, and a fence survives only if no side was released. */
  predicate SoFar(m: State, m1: State) {
    && Inv(m1) && m1.path == m.path && m1.readings == m.readings
    && (m.degraded ==> m1.degraded) && m.attempts <= m1.attempts && NoPress(m.attempts, m1.attempts)
    && m.held + m.pending <= m1.held + m1.pending
    && (m1.fenceSent ==> m.fenceSent && m1.pending <= m.pending)
  }

  lemma {:induction false} SyncStepKeepsInv(sink: Sink, m: State, locallyHeld: Flags, plan: seq<PlanStep>)
    requires Inv(m) && plan != [] && Chain(m.held, plan) && BaselineFits(locallyHeld, plan)
    ensures var (m1, accepted) := SyncStep(sink, m, locallyHeld, plan[0]);
      && SoFar(m, m1) && m1.held == (if accepted then plan[0].next else m.held)
  {
    var step := plan[0];
    PostIsHeard(sink, m, Modifiers(step.side.KeyCode(), locallyHeld + FlagsFor(step.next)));
    PlannedStepIsHeard(ToldBy(m.attempts), locallyHeld, step);
  }

  lemma {:induction false} SoFarThen(m: State, m1: State, m2: State)
    requires SoFar(m, m1) && SoFar(m1, m2)
    ensures SoFar(m, m2)
  {
  }

  lemma {:induction false} ChainRest(from: Sides, locallyHeld: Flags, plan: seq<PlanStep>)
    requires plan != [] && Chain(from, plan) && BaselineFits(locallyHeld, plan)
    ensures Chain(plan[0].next, plan[1..]) && BaselineFits(locallyHeld, plan[1..])
    ensures EndOf(from, plan) == EndOf(plan[0].next, plan[1..])
  {
  }

  lemma {:induction false} SyncStepsKeepInv(sink: Sink, m: State, locallyHeld: Flags, plan: seq<PlanStep>)
    requires Inv(m) && Chain(m.held, plan) && BaselineFits(locallyHeld, plan)
    ensures var (m1, accepted) := SyncSteps(sink, m, locallyHeld, plan);
      && SoFar(m, m1) && (accepted ==> m1.held == EndOf(m.held, plan))
    decreases |plan|
  {
    if plan != [] {
      SyncStepKeepsInv(sink, m, locallyHeld, plan);
      ChainRest(m.held, locallyHeld, plan);
      var (m1, accepted) := SyncStep(sink, m, locallyHeld, plan[0]);
      if accepted {
        SyncStepsKeepInv(sink, m1, locallyHeld, plan[1..]);
        SoFarThen(m, m1, SyncSteps(sink, m1, locallyHeld, plan[1..]).0);
      }
    }
  }

  lemma {:induction false} PlanFits(m: State, localFlags: Flags, desired: Sides)
    requires m.remoteFlags == FlagsFor(m.held)
    ensures Chain(m.held, Transitions(m.held, desired))
    ensures BaselineFits(Baseline(m, localFlags), Transitions(m.held, desired))
  {
    PlanIsMinimal(m.held, desired);
    forall step | step in Transitions(m.held, desired) && step.side !in step.next
      ensures step.side.DeviceBit() !in Baseline(m, localFlags)
    {
      BaselineIsClear(m, localFlags, step.side);
    }
  }

  lemma {:induction false} SyncKeepsInv(sink: Sink, m: State, aggregate: Kinds, known: Sides, localFlags: Flags)
      returns (m1: State, accepted: bool)
    requires Inv(m)
    ensures SoFar(m, m1) && (accepted ==> m1.held == DesiredSides(aggregate, known))
    ensures Sync(sink, m, aggregate, known, localFlags) == (Finish(sink, m1), accepted)
  {
    var m0 := m.(localFlags := localFlags);
    var desired := DesiredSides(aggregate, known);
    PlanFits(m0, localFlags, desired);
    PlanIsMinimal(m0.held, desired);
    SyncStepsKeepInv(sink, m0, Baseline(m0, localFlags), Transitions(m0.held, desired));
    var r := SyncSteps(sink, m0, Baseline(m0, localFlags), Transitions(m0.held, desired));
    m1, accepted := r.0, r.1;
  }

  lemma {:induction false} KeyDownKeepsInv(sink: Sink, m: State, key: KeyCode)
    requires Inv(m)
    ensures Inv(KeyDown(sink, m, key))
  {
    PostIsHeard(sink, m, Key(key, true, m.postFlags));
  }

  lemma {:induction false} KeyUpKeepsInv(sink: Sink, m: State, key: KeyCode)
    requires Inv(m)
    ensures Inv(KeyUp(sink, m, key).0)
  {
    ReleaseIsHeard(sink, m, m.path, Key(key, false, m.postFlags));
  }

  lemma {:induction false} CapsTapKeepsInv(sink: Sink, m: State, key: KeyCode)
    requires Inv(m)
    ensures Inv(CapsTap(sink, m, key).0)
  {
    PostIsHeard(sink, m, Key(key, true, m.postFlags));
    ReleaseIsHeard(sink, Post(sink, m, Key(key, true, m.postFlags)).0, m.path, Key(key, false, m.postFlags));
  }

  lemma {:induction false} ReleaseAgainKeepsInv(sink: Sink, m: State, path: Path, flags: Flags, side: ModifierSide)
    requires Inv(m) && side in m.pending && side.DeviceBit() !in flags && (path.Nx? ==> m.path.Nx?)
    ensures var m1 := Release(sink, m, path, Modifiers(side.KeyCode(), flags)).0;
      Inv(m1) && SameRecord(m, m1)
  {
    ReleaseIsHeard(sink, m, path, Modifiers(side.KeyCode(), flags));
    HearSide(ToldBy(m.attempts), side, flags);
  }

  lemma {:induction false} RetrySideSays(sink: Sink, m: State, flags: Flags, side: ModifierSide)
    ensures var m1 := RetrySide(sink, m, m.path, flags, side).0;
      forall i :: |m.attempts| <= i < |m1.attempts| ==> m1.attempts[i].injection == Modifiers(side.KeyCode(), flags)
  {
    var injection := Modifiers(side.KeyCode(), flags);
    ReleaseIsHeard(sink, m, m.path, injection);
    var (m1, released) := Release(sink, m, m.path, injection);
    if released && m.path.Nx? {
      ReleaseIsHeard(sink, m1, CgEvent, injection);
    }
  }

  lemma {:induction false} RetrySideKeepsInv(sink: Sink, m: State, flags: Flags, side: ModifierSide)
    requires Inv(m) && side in m.pending && side.DeviceBit() !in flags
    ensures var m1 := RetrySide(sink, m, m.path, flags, side).0;
      Inv(m1) && SameRecord(m, m1)
  {
    ReleaseAgainKeepsInv(sink, m, m.path, flags, side);
    var (m1, released) := Release(sink, m, m.path, Modifiers(side.KeyCode(), flags));
    if released && m.path.Nx? {
      ReleaseAgainKeepsInv(sink, m1, CgEvent, flags, side);
    }
  }

  lemma {:induction false} RetrySideFences(sink: Sink, m: State, flags: Flags, side: ModifierSide)
    ensures var (m1, fenced) := RetrySide(sink, m, m.path, flags, side);
      fenced ==> Fenced(m1.attempts, |m.attempts|, flags, side)
  {
    var injection := Modifiers(side.KeyCode(), flags);
    ReleaseIsHeard(sink, m, m.path, injection);
    var (m1, released) := Release(sink, m, m.path, injection);
    if released {
      var base := if m.path.Nx? then m1 else m;
      ReleaseIsHeard(sink, base, CgEvent, injection);
      var m2 := Release(sink, base, CgEvent, injection).0;
      assert m2.attempts[|base.attempts|].injection == injection;
    }
  }

  /** Some accepted fallback-path event since `from` showed the side released. */
  predicate Fenced(attempts: seq<Attempt>, from: nat, flags: Flags, side: ModifierSide) {
    exists i :: from <= i < |attempts| && attempts[i] == Attempt(CgEvent, Modifiers(side.KeyCode(), flags), true)
  }

  lemma {:induction false} FencedStays(
      attempts: seq<Attempt>, later: seq<Attempt>, from: nat, earlier: nat, flags: Flags, side: ModifierSide)
    requires Fenced(attempts, from, flags, side) && attempts <= later && earlier <= from
    ensures Fenced(later, earlier, flags, side)
  {
    var i :| from <= i < |attempts| && attempts[i] == Attempt(CgEvent, Modifiers(side.KeyCode(), flags), true);
    assert later[i] == attempts[i];
  }

  lemma {:induction false} RetrySidesKeepInv(sink: Sink, m: State, flags: Flags, order: seq<ModifierSide>)
    requires Inv(m)
    requires forall side :: side in m.pending ==> side.DeviceBit() !in flags
    ensures var (m1, fenced) := RetrySides(sink, m, m.path, flags, order);
      && Inv(m1) && SameRecord(m, m1)
      && (forall i :: |m.attempts| <= i < |m1.attempts| ==> m1.attempts[i].injection.Modifiers?)
      && (fenced ==> forall side :: side in order && side in m.pending ==>
            Fenced(m1.attempts, |m.attempts|, flags, side))
    decreases |order|
  {
    if order != [] {
      if order[0] !in m.pending {
        RetrySidesKeepInv(sink, m, flags, order[1..]);
      } else {
        RetrySideKeepsInv(sink, m, flags, order[0]);
        RetrySideSays(sink, m, flags, order[0]);
        RetrySideFences(sink, m, flags, order[0]);
        var (m1, fenced) := RetrySide(sink, m, m.path, flags, order[0]);
        if fenced {
          RetrySidesKeepInv(sink, m1, flags, order[1..]);
          var (m2, allFenced) := RetrySides(sink, m1, m.path, flags, order[1..]);
          if allFenced {
            forall side | side in order && side in m.pending
              ensures Fenced(m2.attempts, |m.attempts|, flags, side)
            {
              if side == order[0] {
                FencedStays(m1.attempts, m2.attempts, |m.attempts|, |m.attempts|, flags, side);
              } else {
                FencedStays(m2.attempts, m2.attempts, |m1.attempts|, |m.attempts|, flags, side);
              }
            }
          }
        }
      }
    }
  }

  lemma {:induction false} RetryClearsBits(m: State, observed: Flags, side: ModifierSide)
    requires Inv(m) && side in m.pending
    ensures side.DeviceBit() !in RetryFlags(m, observed)
    ensures ShowsReleased(RetryFlags(m, observed), side)
  {
    RetryFlagsShowReleased(observed, m.held, m.pending, side);
  }

  /** What a retry computes from the flags it observes. */
  function RetryPosts(sink: Sink, m: State): Flags {
    RetryFlags(m, sink.readback(m.readings).GetOr(m.localFlags))
  }

  /** A retry presses nothing and changes no record. */
  lemma {:induction false} RetryKeepsInv(sink: Sink, m: State)
    requires Inv(m)
    ensures var (m1, sent) := Retry(sink, m);
      && Inv(m1) && m.attempts <= m1.attempts && NoPress(m.attempts, m1.attempts)
      && m1.held == m.held && m1.pending == m.pending && m1.pressed == m.pressed && m1.path == m.path
      && (m.degraded ==> m1.degraded)
      && m1.fenceSent == (m.fenceSent || (sent && m.pending != {}))
  {
    if m.pending != {} {
      var r := RetryAtOnce(sink, m);
      RetrySidesFence(sink, m);
    }
  }

  lemma {:induction false} RetryAtOnce(sink: Sink, m: State) returns (r: (State, bool))
    requires m.pending != {}
    ensures r == RetrySides(sink, m.(readings := m.readings + 1), m.path, RetryPosts(sink, m), ALL)
    ensures Retry(sink, m) ==
      if r.1 then (r.0.(postFlags := RetryPosts(sink, m), fenceSent := true), true) else (r.0, false)
  {
    r := RetrySides(sink, m.(readings := m.readings + 1), m.path, RetryPosts(sink, m), ALL);
  }

  lemma {:induction false} RetrySidesFence(sink: Sink, m: State)
    requires Inv(m)
    ensures var (m1, sent) := RetrySides(sink, m.(readings := m.readings + 1), m.path, RetryPosts(sink, m), ALL);
      && Inv(m1) && SameRecord(m.(readings := m.readings + 1), m1) && NoPress(m.attempts, m1.attempts)
      && (sent ==> forall side :: side in m.pending ==>
            Fenced(m1.attempts, |m.attempts|, RetryPosts(sink, m), side))
  {
    forall side | side in m.pending ensures side.DeviceBit() !in RetryPosts(sink, m) {
      RetryClearsBits(m, sink.readback(m.readings).GetOr(m.localFlags), side);
    }
    RetrySidesKeepInv(sink, m.(readings := m.readings + 1), RetryPosts(sink, m), ALL);
    forall side: ModifierSide ensures side in ALL { var _ := AllIsComplete(side); }
  }

  /** An accepted retry has put an event through the fallback path behind the
      release of every pending side. */
  lemma {:induction false} RetryFences(sink: Sink, m: State, side: ModifierSide)
    requires Inv(m) && Retry(sink, m).1 && side in m.pending
    ensures Fenced(Retry(sink, m).0.attempts, |m.attempts|, RetryPosts(sink, m), side)
    ensures Retry(sink, m).0.postFlags == RetryPosts(sink, m)
  {
    var r := RetryAtOnce(sink, m);
    RetrySidesFence(sink, m);
  }

  // ---------------------------------------------------------- release all

  /** Releasing keys touches only the record of keys. */
  predicate KeysReleased(m: State, m1: State) {
    && m1.held == m.held && m1.pending == m.pending && m1.fenceSent == m.fenceSent && m1.path == m.path
    && m1.readings == m.readings && m1.pressed <= m.pressed
    && (m.degraded ==> m1.degraded) && m.attempts <= m1.attempts
    && NoPress(m.attempts, m1.attempts)
  }

  lemma {:induction false} ReleaseKeyKeepsInv(sink: Sink, m: State, path: Path, key: KeyCode)
    requires Inv(m) && path == m.path
    ensures Inv(ReleaseKey(sink, m, path, key)) && KeysReleased(m, ReleaseKey(sink, m, path, key))
  {
    ReleaseIsHeard(sink, m, path, Key(key, false, m.postFlags));
    var r := Release(sink, m, path, Key(key, false, m.postFlags));
    KeyUpIsHeard(m, r.0, key, m.postFlags, r.1);
  }

  /** What an up of `key`, accepted or not, leaves of the record. */
  lemma {:induction false} KeyUpIsHeard(m: State, m1: State, key: KeyCode, flags: Flags, accepted: bool)
    requires Inv(m) && SameRecord(m, m1)
    requires ToldBy(m1.attempts) == HearIf(ToldBy(m.attempts), Key(key, false, flags), accepted)
    requires forall i :: |m.attempts| <= i < |m1.attempts| ==> m1.attempts[i].injection == Key(key, false, flags)
    ensures var m2 := if accepted then m1.(pressed := m1.pressed - {key}) else m1;
      Inv(m2) && KeysReleased(m, m2)
  {
  }

  lemma {:induction false} ReleaseKeysKeepInv(sink: Sink, m: State, path: Path, keys: seq<KeyCode>)
    requires Inv(m) && path == m.path
    ensures Inv(ReleaseKeys(sink, m, path, keys)) && KeysReleased(m, ReleaseKeys(sink, m, path, keys))
    decreases |keys|
  {
    if keys != [] {
      ReleaseKeyKeepsInv(sink, m, path, keys[0]);
      ReleaseKeysKeepInv(sink, ReleaseKey(sink, m, path, keys[0]), path, keys[1..]);
    }
  }

  /** Mid-way through a release batch the sides still to try and the sides
      that failed are what macOS holds, and nothing else is. */
  predicate MidRelease(m: State, left: Sides, stillHeld: Sides) {
    && left !! stillHeld
    && ToldBy(m.attempts).raised == left + stillHeld
    && m.pending !! (left + stillHeld)
    && ToldBy(m.attempts).down <= m.pressed
    && (m.degraded ==> m.path.Nx?)
  }

  predicate OnlyReleases(plan: seq<PlanStep>) {
    forall step :: step in plan ==> step.side !in step.next
  }

  lemma {:induction false} ReleaseSideKeeps(
      sink: Sink, m: State, left: Sides, stillHeld: Sides, locallyHeld: Flags, step: PlanStep)
    requires MidRelease(m, left, stillHeld)
    requires step.side in left && step.next == left - {step.side} && step.side.DeviceBit() !in locallyHeld
    ensures var (m1, released) := ReleaseSide(sink, m, m.path, locallyHeld, step);
      && MidRelease(m1, step.next, if released then stillHeld else stillHeld + {step.side})
      && m1.path == m.path && m1.held == m.held && m1.pressed == m.pressed && m1.readings == m.readings
      && (m.degraded ==> m1.degraded) && m.attempts <= m1.attempts && NoPress(m.attempts, m1.attempts)
      && m1.pending == (if released then m.pending + {step.side} else m.pending)
      && m1.fenceSent == (m.fenceSent && !released)
  {
    var flags := locallyHeld + FlagsFor(step.next);
    ReleaseIsHeard(sink, m, m.path, Modifiers(step.side.KeyCode(), flags));
    HearSide(ToldBy(m.attempts), step.side, flags);
    FlagsForBits(step.next, step.side);
  }

  lemma {:induction false} ReleaseSidesKeep(
      sink: Sink, m: State, left: Sides, stillHeld: Sides, locallyHeld: Flags, plan: seq<PlanStep>)
    requires MidRelease(m, left, stillHeld)
    requires Chain(left, plan) && OnlyReleases(plan) && BaselineFits(locallyHeld, plan)
    ensures var (m1, held) := ReleaseSides(sink, m, m.path, locallyHeld, plan, stillHeld);
      && MidRelease(m1, EndOf(left, plan), held)
      && m1.path == m.path && m1.pressed == m.pressed && m1.readings == m.readings
      && (m.degraded ==> m1.degraded) && m.attempts <= m1.attempts && NoPress(m.attempts, m1.attempts)
      && m.pending <= m1.pending
      && left + stillHeld + m.pending <= EndOf(left, plan) + held + m1.pending
      && (m1.fenceSent ==> m.fenceSent && m1.pending == m.pending)
    decreases |plan|
  {
    if plan != [] {
      var step := plan[0];
      assert step in plan;
      ReleaseSideKeeps(sink, m, left, stillHeld, locallyHeld, step);
      var (m1, released) := ReleaseSide(sink, m, m.path, locallyHeld, step);
      ReleaseSidesKeep(sink, m1, step.next, if released then stillHeld else stillHeld + {step.side},
        locallyHeld, plan[1..]);
    }
  }

  lemma {:induction false} ReleaseHeldKeepsInv(sink: Sink, m: State)
    requires Inv(m)
    ensures var m1 := ReleaseHeld(sink, m, m.path);
      SoFar(m, m1) && m.pending <= m1.pending && m1.pressed == m.pressed && m.attempts <= m1.attempts
  {
    EmptyingPlan(m);
    ReleaseSidesKeep(sink, m, m.held, {}, Baseline(m, m.localFlags), Transitions(m.held, {}));
  }

  lemma {:induction false} ReleaseAllKeepsInv(sink: Sink, m: State) returns (m2: State)
    requires Inv(m)
    ensures SoFar(m, m2) && m.pending <= m2.pending
    ensures ReleaseAll(sink, m) == Finish(sink, m2)
  {
    var m1 := ReleaseKeys(sink, m, m.path, AscendingFrom(m.pressed, 0));
    ReleaseKeysKeepInv(sink, m, m.path, AscendingFrom(m.pressed, 0));
    ReleaseHeldKeepsInv(sink, m1);
    m2 := ReleaseHeld(sink, m1, m1.path);
  }

  lemma {:induction false} EmptyingPlan(m: State)
    requires Inv(m)
    ensures var plan := Transitions(m.held, {});
      Chain(m.held, plan) && OnlyReleases(plan) && EndOf(m.held, plan) == {}
      && BaselineFits(Baseline(m, m.localFlags), plan)
  {
    PlanIsMinimal(m.held, {});
    PlanFits(m, m.localFlags, {});
    assert |{} - m.held| == 0;
  }
}
