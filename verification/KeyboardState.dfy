/** What one call of the macOS keyboard injector does to its state
    (input-emulation/src/macos_keyboard.rs), as functions. The sink is an
    adversary: it accepts or rejects the n-th injection and answers the n-th
    readback as it likes. `KeyboardInjector` implements these functions,
    `KeyboardRuns` proves what whole runs of them keep. */
module KeyboardState {
  import opened Wrappers
  import opened ModifierFlags

  datatype Path = Nx | CgEvent

  datatype Injection =
    | Modifiers(keyCode: KeyCode, flags: Flags)
    | Key(keyCode: KeyCode, down: bool, cgFlags: Flags)

  datatype Attempt = Attempt(path: Path, injection: Injection, accepted: bool)

  datatype Sink = Sink(preferred: Path, accepts: nat -> bool, readback: nat -> Option<Flags>)

  /** `attempts` is everything handed to the sink so far and `readings` how often
      the sink's modifier flags were read; both index the sink's answers. */
  datatype State = State(
    path: Path,
    held: Sides,
    remoteFlags: Flags,
    pending: Sides,
    fenceSent: bool,
    postFlags: Flags,
    localFlags: Flags,
    pressed: set<KeyCode>,
    degraded: bool,
    dropped: nat,
    attempts: seq<Attempt>,
    readings: nat)

  function Fresh(sink: Sink): State {
    State(sink.preferred, {}, {}, {}, false, {}, {}, {}, false, 0, [], 0)
  }

  function Inject(sink: Sink, m: State, path: Path, injection: Injection): (State, bool) {
    var accepted := sink.accepts(|m.attempts|);
    (m.(attempts := m.attempts + [Attempt(path, injection, accepted)]), accepted)
  }

  function Post(sink: Sink, m: State, injection: Injection): (State, bool) {
    var (m1, accepted) := Inject(sink, m, m.path, injection);
    (m1.(degraded := m.degraded || (!accepted && m.path.Nx?)), accepted)
  }

  /** A release retries once through the other path. */
  function Release(sink: Sink, m: State, path: Path, injection: Injection): (State, bool) {
    var (m1, accepted) := Inject(sink, m, path, injection);
    if accepted then (m1, true)
    else if path != Nx then (m1, false)
    else Inject(sink, m1.(degraded := true), CgEvent, injection)
  }

  /** The failed path is replaced only once nothing injected is recorded. */
  function Settle(m: State): State {
    if m.degraded && m.path.Nx? && m.pressed == {} && m.held == {} && m.pending == {}
    then m.(path := CgEvent, degraded := false, dropped := 0)
    else m
  }

  function KeyDown(sink: Sink, m: State, key: KeyCode): State {
    if m.degraded then m.(dropped := m.dropped + 1)
    else
      var (m1, accepted) := Post(sink, m, Key(key, true, m.postFlags));
      if accepted then m1.(pressed := m1.pressed + {key}) else m1
  }

  function KeyUp(sink: Sink, m: State, key: KeyCode): (State, bool) {
    var (m1, released) := Release(sink, m, m.path, Key(key, false, m.postFlags));
    (Settle(if released then m1.(pressed := m1.pressed - {key}) else m1), released)
  }

  function CapsTap(sink: Sink, m: State, key: KeyCode): (State, bool) {
    if m.degraded then (m.(dropped := m.dropped + 1), true)
    else
      var (m1, accepted) := Post(sink, m, Key(key, true, m.postFlags));
      if !accepted then (m1, true)
      else
        var (m2, released) := Release(sink, m1, m.path, Key(key, false, m.postFlags));
        (Settle(if released then m2 else m2.(pressed := m2.pressed + {key})), released)
  }

  /** The flags no remote side explains, held or still pending. */
  function Baseline(m: State, localFlags: Flags): Flags {
    LocallyHeldFlags(localFlags, m.remoteFlags + FlagsFor(m.pending))
  }

  function SyncStep(sink: Sink, m: State, locallyHeld: Flags, step: PlanStep): (State, bool) {
    var flags := locallyHeld + FlagsFor(step.next);
    var (m1, accepted) := Post(sink, m, Modifiers(step.side.KeyCode(), flags));
    if accepted then (Record(m1, step, flags), true) else (m1, false)
  }

  function SyncSteps(sink: Sink, m: State, locallyHeld: Flags, plan: seq<PlanStep>): (State, bool)
    decreases |plan|
  {
    if plan == [] then (m, true)
    else
      var (m1, accepted) := SyncStep(sink, m, locallyHeld, plan[0]);
      if accepted then SyncSteps(sink, m1, locallyHeld, plan[1..]) else (m1, false)
  }

  /** The bookkeeping after macOS accepted one transition. */
  function Record(m: State, step: PlanStep, flags: Flags): State {
    var pressed := step.side in step.next;
    m.(pending := if pressed then m.pending - {step.side} else m.pending + {step.side},
       fenceSent := m.fenceSent && pressed,
       held := step.next, remoteFlags := FlagsFor(step.next), postFlags := flags)
  }

  function Sync(sink: Sink, m: State, aggregate: Kinds, known: Sides, localFlags: Flags): (State, bool) {
    var m1 := m.(localFlags := localFlags);
    var (m2, accepted) :=
      SyncSteps(sink, m1, Baseline(m1, localFlags), Transitions(m1.held, DesiredSides(aggregate, known)));
    (Finish(sink, m2), accepted)
  }

  /** Without readback a release is believed at once; with it, only a reading
      after the release fence can confirm a side. */
  function Confirm(sink: Sink, m: State): State {
    if m.pending == {} then m
    else
      var m1 := m.(readings := m.readings + 1);
      match sink.readback(m.readings)
      case None => m1.(pending := {})
      case Some(observed) =>
        if !m.fenceSent then m1
        else m1.(pending := set side | side in m.pending && !ShowsReleased(observed, side))
  }

  function Finish(sink: Sink, m: State): State {
    Settle(Confirm(sink, m))
  }

  function ConfirmReleases(sink: Sink, m: State): (State, bool) {
    var m1 := Finish(sink, m);
    (m1, m1.pending == {})
  }

  function RetryFlags(m: State, observed: Flags): Flags {
    Baseline(m, observed) + m.remoteFlags
  }

  /** One idempotent release, repeated on the fallback path as the fence. */
  function RetrySide(sink: Sink, m: State, path: Path, flags: Flags, side: ModifierSide): (State, bool) {
    var injection := Modifiers(side.KeyCode(), flags);
    var (m1, released) := Release(sink, m, path, injection);
    if !released || path.CgEvent? then (m1, released) else Release(sink, m1, CgEvent, injection)
  }

  function RetrySides(sink: Sink, m: State, path: Path, flags: Flags, order: seq<ModifierSide>): (State, bool)
    decreases |order|, m.readings
  {
    if order == [] then (m, true)
    else if order[0] !in m.pending then RetrySides(sink, m, path, flags, order[1..])
    else
      var (m1, fenced) := RetrySide(sink, m, path, flags, order[0]);
      if fenced then RetrySides(sink, m1, path, flags, order[1..]) else (m1, false)
  }

  function Retry(sink: Sink, m: State): (State, bool) {
    if m.pending == {} then (m, true)
    else
      var flags := RetryFlags(m, sink.readback(m.readings).GetOr(m.localFlags));
      var (m1, accepted) := RetrySides(sink, m.(readings := m.readings + 1), m.path, flags, ALL);
      if accepted then (m1.(postFlags := flags, fenceSent := true), true) else (m1, false)
  }

  /** The recorded keys in the order a tree set is walked. */
  function AscendingFrom(keys: set<KeyCode>, from: nat): seq<KeyCode>
    requires from <= 0x1_0000
    decreases 0x1_0000 - from, keys
  {
    if from == 0x1_0000 then []
    else (if from in keys then [from] else []) + AscendingFrom(keys, from + 1)
  }

  function ReleaseKey(sink: Sink, m: State, path: Path, key: KeyCode): State {
    var (m1, released) := Release(sink, m, path, Key(key, false, m.postFlags));
    if released then m1.(pressed := m1.pressed - {key}) else m1
  }

  function ReleaseKeys(sink: Sink, m: State, path: Path, keys: seq<KeyCode>): State
    decreases |keys|
  {
    if keys == [] then m else ReleaseKeys(sink, ReleaseKey(sink, m, path, keys[0]), path, keys[1..])
  }

  function ReleaseSide(sink: Sink, m: State, path: Path, locallyHeld: Flags, step: PlanStep): (State, bool) {
    var flags := locallyHeld + FlagsFor(step.next);
    var (m1, released) := Release(sink, m, path, Modifiers(step.side.KeyCode(), flags));
    if released then
      (m1.(pending := m1.pending + {step.side}, fenceSent := false,
           remoteFlags := FlagsFor(step.next), postFlags := flags), true)
    else (m1, false)
  }

  /** Goes on past a failed release, collecting the side as still held. */
  function ReleaseSides(sink: Sink, m: State, path: Path, locallyHeld: Flags, plan: seq<PlanStep>, stillHeld: Sides)
    : (State, Sides)
    decreases |plan|
  {
    if plan == [] then (m, stillHeld)
    else
      var (m1, released) := ReleaseSide(sink, m, path, locallyHeld, plan[0]);
      ReleaseSides(sink, m1, path, locallyHeld, plan[1..], if released then stillHeld else stillHeld + {plan[0].side})
  }

  /** Every held side in one batch; the ones that would not go stay held. */
  function ReleaseHeld(sink: Sink, m: State, path: Path): State {
    var (m1, stillHeld) := ReleaseSides(sink, m, path, Baseline(m, m.localFlags), Transitions(m.held, {}), {});
    m1.(held := stillHeld, pending := m1.pending - stillHeld, remoteFlags := FlagsFor(stillHeld))
  }

  function ReleaseAll(sink: Sink, m: State): State {
    Finish(sink, ReleaseHeld(sink, ReleaseKeys(sink, m, m.path, AscendingFrom(m.pressed, 0)), m.path))
  }

  datatype WaitResult = Cleared | TimedOut | Failed

  /** Confirms first, then alternates retry and confirmation. */
  function Wait(sink: Sink, m: State, retries: nat): (State, WaitResult) {
    var (m1, clear) := ConfirmReleases(sink, m);
    if clear then (m1, Cleared) else WaitRetrying(sink, m1, retries)
  }

  function WaitRetrying(sink: Sink, m: State, retries: nat): (State, WaitResult)
    decreases retries, m.readings
  {
    if retries == 0 then (m, TimedOut)
    else
      var (m1, sent) := Retry(sink, m);
      if !sent then (m1, Failed)
      else
        var (m2, clear) := ConfirmReleases(sink, m1);
        if clear then (m2, Cleared) else WaitRetrying(sink, m2, retries - 1)
  }
}
