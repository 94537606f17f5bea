/** Recovery of the macOS event tap (input-capture/src/macos.rs): the callback
    thread that loses the tap, the producer task behind a bounded FIFO channel,
    and the gate that stays closed until the newest notification is handled. */
module TapRecovery {
  import opened Wrappers
  import opened Positions

  const GENERATIONS: nat := 0x1_0000_0000_0000_0000
  const CHANNEL_CAPACITY: nat := 32

  type Generation = g: int | 0 <= g < GENERATIONS

  datatype Recovery = Recovery(generation: Generation, interrupted: Option<Position>, claimed: bool)

  datatype ProducerEvent =
    | Release
    | Create(pos: Position)
    | Destroy(pos: Position)
    | Grab(pos: Position)
    | EventTapDisabled(generation: Generation)
    | Unrelated

  datatype CaptureEvent = Begin(pos: Position) | AutoRelease(pos: Position)

  datatype Claim = SupersededOrClaimed | NoCapture | Claimed(pos: Position)

  /** What the callback and the producer share under one lock. */
  datatype Shared = Shared(current: Option<Position>, generation: Generation, pending: Option<Recovery>)

  function OrElse(a: Option<Position>, b: Option<Position>): Option<Position> {
    if a.Some? then a else b
  }

  /** Wraps around and skips zero. */
  function NextGeneration(g: Generation): Generation {
    if g + 1 == GENERATIONS then 1 else g + 1
  }

  function Disable(s: Shared): Shared {
    var next := NextGeneration(s.generation);
    var interrupted := OrElse(s.current, if s.pending.Some? then s.pending.value.interrupted else None);
    Shared(None, next, Some(Recovery(next, interrupted, s.pending.Some? && s.pending.value.claimed)))
  }

  function DeferGrab(s: Shared, pos: Position): Shared
    requires s.pending.Some?
  {
    s.(pending := Some(s.pending.value.(interrupted := OrElse(s.pending.value.interrupted, Some(pos)))))
  }

  function ClaimRelease(s: Shared, generation: Generation): (Shared, Claim) {
    if s.pending.None? || s.pending.value.generation != generation || s.pending.value.claimed
    then (s, SupersededOrClaimed)
    else match s.pending.value.interrupted
      case None => (s, NoCapture)
      case Some(pos) => (s.(pending := Some(s.pending.value.(claimed := true))), Claimed(pos))
  }

  function CompleteRecovery(s: Shared, generation: Generation): Shared {
    if s.pending.Some? && s.pending.value.generation == generation then s.(pending := None) else s
  }

  /** One producer event under the lock; `hidden` says whether hiding the cursor
      worked. The second part is the edge whose AutoRelease must be published. */
  function Handle(s: Shared, event: ProducerEvent, hidden: bool): (Shared, Option<Position>) {
    match event
    case Release => (s.(current := None), None)
    case Destroy(pos) => (if s.current == Some(pos) then s.(current := None) else s, None)
    case Grab(pos) =>
      if s.pending.Some? then (DeferGrab(s, pos), None)
      else if s.current.None? && hidden then (s.(current := Some(pos)), None)
      else (s, None)
    case EventTapDisabled(generation) =>
      var s1 := s.(current := None);
      var s2 := if s.current.Some? && s.pending.Some? then DeferGrab(s1, s.current.value) else s1;
      var (s3, claim) := ClaimRelease(s2, generation);
      (s3, if claim.Claimed? then Some(claim.pos) else None)
    case Create(_) => (s, None)
    case Unrelated => (s, None)
  }

  class CaptureState {
    var current: Option<Position>
    var generation: Generation
    var pending: Option<Recovery>

    ghost function State(): Shared
      reads this
    {
      Shared(current, generation, pending)
    }

    constructor ()
      ensures State() == Shared(None, 0, None)
    {
      current, generation, pending := None, 0, None;
    }

    /** Drops ownership before the tap is re-enabled and keeps the interrupted
        edge, and any earlier claim, for the producer. */
    method EventTapDisabledTransition() returns (event: ProducerEvent)
      modifies this
      ensures State() == Disable(old(State()))
      ensures event == EventTapDisabled(generation)
    {
      generation := if generation + 1 == GENERATIONS then 0 else generation + 1;
      if generation == 0 {
        generation := 1;
      }
      var previous := pending;
      var interrupted := current;
      current := None;
      if interrupted.None? && previous.Some? {
        interrupted := previous.value.interrupted;
      }
      var claimed := previous.Some? && previous.value.claimed;
      pending := Some(Recovery(generation, interrupted, claimed));
      event := EventTapDisabled(generation);
    }

    method DeferGrabDuringRecovery(pos: Position) returns (deferred: bool)
      modifies this`pending
      ensures deferred <==> old(pending).Some?
      ensures State() == if deferred then DeferGrab(old(State()), pos) else old(State())
    {
      if pending.None? {
        return false;
      }
      if pending.value.interrupted.None? {
        pending := Some(pending.value.(interrupted := Some(pos)));
      }
      deferred := true;
    }

    method ClaimAutoRelease(generation: Generation) returns (claim: Claim)
      modifies this`pending
      ensures (State(), claim) == ClaimRelease(old(State()), generation)
    {
      if pending.None? || pending.value.generation != generation {
        return SupersededOrClaimed;
      }
      if pending.value.claimed {
        return SupersededOrClaimed;
      }
      if pending.value.interrupted.None? {
        return NoCapture;
      }
      claim := Claimed(pending.value.interrupted.value);
      pending := Some(pending.value.(claimed := true));
    }

    method Complete(generation: Generation) returns (reopened: bool)
      modifies this`pending
      ensures State() == CompleteRecovery(old(State()), generation)
      ensures reopened <==> old(pending).Some? && pending.None?
    {
      if pending.None? || pending.value.generation != generation {
        return false;
      }
      pending := None;
      reopened := true;
    }

    method HandleProducerEvent(event: ProducerEvent, hidden: bool) returns (autoRelease: Option<Position>)
      modifies this
      ensures (State(), autoRelease) == Handle(old(State()), event, hidden)
    {
      autoRelease := None;
      match event
      case Release =>
        current := None;
      case Destroy(pos) =>
        if current == Some(pos) {
          current := None;
        }
      case Grab(pos) =>
        var deferred := DeferGrabDuringRecovery(pos);
        if !deferred && current.None? && hidden {
          current := Some(pos);
        }
      case EventTapDisabled(generation) =>
        if current.Some? {
          var pos := current.value;
          current := None;
          var _ := DeferGrabDuringRecovery(pos);
        }
        var claim := ClaimAutoRelease(generation);
        if claim.Claimed? {
          autoRelease := Some(claim.pos);
        }
      case Create(_) =>
      case Unrelated =>
    }
  }
}
