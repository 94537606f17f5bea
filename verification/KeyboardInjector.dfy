/** The injector object of input-emulation/src/macos_keyboard.rs. Every method
    changes the fields step by step, in the order of that file, and is tied to the
    function of `KeyboardState` that says what one call does. */
module KeyboardInjector {
  import opened Wrappers
  import opened ModifierFlags
  import S = KeyboardState

  type WideBit = b: int | 0 <= b < 64

  class KeyboardInjector {
    const sink: S.Sink
    var path: S.Path
    var held: Sides
    var remoteFlags: Flags
    var pending: Sides
    var fenceSent: bool
    var postFlags: Flags
    var localFlags: Flags
    var pressed: set<KeyCode>
    var degraded: bool
    var dropped: nat
    var attempts: seq<S.Attempt>
    var readings: nat

    ghost function State(): S.State
      reads this
    {
      S.State(path, held, remoteFlags, pending, fenceSent, postFlags, localFlags, pressed, degraded, dropped,
        attempts, readings)
    }

    constructor (sink: S.Sink)
      ensures this.sink == sink && State() == S.Fresh(sink)
    {
      this.sink := sink;
      path, held, remoteFlags, pending, fenceSent := sink.preferred, {}, {}, {}, false;
      postFlags, localFlags, pressed, degraded, dropped := {}, {}, {}, false, 0;
      attempts, readings := [], 0;
    }

    method Inject(path: S.Path, injection: S.Injection) returns (accepted: bool)
      modifies this`attempts
      ensures (State(), accepted) == S.Inject(sink, old(State()), path, injection)
    {
      accepted := sink.accepts(|attempts|);
      attempts := attempts + [S.Attempt(path, injection, accepted)];
    }

    method Post(injection: S.Injection) returns (accepted: bool)
      modifies this`attempts, this`degraded
      ensures (State(), accepted) == S.Post(sink, old(State()), injection)
    {
      accepted := Inject(path, injection);
      if !accepted && path.Nx? {
        degraded := true;
      }
    }

    method Release(path: S.Path, injection: S.Injection) returns (released: bool)
      modifies this`attempts, this`degraded
      ensures (State(), released) == S.Release(sink, old(State()), path, injection)
    {
      released := Inject(path, injection);
      if released {
        return true;
      }
      if path == S.Nx {
        degraded := true;
      } else {
        return false;
      }
      released := Inject(S.CgEvent, injection);
    }

    method Settle()
      modifies this`path, this`degraded, this`dropped
      ensures State() == S.Settle(old(State()))
    {
      if !degraded || path != S.Nx {
        return;
      }
      if pressed != {} || held != {} || pending != {} {
        return;
      }
      path := S.CgEvent;
      degraded := false;
      dropped := 0;
    }

    method KeyDown(key: KeyCode)
      modifies this
      ensures State() == S.KeyDown(sink, old(State()), key)
    {
      if degraded {
        dropped := dropped + 1;
        return;
      }
      var accepted := Post(S.Key(key, true, postFlags));
      if accepted {
        pressed := pressed + {key};
      }
    }

    method KeyUp(key: KeyCode) returns (released: bool)
      modifies this
      ensures (State(), released) == S.KeyUp(sink, old(State()), key)
    {
      released := Release(path, S.Key(key, false, postFlags));
      if released {
        pressed := pressed - {key};
      }
      Settle();
    }

    method CapsTap(key: KeyCode) returns (ok: bool)
      modifies this
      ensures (State(), ok) == S.CapsTap(sink, old(State()), key)
    {
      if degraded {
        dropped := dropped + 1;
        return true;
      }
      var accepted := Post(S.Key(key, true, postFlags));
      if !accepted {
        return true;
      }
      ok := Release(path, S.Key(key, false, postFlags));
      if !ok {
        pressed := pressed + {key};
      }
      Settle();
    }

    method ConfirmInPlace()
      modifies this`pending, this`readings
      ensures State() == S.Confirm(sink, old(State()))
    {
      if pending == {} {
        return;
      }
      var reading := sink.readback(readings);
      readings := readings + 1;
      if reading.None? {
        pending := {};
        return;
      }
      if fenceSent {
        DropReleased(reading.value);
      }
    }

    method DropReleased(observed: Flags)
      modifies this`pending
      ensures pending == set side | side in old(pending) && !ShowsReleased(observed, side)
    {
      for i := 0 to |ALL|
        invariant pending == set side | side in old(pending) && !(side in ALL[..i] && ShowsReleased(observed, side))
      {
        var side := ALL[i];
        var sideHeld := side.DeviceBit() in observed;
        var aggregateOnly := side.GeneralBit() in observed && side.Sibling().DeviceBit() !in observed;
        if !sideHeld && !aggregateOnly {
          pending := pending - {side};
        }
      }
      forall side: ModifierSide ensures side in ALL[..|ALL|] { var _ := AllIsComplete(side); }
    }

    method ConfirmModifierReleases() returns (clear: bool)
      modifies this
      ensures (State(), clear) == S.ConfirmReleases(sink, old(State()))
    {
      ConfirmInPlace();
      Settle();
      clear := pending == {};
    }

    method SyncStep(locallyHeld: Flags, step: PlanStep) returns (accepted: bool)
      modifies this
      ensures (State(), accepted) == S.SyncStep(sink, old(State()), locallyHeld, step)
    {
      var flags := locallyHeld + FlagsFor(step.next);
      accepted := Post(S.Modifiers(step.side.KeyCode(), flags));
      if accepted {
        if step.side in step.next {
          pending := pending - {step.side};
        } else {
          pending := pending + {step.side};
          fenceSent := false;
        }
        held := step.next;
        remoteFlags := FlagsFor(step.next);
        postFlags := flags;
      }
    }

    method SyncSteps(locallyHeld: Flags, plan: seq<PlanStep>) returns (accepted: bool)
      modifies this
      ensures (State(), accepted) == S.SyncSteps(sink, old(State()), locallyHeld, plan)
    {
      accepted := true;
      var i := 0;
      while i < |plan|
        invariant i <= |plan| && accepted
        invariant S.SyncSteps(sink, State(), locallyHeld, plan[i..])
          == S.SyncSteps(sink, old(State()), locallyHeld, plan)
      {
        assert plan[i..][0] == plan[i] && plan[i..][1..] == plan[i + 1..];
        accepted := SyncStep(locallyHeld, plan[i]);
        if !accepted {
          return;
        }
        i := i + 1;
      }
    }

    method SyncModifiers(aggregate: Kinds, known: Sides, local: Flags) returns (accepted: bool)
      modifies this
      ensures (State(), accepted) == S.Sync(sink, old(State()), aggregate, known, local)
    {
      var desired := ComputeDesiredSides(aggregate, known);
      localFlags := local;
      var locallyHeld := LocallyHeldFlags(local, remoteFlags + FlagsFor(pending));
      var plan := ComputeTransitions(held, desired);
      accepted := SyncSteps(locallyHeld, plan);
      ConfirmInPlace();
      Settle();
    }

    method RetrySide(startPath: S.Path, flags: Flags, side: ModifierSide) returns (fenced: bool)
      modifies this`attempts, this`degraded
      ensures (State(), fenced) == S.RetrySide(sink, old(State()), startPath, flags, side)
    {
      var injection := S.Modifiers(side.KeyCode(), flags);
      fenced := Release(startPath, injection);
      if fenced && startPath == S.Nx {
        fenced := Release(S.CgEvent, injection);
      }
    }

    method RetrySides(startPath: S.Path, flags: Flags, order: seq<ModifierSide>) returns (fenced: bool)
      modifies this`attempts, this`degraded
      ensures (State(), fenced) == S.RetrySides(sink, old(State()), startPath, flags, order)
    {
      var i := 0;
      while i < |order|
        invariant i <= |order|
        invariant S.RetrySides(sink, State(), startPath, flags, order[i..])
               == S.RetrySides(sink, old(State()), startPath, flags, order)
      {
        assert order[i..][0] == order[i] && order[i..][1..] == order[i + 1..];
        if order[i] in pending {
          fenced := RetrySide(startPath, flags, order[i]);
          if !fenced {
            return;
          }
        }
        i := i + 1;
      }
      fenced := true;
    }

    method RetryModifierReleases() returns (sent: bool)
      modifies this
      ensures (State(), sent) == S.Retry(sink, old(State()))
    {
      if pending == {} {
        return true;
      }
      var observed := sink.readback(readings).GetOr(localFlags);
      readings := readings + 1;
      var flags := LocallyHeldFlags(observed, remoteFlags + FlagsFor(pending)) + remoteFlags;
      sent := RetrySides(path, flags, ALL);
      if sent {
        postFlags := flags;
        fenceSent := true;
      }
    }

    method ReleaseKey(startPath: S.Path, key: KeyCode)
      modifies this
      ensures State() == S.ReleaseKey(sink, old(State()), startPath, key)
    {
      var released := Release(startPath, S.Key(key, false, postFlags));
      if released {
        pressed := pressed - {key};
      }
    }

    method ReleaseKeys(startPath: S.Path)
      modifies this
      ensures State() == S.ReleaseKeys(sink, old(State()), startPath, S.AscendingFrom(old(pressed), 0))
    {
      var todo := S.AscendingFrom(pressed, 0);
      var i := 0;
      while i < |todo|
        invariant i <= |todo|
        invariant S.ReleaseKeys(sink, State(), startPath, todo[i..])
          == S.ReleaseKeys(sink, old(State()), startPath, todo)
      {
        assert todo[i..][0] == todo[i] && todo[i..][1..] == todo[i + 1..];
        ReleaseKey(startPath, todo[i]);
        i := i + 1;
      }
    }

    method ReleaseSide(startPath: S.Path, locallyHeld: Flags, step: PlanStep) returns (released: bool)
      modifies this
      ensures (State(), released) == S.ReleaseSide(sink, old(State()), startPath, locallyHeld, step)
    {
      var flags := locallyHeld + FlagsFor(step.next);
      released := Release(startPath, S.Modifiers(step.side.KeyCode(), flags));
      if released {
        pending := pending + {step.side};
        fenceSent := false;
        remoteFlags := FlagsFor(step.next);
        postFlags := flags;
      }
    }

    method ReleaseSides(startPath: S.Path, locallyHeld: Flags, plan: seq<PlanStep>) returns (stillHeld: Sides)
      modifies this
      ensures (State(), stillHeld) == S.ReleaseSides(sink, old(State()), startPath, locallyHeld, plan, {})
    {
      stillHeld := {};
      var i := 0;
      while i < |plan|
        invariant i <= |plan|
        invariant S.ReleaseSides(sink, State(), startPath, locallyHeld, plan[i..], stillHeld)
               == S.ReleaseSides(sink, old(State()), startPath, locallyHeld, plan, {})
      {
        assert plan[i..][0] == plan[i] && plan[i..][1..] == plan[i + 1..];
        var released := ReleaseSide(startPath, locallyHeld, plan[i]);
        if !released {
          stillHeld := stillHeld + {plan[i].side};
        }
        i := i + 1;
      }
    }

    method ReleaseAll() returns (keys: nat, sides: Sides)
      modifies this
      ensures State() == S.ReleaseAll(sink, old(State()))
      ensures keys == |pressed| && sides == held + pending
    {
      var startPath := path;
      ReleaseKeys(startPath);
      var locallyHeld := LocallyHeldFlags(localFlags, remoteFlags + FlagsFor(pending));
      var plan := ComputeTransitions(held, {});
      var stillHeld := ReleaseSides(startPath, locallyHeld, plan);
      held := stillHeld;
      pending := pending - stillHeld;
      remoteFlags := FlagsFor(stillHeld);
      ConfirmInPlace();
      Settle();
      keys, sides := |pressed|, held + pending;
    }

    /** Managed flags are recomputed, all others of the 64-bit word inherited. */
    method PointerEventFlags(inherited: set<WideBit>, observed: Flags) returns (flags: set<WideBit>)
      ensures flags * MANAGED == S.RetryFlags(State(), observed) * MANAGED
      ensures remoteFlags <= MANAGED ==> flags - MANAGED == inherited - MANAGED
    {
      var modifiers := LocallyHeldFlags(observed, remoteFlags + FlagsFor(pending)) + remoteFlags;
      LocallyHeldBits(observed, remoteFlags + FlagsFor(pending), LeftShift);
      flags := (inherited - MANAGED) + modifiers;
    }

    method WaitRetrying(retries: nat) returns (result: S.WaitResult)
      modifies this
      ensures (State(), result) == S.WaitRetrying(sink, old(State()), retries)
    {
      for i := 0 to retries
        invariant S.WaitRetrying(sink, old(State()), retries) == S.WaitRetrying(sink, State(), retries - i)
      {
        var sent := RetryModifierReleases();
        if !sent {
          return S.Failed;
        }
        var clear := ConfirmModifierReleases();
        if clear {
          return S.Cleared;
        }
      }
      result := S.TimedOut;
    }

    /** Drives releases even if no more input arrives; at most twenty retries. */
    method WaitModifierReleases() returns (result: S.WaitResult)
      modifies this
      ensures (State(), result) == S.Wait(sink, old(State()), 20)
    {
      var clear := ConfirmModifierReleases();
      if clear {
        return S.Cleared;
      }
      result := WaitRetrying(20);
    }
  }
}
