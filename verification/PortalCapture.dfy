/** The portal capture task itself: the fields its select loop updates in place. */
module PortalCapture {
  import opened Wrappers
  import opened Positions
  import opened PortalBarriers
  import opened Sequences
  import opened SerialNumbers
  import opened PortalSession
  import opened PortalRuns

  class PortalCapture {
    const gnome: bool
    var clients: seq<Position>
    var next: nat
    var connected: bool
    var session: nat
    var zoneSet: nat
    var barriers: seq<Barrier>
    var positions: map<nat, Position>
    var active: Option<Position>
    var current: Option<Position>
    var stopped: bool
    ghost var outs: seq<Out>

    ghost function Now(): State
      reads this
    {
      State(gnome, clients, next, connected, session, zoneSet, barriers, positions, active, current, stopped)
    }

    /** Identifiers left to hand out. */
    ghost predicate Valid()
      reads this
    {
      0 < next <= MAX_BARRIER_ID
    }

    constructor (gnome: bool)
      ensures Valid() && Now() == Initial(gnome) && outs == []
    {
      this.gnome := gnome;
      clients, next, connected, session, zoneSet, stopped := [], 1, false, 0, 0, false;
      barriers, positions, active, current := [], map[], None, None;
      outs := [];
    }

    method Emit(out: Out)
      modifies this`outs
      ensures outs == old(outs) + [out]
    {
      outs := outs + [out];
    }

    method EmitForcedAutoRelease(pos: Option<Position>)
      modifies this`outs
      ensures outs == old(outs) + AutoReleases(pos)
    {
      if pos.Some? {
        Emit(AutoRelease(pos.value));
      }
    }

    method Close()
      requires Valid()
      modifies this
      ensures Valid() && Now() == Closed(old(Now())) && outs == old(outs)
    {
      connected, barriers, positions, active, current := false, [], map[], None, None;
    }

    method Fail()
      requires Valid()
      modifies this
      ensures Valid() && Now() == Failed(old(Now())) && outs == old(outs)
    {
      Close();
      stopped := true;
    }

    /** The event handler won the race: whatever the select loop was doing is
        dropped. */
    method OnEisExited()
      requires Valid()
      modifies this
      ensures Valid() && Now() == EisGone(old(Now())).state && outs == old(outs) + EisGone(old(Now())).outs
    {
      var pos := current;
      Close();
      EmitForcedAutoRelease(pos);
    }

    method TakeActive() returns (pos: Option<Position>)
      requires Valid()
      modifies this`active, this`current
      ensures Valid() && pos == old(active)
      ensures Now() == if pos.Some? then Idle(old(Now())) else old(Now())
    {
      pos := active;
      if pos.Some? {
        active, current := None, None;
      }
    }

    method ApplyUpdate(event: ClientEvent) returns (changed: bool)
      requires Valid()
      modifies this`clients
      ensures Valid() && changed == ApplyClientUpdate(old(clients), event).Some?
      ensures clients == ApplyClientUpdate(old(clients), event).GetOr(old(clients))
    {
      if event.Create? && event.pos !in clients {
        clients := clients + [event.pos];
        return true;
      } else if event.Destroy? && event.pos in clients {
        clients := Retain(clients, event.pos);
        return true;
      }
      return false;
    }

    method ConfigureBarriers(answer: Option<Answer>)
      requires Valid()
      modifies this
      ensures Valid() && Now() == Configure(old(Now()), answer) && outs == old(outs)
    {
      if answer.None? {
        Fail();
        return;
      }
      var selection := SelectBarriers(answer.value.layout, clients, next);
      if selection.None? {
        Fail();
        return;
      }
      connected, barriers, positions := true, selection.value.barriers, selection.value.positions;
      next, zoneSet := selection.value.next, Wrap(answer.value.zoneSet);
    }

    /** Zone and client changes: release, report, rebuild. */
    method OnReconfigure(released: bool, loss: Loss, answer: Option<Answer>)
      requires Valid() && !stopped && current == active
      modifies this
      ensures Valid() && Now() == Reconfigure(old(Now()), released, loss, answer).state
      ensures outs == old(outs) + Reconfigure(old(Now()), released, loss, answer).outs
    {
      var interrupted := TakeActive();
      if interrupted.Some? && (loss.InRelease? || loss.InSend?) {
        OnEisExited();
        return;
      }
      EmitForcedAutoRelease(interrupted);
      if interrupted.Some? && !released {
        Fail();
      } else if gnome {
        Close();
      } else if loss.InConfigure? {
        if answer.Some? {
          ConfigureBarriers(answer);
        }
        if !stopped {
          OnEisExited();
        }
      } else {
        ConfigureBarriers(answer);
      }
    }

    method OnActivated(barrier: Option<nat>, cursor: Option<Cursor>, released: bool, loss: Loss)
      requires Valid() && active.None? && current.None?
      modifies this
      ensures Valid() && Now() == Activate(old(Now()), Mapped(old(Now()), barrier, cursor), released, loss).state
      ensures outs == old(outs) + Activate(old(Now()), Mapped(old(Now()), barrier, cursor), released, loss).outs
    {
      var id := barrier;
      if barrier.None? && cursor.Some? {
        id := FindCorrespondingClient(barriers, cursor.value);
      }
      if id.None? || id.value !in positions {
        if loss.InRelease? {
          OnEisExited();
        } else if !released {
          Fail();
        }
        return;
      }
      var pos := positions[id.value];
      current := Some(pos);
      if loss.InSend? {
        OnEisExited();
      } else {
        Emit(Begin(pos));
        active := Some(pos);
      }
    }

    method OnReleaseRequest(released: bool, loss: Loss)
      requires Valid() && current == active
      modifies this
      ensures Valid() && Now() == Release(old(Now()), released, loss).state
      ensures outs == old(outs) + Release(old(Now()), released, loss).outs
    {
      var pos := TakeActive();
      if pos.Some? {
        Emit(Requested(pos.value));
        if loss.InRelease? {
          OnEisExited();
          return;
        }
        if !released {
          Fail();
          return;
        }
      }
      Emit(Acked);
    }

    /** A session change ends the session even if the portal release fails. */
    method OnSessionNotified(loss: Loss)
      requires Valid() && connected && !stopped && current == active
      modifies this
      ensures Valid() && Now() == SessionStep(old(Now()), SessionNotified(loss)).state
      ensures outs == old(outs) + SessionStep(old(Now()), SessionNotified(loss)).outs
    {
      var interrupted := TakeActive();
      if interrupted.Some? && (loss.InRelease? || loss.InSend?) {
        OnEisExited();
        return;
      }
      EmitForcedAutoRelease(interrupted);
      Close();
    }

    method OnCancelled(loss: Loss)
      requires Valid() && connected && !stopped && current == active
      modifies this
      ensures Valid() && Now() == SessionStep(old(Now()), Cancelled(loss)).state
      ensures outs == old(outs) + SessionStep(old(Now()), Cancelled(loss)).outs
    {
      var interrupted := TakeActive();
      if interrupted.Some? && loss.InRelease? {
        OnEisExited();
      } else {
        Fail();
      }
    }

    /** One arm of the session loop. */
    method DoSessionArm(arm: Arm)
      requires Valid() && connected && !stopped && current == active
      modifies this
      ensures Valid() && Now() == SessionStep(old(Now()), arm).state
      ensures outs == old(outs) + SessionStep(old(Now()), arm).outs
    {
      match arm {
        case Activated(session, barrier, cursor, released, loss) =>
          if active.None? && session == this.session {
            OnActivated(barrier, cursor, released, loss);
          }
        case ReleaseRequest(released, loss) => OnReleaseRequest(released, loss);
        case SessionNotified(loss) => OnSessionNotified(loss);
        case Cancelled(loss) => OnCancelled(loss);
        case ZonesChanged(session, zoneSet, released, loss, answer) =>
          if session == this.session && (zoneSet.None? || CurrentOrNewer(Wrap(this.zoneSet), Wrap(zoneSet.value))) {
            OnReconfigure(released, loss, answer);
          }
        case ClientUpdate(event, released, loss, answer) =>
          var changed := ApplyUpdate(event);
          if changed {
            OnReconfigure(released, loss, answer);
          }
        case Connect(_, _) =>
        case EisExited => OnEisExited();
        case ChannelClosed => Fail();
      }
    }

    /** Without a client edge the capture task waits unconnected. */
    method DoWaitingArm(arm: Arm)
      requires Valid() && !connected && !stopped
      modifies this
      ensures Valid() && Now() == WaitingStep(old(Now()), arm).state
      ensures outs == old(outs) + WaitingStep(old(Now()), arm).outs
    {
      if clients != [] {
        if arm.Connect? {
          session := arm.session;
          ConfigureBarriers(arm.answer);
        }
        return;
      }
      match arm {
        case ReleaseRequest(_, _) => Emit(Acked);
        case ClientUpdate(event, _, _, _) => var _ := ApplyUpdate(event);
        case Cancelled(_) => Fail();
        case ChannelClosed => Fail();
        case _ =>
      }
    }

    /** The whole capture task, over everything its channels and the portal deliver. */
    method DoCapture(arms: seq<Arm>)
      requires Valid() && Now() == Initial(gnome) && outs == []
      modifies this
      ensures Now() == Run(Initial(gnome), arms) && outs == Emitted(Initial(gnome), arms)
      ensures NoHandoverLost(Initial(gnome), arms) ==> BeginsSeparated(outs)
    {
      ghost var s0 := Now();
      for i := 0 to |arms|
        invariant Valid() && current == active
        invariant Now() == Run(s0, arms[..i]) && outs == Emitted(s0, arms[..i])
      {
        assert arms[..i + 1] == arms[..i] + [arms[i]];
        RunMore(s0, arms[..i], arms[i]);
        CurrentIsActive(Now(), arms[i]);
        if stopped {
        } else if connected {
          DoSessionArm(arms[i]);
        } else {
          DoWaitingArm(arms[i]);
        }
      }
      assert arms[..|arms|] == arms;
      if NoHandoverLost(s0, arms) {
        EveryRunSeparatesBegins(gnome, arms);
      }
    }
  }
}
