/** `InputEmulation` (input-emulation/src/lib.rs): per-handle ledgers over a
    backend that may refuse any call, and the gate that keeps every later input
    back until a failed retirement has been cleaned up. */
module InputEmulation {
  import opened InputLedger
  import opened LedgerHistory

  class InputEmulation {
    var handles: set<Handle>
    var pendingCleanup: set<Handle>
    var pressedKeys: map<Handle, set<KeyOrButton>>
    var pressedButtons: map<Handle, set<KeyOrButton>>
    ghost var log: seq<Call>

    ghost function Record(handle: Handle): Pressed
      reads this
    {
      Pressed(if handle in pressedKeys then pressedKeys[handle] else {},
              if handle in pressedButtons then pressedButtons[handle] else {})
    }

    /** The ledger is exactly what the call log has on record, for every handle
        dead or alive, so nothing stays down on a handle that was retired. */
    ghost predicate Valid()
      reads this
    {
      && pendingCleanup <= handles
      && pressedKeys.Keys == handles
      && pressedButtons.Keys <= handles
      && Judged(log)
      && forall handle :: Record(handle) == RecordBy(log, handle)
    }

    constructor ()
      ensures Valid() && handles == {} && log == []
    {
      handles, pendingCleanup, pressedKeys, pressedButtons := {}, {}, map[], map[];
      log := [];
    }

    /** The backend may refuse anything. */
    method Backend(handle: Handle, event: Event, origin: Origin) returns (accepted: bool)
      modifies this`log
      ensures log == old(log) + [Inject(handle, event, origin, pendingCleanup, accepted)]
    {
      accepted := *;
      log := log + [Inject(handle, event, origin, pendingCleanup, accepted)];
    }

    method TrackSnapshotModifiers(handle: Handle, depressed: Mask)
      modifies this`pressedKeys
      ensures pressedKeys == if handle in old(pressedKeys)
        then old(pressedKeys)[handle := TrackSnapshot(old(pressedKeys)[handle], depressed)] else old(pressedKeys)
    {
      if handle !in pressedKeys {
        return;
      }
      var keys := pressedKeys[handle];
      for i := 0 to |GROUPS|
        invariant TrackGroups(keys, depressed, GROUPS[i..]) == TrackSnapshot(pressedKeys[handle], depressed)
      {
        var group := GROUPS[i];
        assert GROUPS[i..][0] == group && GROUPS[i..][1..] == GROUPS[i + 1..];
        if depressed * group.bits == {} {
          keys := keys - {group.left, group.right};
        } else if !(group.left in keys || group.right in keys) {
          keys := keys + {group.left};
        }
      }
      pressedKeys := pressedKeys[handle := keys];
    }

    method ForwardKey(handle: Handle, key: KeyOrButton, state: nat) returns (ok: bool)
      requires handle in pressedKeys
      modifies this`pressedKeys, this`log
      ensures Record(handle) == AfterEvent(old(Record(handle)), KeyEvent(key, state), ok)
      ensures handle in pressedKeys && pressedKeys == old(pressedKeys)[handle := pressedKeys[handle]]
      ensures log == old(log) + Logged(old(Record(handle)), handle, pendingCleanup, KeyEvent(key, state), ok)
      ensures !Sends(old(Record(handle)), KeyEvent(key, state)) ==> ok
    {
      var keys := pressedKeys[handle];
      if (state == 0) != (key in keys) {
        return true;
      }
      pressedKeys := pressedKeys[handle := if state == 0 then keys - {key} else keys + {key}];
      ok := Backend(handle, KeyEvent(key, state), Forwarded);
      if !ok {
        pressedKeys := pressedKeys[handle := pressedKeys[handle] + {key}];
      }
    }

    method ForwardButton(handle: Handle, button: KeyOrButton, state: nat) returns (ok: bool)
      modifies this`pressedButtons, this`log
      ensures Record(handle) == AfterEvent(old(Record(handle)), ButtonEvent(button, state), ok)
      ensures handle in pressedButtons && pressedButtons == old(pressedButtons)[handle := pressedButtons[handle]]
      ensures log == old(log) + Logged(old(Record(handle)), handle, pendingCleanup, ButtonEvent(button, state), ok)
    {
      var buttons := if handle in pressedButtons then pressedButtons[handle] else {};
      pressedButtons := pressedButtons[handle := buttons + {button}];
      ok := Backend(handle, ButtonEvent(button, state), Forwarded);
      if ok && state == 0 {
        pressedButtons := pressedButtons[handle := pressedButtons[handle] - {button}];
      }
    }

    method ForwardModifiers(handle: Handle, depressed: Mask) returns (ok: bool)
      requires handle in pressedKeys
      modifies this`pressedKeys, this`log
      ensures Record(handle) == AfterEvent(old(Record(handle)), ModifiersEvent(depressed), ok)
      ensures handle in pressedKeys && pressedKeys == old(pressedKeys)[handle := pressedKeys[handle]]
      ensures log == old(log) + Logged(old(Record(handle)), handle, pendingCleanup, ModifiersEvent(depressed), ok)
    {
      var previous := pressedKeys[handle];
      TrackSnapshotModifiers(handle, depressed);
      ok := Backend(handle, ModifiersEvent(depressed), Forwarded);
      if !ok {
        pressedKeys := pressedKeys[handle := previous];
      }
    }

    method Dispatch(event: Event, handle: Handle) returns (ok: bool)
      requires handle in pressedKeys
      modifies this`pressedKeys, this`pressedButtons, this`log
      ensures Record(handle) == AfterEvent(old(Record(handle)), event, ok)
      ensures forall other :: other != handle ==> Record(other) == old(Record(other))
      ensures pressedKeys.Keys == old(pressedKeys.Keys) && pressedButtons.Keys <= old(pressedButtons.Keys) + {handle}
      ensures log == old(log) + Logged(old(Record(handle)), handle, pendingCleanup, event, ok)
      ensures !Sends(old(Record(handle)), event) ==> ok
    {
      match event {
        case KeyEvent(key, state) => ok := ForwardKey(handle, key, state);
        case ButtonEvent(button, state) => ok := ForwardButton(handle, button, state);
        case ModifiersEvent(depressed) => ok := ForwardModifiers(handle, depressed);
        case ClipboardEvent => ok := true;
        case OtherEvent => ok := Backend(handle, event, Forwarded);
      }
    }

    /** One event of a live handle, once the gate is open. */
    method Forward(event: Event, handle: Handle) returns (ok: bool)
      requires Valid() && handle in handles && pendingCleanup == {}
      modifies this`pressedKeys, this`pressedButtons, this`log
      ensures Valid()
      ensures Record(handle) == AfterEvent(old(Record(handle)), event, ok)
      ensures forall other :: other != handle ==> Record(other) == old(Record(other))
      ensures log == old(log) + Logged(old(Record(handle)), handle, pendingCleanup, event, ok)
      ensures !Sends(old(Record(handle)), event) ==> ok
    {
      ghost var log0 := log;
      ok := Dispatch(event, handle);
      ForwardedEventRecords(log0, handle, event, ok);
    }

    /** Only an accepted key or button release is forgotten. */
    method Forget(handle: Handle, event: Event)
      modifies this`pressedKeys, this`pressedButtons
      ensures Record(handle) == AfterCleanup(old(Record(handle)), event, true)
      ensures forall other :: other != handle ==> Record(other) == old(Record(other))
      ensures pressedKeys.Keys == old(pressedKeys.Keys) && pressedButtons.Keys == old(pressedButtons.Keys)
    {
      if event.KeyEvent? && handle in pressedKeys {
        pressedKeys := pressedKeys[handle := pressedKeys[handle] - {event.key}];
      }
      if event.ButtonEvent? && handle in pressedButtons {
        pressedButtons := pressedButtons[handle := pressedButtons[handle] - {event.button}];
      }
    }

    method Clean(handle: Handle, event: Event) returns (ok: bool)
      requires Valid() && IsRelease(event)
      modifies this`pressedKeys, this`pressedButtons, this`log
      ensures Valid()
      ensures Record(handle) == AfterCleanup(old(Record(handle)), event, ok)
      ensures forall other :: other != handle ==> Record(other) == old(Record(other))
      ensures log == old(log) + [Inject(handle, event, Cleanup, pendingCleanup, ok)]
    {
      ghost var log0 := log;
      ok := Backend(handle, event, Cleanup);
      if ok {
        Forget(handle, event);
      }
      CleanupEventRecords(log0, handle, event, pendingCleanup, ok);
    }

    method CleanKeys(handle: Handle) returns (ok: bool)
      requires Valid() && handle in handles
      modifies this`pressedKeys, this`pressedButtons, this`log
      ensures Valid() && old(log) <= log && OnlyCleans(log, |old(log)|, handle) && OnlyKeys(log, |old(log)|)
      ensures forall other :: other != handle ==> Record(other) == old(Record(other))
      ensures Record(handle).buttons == old(Record(handle)).buttons
      ensures Record(handle).keys == KeysLeft(old(Record(handle)).keys, log, |old(log)|, handle)
      ensures ok <==> Record(handle).keys == {}
      ensures ok <==> AllAccepted(log, |old(log)|)
    {
      ghost var all, from := Record(handle).keys, |log|;
      var todo := pressedKeys[handle];
      ok := true;
      while todo != {}
        invariant Valid() && old(log) <= log && OnlyCleans(log, from, handle) && OnlyKeys(log, from)
        invariant forall other :: other != handle ==> Record(other) == old(Record(other))
        invariant Record(handle).buttons == old(Record(handle)).buttons
        invariant todo <= Record(handle).keys == KeysLeft(all, log, from, handle)
        invariant ok <==> Record(handle).keys == todo
        invariant ok <==> AllAccepted(log, from)
      {
        var key :| key in todo;
        todo := todo - {key};
        KeyCleaned(all, log, from, handle, key, pendingCleanup, true);
        KeyCleaned(all, log, from, handle, key, pendingCleanup, false);
        var accepted := Clean(handle, KeyEvent(key, 0));
        ok := ok && accepted;
      }
    }

    method CleanButtons(handle: Handle) returns (ok: bool)
      requires Valid() && handle in handles
      modifies this`pressedKeys, this`pressedButtons, this`log
      ensures Valid() && old(log) <= log && OnlyCleans(log, |old(log)|, handle) && OnlyButtons(log, |old(log)|)
      ensures forall other :: other != handle ==> Record(other) == old(Record(other))
      ensures Record(handle).keys == old(Record(handle)).keys
      ensures Record(handle).buttons == ButtonsLeft(old(Record(handle)).buttons, log, |old(log)|, handle)
      ensures ok <==> Record(handle).buttons == {}
      ensures ok <==> AllAccepted(log, |old(log)|)
    {
      ghost var all, from := Record(handle).buttons, |log|;
      var todo := if handle in pressedButtons then pressedButtons[handle] else {};
      ok := true;
      while todo != {}
        invariant Valid() && old(log) <= log && OnlyCleans(log, from, handle) && OnlyButtons(log, from)
        invariant forall other :: other != handle ==> Record(other) == old(Record(other))
        invariant Record(handle).keys == old(Record(handle)).keys
        invariant todo <= Record(handle).buttons == ButtonsLeft(all, log, from, handle)
        invariant ok <==> Record(handle).buttons == todo
        invariant ok <==> AllAccepted(log, from)
      {
        var button :| button in todo;
        todo := todo - {button};
        ButtonCleaned(all, log, from, handle, button, pendingCleanup, true);
        ButtonCleaned(all, log, from, handle, button, pendingCleanup, false);
        var accepted := Clean(handle, ButtonEvent(button, 0));
        ok := ok && accepted;
      }
    }

    /** A request that moves no key and no button; it may be refused too. */
    method Ask(handle: Handle, ghost request: Request) returns (ok: bool)
      requires Valid()
      modifies this`log
      ensures Valid()
      ensures log == old(log) + [Answered(request, handle, ok)]
      ensures forall other :: Record(other) == old(Record(other))
    {
      ok := *;
      ghost var call := Answered(request, handle, ok);
      NoteRecords(log, call);
      log := log + [call];
    }

    /** Repeat stops and the aggregate modifiers are reset before any key-up. */
    method ResetAggregate(handle: Handle) returns (ok: bool)
      requires Valid()
      modifies this`pressedKeys, this`pressedButtons, this`log
      ensures Valid() && |log| == |old(log)| + 2 && old(log) <= log && OnlyCleans(log, |old(log)|, handle)
      ensures log[|old(log)|].StopRepeat? && log[|old(log)| + 1].Inject?
      ensures log[|old(log)| + 1].event == ModifiersEvent({}) && NoneDestroyed(log, |old(log)|)
      ensures forall other :: Record(other) == old(Record(other))
      ensures ok <==> AllAccepted(log, |old(log)|)
    {
      var stopped := Ask(handle, ToStopRepeat);
      ok := Clean(handle, ModifiersEvent({}));
      ok := ok && stopped;
    }

    /** The four phases: reset, keys, buttons, residue. */
    method ReleaseRecorded(handle: Handle) returns (ok: bool)
      requires Valid() && handle in handles
      modifies this`pressedKeys, this`pressedButtons, this`log
      ensures Valid() && old(log) <= log && OnlyCleans(log, |old(log)|, handle)
      ensures forall other :: other != handle ==> Record(other) == old(Record(other))
      ensures Record(handle).keys == KeysLeft(old(Record(handle)).keys, log, |old(log)|, handle)
      ensures Record(handle).buttons == ButtonsLeft(old(Record(handle)).buttons, log, |old(log)|, handle)
      ensures ok <==> AllAccepted(log, |old(log)|)
      ensures ok ==> Record(handle) == NOTHING
      ensures ResetsFirst(log, |old(log)|) && NoneDestroyed(log, |old(log)|)
    {
      ghost var before, from := Record(handle), |log|;
      var reset := ResetAggregate(handle);
      ghost var log1 := log;
      var keysUp := CleanKeys(handle);
      ghost var log2 := log;
      var buttonsUp := CleanButtons(handle);
      ghost var log3 := log;
      var residue := Ask(handle, ToReleasePending);
      PhasesJoin(from, log1, log2, log3, log, handle, before.keys, before.buttons);
      ok := reset && keysUp && buttonsUp && residue;
    }

    /** Every key and button of the handle is released; each stays recorded
        until its own release was accepted. */
    method ReleaseKeys(handle: Handle) returns (ok: bool)
      requires Valid()
      modifies this`pressedKeys, this`pressedButtons, this`log
      ensures Valid() && old(log) <= log && OnlyCleans(log, |old(log)|, handle)
      ensures forall other :: other != handle ==> Record(other) == old(Record(other))
      ensures Record(handle).keys == KeysLeft(old(Record(handle)).keys, log, |old(log)|, handle)
      ensures Record(handle).buttons == ButtonsLeft(old(Record(handle)).buttons, log, |old(log)|, handle)
      ensures ok <==> AllAccepted(log, |old(log)|)
      ensures ok ==> Record(handle) == NOTHING
      ensures handle !in handles ==> log == old(log)
      ensures handle in handles ==> ResetsFirst(log, |old(log)|) && NoneDestroyed(log, |old(log)|)
    {
      if handle !in handles {
        KeysLeftOfNothing(log, |log|, handle);
        return true;
      }
      ok := ReleaseRecorded(handle);
    }

    method EraseRecord(handle: Handle)
      requires Record(handle) == NOTHING
      modifies this`pressedKeys, this`pressedButtons
      ensures forall other :: Record(other) == old(Record(other))
      ensures pressedKeys.Keys == old(pressedKeys.Keys) - {handle}
      ensures pressedButtons.Keys == old(pressedButtons.Keys) - {handle}
    {
      pressedKeys, pressedButtons := pressedKeys - {handle}, pressedButtons - {handle};
    }

    /** Strikes a handle with nothing left on record. */
    method Strike(handle: Handle)
      requires Valid() && Record(handle) == NOTHING
      modifies this
      ensures Valid()
      ensures handles == old(handles) - {handle} && pendingCleanup == old(pendingCleanup) - {handle}
      ensures forall other :: Record(other) == old(Record(other))
      ensures log == old(log) + [DestroyHandle(handle)]
    {
      NoteRecords(log, DestroyHandle(handle));
      log := log + [DestroyHandle(handle)];
      handles, pendingCleanup := handles - {handle}, pendingCleanup - {handle};
      EraseRecord(handle);
    }

    /** A handle is retired only once the backend accepted its whole cleanup;
        otherwise it awaits cleanup. */
    method Destroy(handle: Handle) returns (ok: bool)
      requires Valid()
      modifies this
      ensures Valid() && old(log) <= log
      ensures forall other :: other != handle ==> Record(other) == old(Record(other))
      ensures Record(handle).keys == KeysLeft(old(Record(handle)).keys, log, |old(log)|, handle)
      ensures Record(handle).buttons == ButtonsLeft(old(Record(handle)).buttons, log, |old(log)|, handle)
      ensures handle !in old(handles) ==> ok && log == old(log)
      ensures handle in old(handles) ==> Retires(log, |old(log)|, handle, ok)
      ensures handles == if ok then old(handles) - {handle} else old(handles)
      ensures pendingCleanup == if ok then old(pendingCleanup) - {handle} else old(pendingCleanup) + {handle}
      ensures ok ==> Record(handle) == NOTHING
    {
      ghost var from := |log|;
      if handle !in handles {
        KeysLeftOfNothing(log, from, handle);
        return true;
      }
      pendingCleanup := pendingCleanup + {handle};
      ok := ReleaseKeys(handle);
      if !ok {
        return;
      }
      RetiresWhenClosed(log, from, handle);
      Strike(handle);
    }

    /** Every waiting handle is tried once; the gate opens exactly when none is
        left waiting. */
    method RetryCleanup() returns (ok: bool)
      requires Valid()
      modifies this
      ensures Valid() && old(log) <= log && OnlyCleansAny(log, |old(log)|, old(pendingCleanup))
      ensures ok <==> pendingCleanup == {}
      ensures pendingCleanup <= old(pendingCleanup)
      ensures handles == old(handles) - (old(pendingCleanup) - pendingCleanup)
      ensures forall other :: other !in old(pendingCleanup) ==> Record(other) == old(Record(other))
      ensures old(pendingCleanup) == {} ==> log == old(log)
    {
      ghost var waiting, from := pendingCleanup, |log|;
      var todo := pendingCleanup;
      ok := true;
      while todo != {}
        invariant Valid() && old(log) <= log && OnlyCleansAny(log, from, waiting)
        invariant todo <= pendingCleanup <= waiting
        invariant ok <==> pendingCleanup == todo
        invariant handles == old(handles) - (waiting - pendingCleanup)
        invariant forall other :: other !in waiting ==> Record(other) == old(Record(other))
        invariant waiting == {} ==> log == old(log)
      {
        var handle :| handle in todo;
        todo := todo - {handle};
        ghost var log0 := log;
        var retired := Destroy(handle);
        ok := ok && retired;
        CleansOneMore(log0, log, from, waiting, handle);
      }
    }

    /** One incoming event. `gate` marks where the cleanup ends and the event's
        own call would begin. */
    method Consume(event: Event, handle: Handle) returns (ok: bool, ghost gate: nat)
      requires Valid()
      modifies this
      ensures Valid() && |old(log)| <= gate <= |log| && old(log) <= log
      ensures OnlyCleansAny(log[..gate], |old(log)|, old(pendingCleanup))
      ensures handles == old(handles) - (old(pendingCleanup) - pendingCleanup)
      ensures event.ClipboardEvent? ==> ok && log == old(log) && pendingCleanup == old(pendingCleanup)
      ensures forall other :: other != handle && other !in old(pendingCleanup) ==> Record(other) == old(Record(other))
      ensures !event.ClipboardEvent? && pendingCleanup != {} ==> !ok && |log| == gate
      ensures !event.ClipboardEvent? && pendingCleanup == {} && handle !in handles ==> ok && |log| == gate
      ensures !event.ClipboardEvent? && pendingCleanup == {} && handle in handles ==>
        && handle !in old(pendingCleanup)
        && Record(handle) == AfterEvent(old(Record(handle)), event, ok)
        && log[gate..] == Logged(old(Record(handle)), handle, {}, event, ok)
        && (!Sends(old(Record(handle)), event) ==> ok)
        && log[gate..] == Answer(log[..gate], handle, event, ok)
    {
      gate := |log|;
      assert log[..gate] == log;
      if event.ClipboardEvent? {
        return true, gate;
      }
      ok := RetryCleanup();
      gate := |log|;
      assert log[..gate] == log;
      if !ok || handle !in handles {
        return;
      }
      ghost var log1 := log;
      ok := Forward(event, handle);
      assert log[..gate] == log1;
      SendsWhatIsWanted(log1, handle, event);
    }

    method Create(handle: Handle) returns (created: bool)
      requires Valid()
      modifies this
      ensures Valid() && pendingCleanup == old(pendingCleanup)
      ensures created <==> handle !in old(handles)
      ensures handles == old(handles) + {handle}
      ensures forall other :: Record(other) == old(Record(other))
      ensures log == old(log) + if created then [CreateHandle(handle)] else []
    {
      created := handle !in handles;
      if created {
        handles := handles + {handle};
        pressedKeys := pressedKeys[handle := {}];
        NoteRecords(log, CreateHandle(handle));
        log := log + [CreateHandle(handle)];
      }
    }

    /** Every live handle is tried; the ones left alive await cleanup. */
    method Terminate()
      requires Valid()
      modifies this
      ensures Valid() && old(log) <= log && OnlyCleansAny(log, |old(log)|, old(handles))
      ensures handles == pendingCleanup <= old(handles)
      ensures forall handle :: handle !in handles ==> HeldBy(log, handle) == NOTHING
    {
      ghost var alive, from := handles, |log|;
      var todo := handles;
      while todo != {}
        invariant Valid() && old(log) <= log && OnlyCleansAny(log, from, alive)
        invariant todo <= handles <= alive
        invariant handles - todo <= pendingCleanup
      {
        var handle :| handle in todo;
        todo := todo - {handle};
        ghost var log0 := log;
        var retired := Destroy(handle);
        CleansOneMore(log0, log, from, alive, handle);
      }
      forall handle { RecordCoversHeld(log, handle); }
    }

    method WarpCursor() returns (ok: bool)
      requires Valid()
      modifies this
      ensures Valid() && old(log) <= log
      ensures pendingCleanup != {} ==> !ok && OnlyCleansAny(log, |old(log)|, old(pendingCleanup))
      ensures pendingCleanup == {} ==> log != [] && log[|log| - 1] == Warp({})
      ensures forall other :: other !in old(pendingCleanup) ==> Record(other) == old(Record(other))
    {
      ok := RetryCleanup();
      if !ok {
        return;
      }
      NoteRecords(log, Warp(pendingCleanup));
      log := log + [Warp(pendingCleanup)];
      ok := *;
    }

    /** A certified barrier, from `gate` on, is an accepted quiesce and an
        accepted cleanup, and leaves the backend holding nothing of this handle. */
    method RecoveryBarrier(handle: Handle) returns (ok: bool, ghost gate: nat)
      requires Valid()
      modifies this
      ensures Valid() && |old(log)| <= gate <= |log| && old(log) <= log
      ensures OnlyCleansAny(log, |old(log)|, old(pendingCleanup) + {handle})
      ensures pendingCleanup != {} || handle !in handles ==> !ok && gate == |log|
      ensures pendingCleanup == {} && handle in handles ==> Quiesces(log, gate) && (ok ==> AllAccepted(log, gate))
      ensures ok ==> Record(handle) == NOTHING && HeldBy(log, handle) == NOTHING
      ensures forall other :: other != handle && other !in old(pendingCleanup) ==> Record(other) == old(Record(other))
    {
      ghost var from, concerned := |log|, pendingCleanup + {handle};
      ok := RetryCleanup();
      gate := |log|;
      if !ok || handle !in handles {
        return false, gate;
      }
      var stopped := Ask(handle, ToQuiesce);
      ghost var log1 := log;
      var released := ReleaseKeys(handle);
      QuiescedThenCleaned(log1, log, from, gate, concerned, handle, stopped);
      RecordCoversHeld(log, handle);
      var baseline: bool := *;
      ok := stopped && released && baseline;
    }

    /** Whether the log has any key on record; if not, the backend holds none. */
    method HasPressedKeys(handle: Handle) returns (pressed: bool)
      requires Valid()
      ensures pressed <==> Record(handle).keys != {}
      ensures pressed <==> exists key :: OnRecord(log, handle, key)
      ensures !pressed ==> HeldBy(log, handle).keys == {}
    {
      pressed := handle in pressedKeys && pressedKeys[handle] != {};
      KeysOnRecord(log, handle);
    }
  }
}
