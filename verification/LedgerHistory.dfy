/** What the ledger of `InputEmulation` (input-emulation/src/lib.rs) has on
    record, read off the log of backend calls alone: a key is on record exactly
    from the call that established it until one that strikes it. */
module LedgerHistory {
  import opened InputLedger

  /** A kind the snapshot shows, named by its left key. */
  predicate ShowsLeft(depressed: Mask, key: KeyOrButton) {
    || (key == 42 && 0 in depressed)
    || (key == 29 && 2 in depressed)
    || (key == 56 && (3 in depressed || 7 in depressed))
    || (key == 125 && 6 in depressed)
  }

  function RightOf(left: KeyOrButton): KeyOrButton {
    if left == 42 then 54 else if left == 29 then 97 else if left == 56 then 100 else 126
  }

  predicate RefusedForward(call: Call) {
    call.Inject? && call.origin.Forwarded? && !call.accepted
  }

  /** A press, accepted or not; a refused release; or an accepted snapshot that
      shows the key's kind while its right side is not on record. Cleanup only
      releases. */
  predicate Establishes(before: seq<Call>, call: Call, handle: Handle, key: KeyOrButton)
    decreases |before|, 1
  {
    call.Inject? && call.handle == handle &&
    match call.event
    case KeyEvent(k, state) => k == key && (state != 0 || RefusedForward(call))
    case ModifiersEvent(depressed) =>
      call.accepted && call.origin.Forwarded? && ShowsLeft(depressed, key) && !OnRecord(before, handle, RightOf(key))
    case _ => false
  }

  /** An accepted release, forwarded or of a cleanup; or a forwarded snapshot,
      accepted, that declares the key up. */
  predicate Strikes(call: Call, handle: Handle, key: KeyOrButton) {
    Effective(call, handle)
    && (call.event == KeyEvent(key, 0)
        || (call.origin.Forwarded? && call.event.ModifiersEvent? && key in Cleared(call.event.depressed)))
  }

  predicate StruckSince(log: seq<Call>, from: nat, handle: Handle, key: KeyOrButton) {
    exists j :: from <= j < |log| && Strikes(log[j], handle, key)
  }

  predicate EstablishedAt(log: seq<Call>, i: nat, handle: Handle, key: KeyOrButton)
    requires i < |log|
    decreases |log|, 0, 1
  {
    Establishes(log[..i], log[i], handle, key) && !StruckSince(log, i + 1, handle, key)
  }

  predicate OnRecord(log: seq<Call>, handle: Handle, key: KeyOrButton)
    decreases |log|, 0, 2
  {
    exists i :: 0 <= i < |log| && EstablishedAt(log, i, handle, key)
  }

  predicate ButtonEstablished(call: Call, handle: Handle, button: KeyOrButton) {
    call.Inject? && call.handle == handle && call.event.ButtonEvent? && call.event.button == button
    && (call.event.state != 0 || RefusedForward(call))
  }

  /** The same for a button: a forwarded press or a refused release, and no
      accepted release since. */
  predicate ButtonOnRecord(log: seq<Call>, handle: Handle, button: KeyOrButton) {
    exists i :: 0 <= i < |log| && ButtonEstablished(log[i], handle, button)
      && !Released(log, i + 1, handle, ButtonEvent(button, 0))
  }

  // ------------------------------------------------------- call after call

  /** The record after one more call. */
  function Recorded(p: Pressed, call: Call, handle: Handle): Pressed {
    if !(call.Inject? && call.handle == handle) then p
    else match call.event
      case KeyEvent(key, state) =>
        if state == 0 && call.accepted then p.(keys := p.keys - {key})
        else if state != 0 || call.origin.Forwarded? then p.(keys := p.keys + {key})
        else p
      case ButtonEvent(button, state) =>
        if state == 0 && call.accepted then p.(buttons := p.buttons - {button})
        else if state != 0 || call.origin.Forwarded? then p.(buttons := p.buttons + {button})
        else p
      case ModifiersEvent(depressed) =>
        if call.accepted && call.origin.Forwarded? then p.(keys := TrackSnapshot(p.keys, depressed)) else p
      case _ => p
  }

  function RecordBy(log: seq<Call>, handle: Handle): Pressed
    decreases |log|
  {
    if log == [] then NOTHING else Recorded(RecordBy(log[..|log| - 1], handle), log[|log| - 1], handle)
  }

  lemma {:induction false} RecordOneMore(log: seq<Call>, call: Call, handle: Handle)
    ensures RecordBy(log + [call], handle) == Recorded(RecordBy(log, handle), call, handle)
  {
    assert (log + [call])[..|log|] == log;
  }

  /** A tracked snapshot, key by key. */
  lemma {:induction false} SnapshotTracks(keys: set<KeyOrButton>, depressed: Mask, key: KeyOrButton)
    ensures key in TrackSnapshot(keys, depressed) <==>
      (key in keys && key !in Cleared(depressed)) || (ShowsLeft(depressed, key) && RightOf(key) !in keys)
  {
    SnapshotDropsOnlyCleared(keys, depressed);
    SnapshotIsTracked(keys, depressed, 0);
    SnapshotIsTracked(keys, depressed, 1);
    SnapshotIsTracked(keys, depressed, 2);
    SnapshotIsTracked(keys, depressed, 3);
    ShownBits(depressed);
    assert key !in Cleared({}) ==> key !in Cleared(depressed);
  }

  lemma {:induction false} ShownBits(depressed: Mask)
    ensures depressed * GROUPS[0].bits != {} <==> 0 in depressed
    ensures depressed * GROUPS[1].bits != {} <==> 2 in depressed
    ensures depressed * GROUPS[2].bits != {} <==> 3 in depressed || 7 in depressed
    ensures depressed * GROUPS[3].bits != {} <==> 6 in depressed
  {
    assert 0 in depressed ==> 0 in depressed * GROUPS[0].bits;
    assert 2 in depressed ==> 2 in depressed * GROUPS[1].bits;
    assert 3 in depressed ==> 3 in depressed * GROUPS[2].bits;
    assert 7 in depressed ==> 7 in depressed * GROUPS[2].bits;
    assert 6 in depressed ==> 6 in depressed * GROUPS[3].bits;
  }

  lemma {:induction false} StruckOneMore(log: seq<Call>, call: Call, from: nat, handle: Handle, key: KeyOrButton)
    requires from <= |log|
    ensures StruckSince(log + [call], from, handle, key) <==>
      StruckSince(log, from, handle, key) || Strikes(call, handle, key)
  {
    var log1 := log + [call];
    assert forall j :: 0 <= j < |log| ==> log1[j] == log[j];
    assert log1[|log|] == call;
  }

  lemma {:induction false} OnRecordOneMore(log: seq<Call>, call: Call, handle: Handle, key: KeyOrButton)
    ensures OnRecord(log + [call], handle, key) <==>
      Establishes(log, call, handle, key) || (OnRecord(log, handle, key) && !Strikes(call, handle, key))
  {
    var log1 := log + [call];
    forall i | 0 <= i < |log|
      ensures EstablishedAt(log1, i, handle, key) <==> EstablishedAt(log, i, handle, key) && !Strikes(call, handle, key)
    {
      assert log1[..i] == log[..i];
      StruckOneMore(log, call, i + 1, handle, key);
    }
    assert log1[..|log|] == log;
    assert EstablishedAt(log1, |log|, handle, key) <==> Establishes(log, call, handle, key);
  }

  /** The record holds a key exactly if the log has established it, and not
      struck it since. */
  lemma {:induction false} RecordIsExact(log: seq<Call>, handle: Handle, key: KeyOrButton)
    ensures key in RecordBy(log, handle).keys <==> OnRecord(log, handle, key)
    decreases |log|
  {
    if log != [] {
      var front, call := log[..|log| - 1], log[|log| - 1];
      assert log == front + [call];
      RecordIsExact(front, handle, key);
      RecordIsExact(front, handle, RightOf(key));
      RecordOneMore(front, call, handle);
      OnRecordOneMore(front, call, handle, key);
      if call.Inject? && call.event.ModifiersEvent? {
        SnapshotTracks(RecordBy(front, handle).keys, call.event.depressed, key);
      }
    }
  }

  lemma {:induction false} ButtonOneMore(log: seq<Call>, call: Call, handle: Handle, button: KeyOrButton)
    ensures ButtonOnRecord(log + [call], handle, button) <==>
      ButtonEstablished(call, handle, button)
      || (ButtonOnRecord(log, handle, button) && !(Effective(call, handle) && call.event == ButtonEvent(button, 0)))
  {
    var log1, up := log + [call], ButtonEvent(button, 0);
    forall i | 0 <= i < |log|
      ensures log1[i] == log[i]
      ensures Released(log1, i + 1, handle, up) <==>
        Released(log, i + 1, handle, up) || (Effective(call, handle) && call.event == up)
    {
      ReleasedOneMore(log, i + 1, handle, up, call);
    }
    assert log1[|log|] == call;
  }

  lemma {:induction false} ButtonRecordIsExact(log: seq<Call>, handle: Handle, button: KeyOrButton)
    ensures button in RecordBy(log, handle).buttons <==> ButtonOnRecord(log, handle, button)
    decreases |log|
  {
    if log != [] {
      var front, call := log[..|log| - 1], log[|log| - 1];
      assert log == front + [call];
      ButtonRecordIsExact(front, handle, button);
      RecordOneMore(front, call, handle);
      ButtonOneMore(front, call, handle, button);
    }
  }

  /** Nothing asked of the backend for this handle was refused, and no modifier
      snapshot was among it. */
  predicate Plain(log: seq<Call>, handle: Handle) {
    forall i :: 0 <= i < |log| && log[i].Inject? && log[i].handle == handle ==>
      log[i].accepted && !log[i].event.ModifiersEvent?
  }

  /** Then the record is exactly what the backend was last told. */
  lemma {:induction false} PlainRecordIsHeld(log: seq<Call>, handle: Handle)
    requires Plain(log, handle)
    ensures RecordBy(log, handle) == HeldBy(log, handle)
    decreases |log|
  {
    if log != [] {
      var front := log[..|log| - 1];
      assert forall i :: 0 <= i < |front| ==> front[i] == log[i];
      PlainRecordIsHeld(front, handle);
    }
  }

  /** The record covers what the backend was told, whatever it refused. */
  lemma {:induction false} RecordCoversHeld(log: seq<Call>, handle: Handle)
    ensures Covers(RecordBy(log, handle), HeldBy(log, handle))
    decreases |log|
  {
    if log != [] {
      var front, call := log[..|log| - 1], log[|log| - 1];
      RecordCoversHeld(front, handle);
      if call.Inject? && call.event.ModifiersEvent? {
        SnapshotDropsOnlyCleared(RecordBy(front, handle).keys, call.event.depressed);
      }
    }
  }

  // ------------------------------------------------ the steps of the ledger

  lemma {:induction false} ForwardedEventRecords(log: seq<Call>, handle: Handle, event: Event, ok: bool)
    requires Judged(log)
    ensures var p := RecordBy(log, handle);
      var log1 := log + Logged(p, handle, {}, event, ok);
      && Judged(log1) && AfterEvent(p, event, ok) == RecordBy(log1, handle)
      && forall other :: other != handle ==> RecordBy(log1, other) == RecordBy(log, other)
  {
    var p := RecordBy(log, handle);
    RecordCoversHeld(log, handle);
    ForwardedEventKeeps(log, handle, p, event, ok);
    if Sends(p, event) {
      forall other { RecordOneMore(log, Inject(handle, event, Forwarded, {}, ok), other); }
    } else {
      assert log + [] == log;
    }
  }

  lemma {:induction false} CleanupEventRecords(
      log: seq<Call>, handle: Handle, event: Event, waiting: set<Handle>, ok: bool)
    requires Judged(log) && IsRelease(event)
    ensures var log1 := log + [Inject(handle, event, Cleanup, waiting, ok)];
      && Judged(log1) && AfterCleanup(RecordBy(log, handle), event, ok) == RecordBy(log1, handle)
      && forall other :: other != handle ==> RecordBy(log1, other) == RecordBy(log, other)
  {
    RecordCoversHeld(log, handle);
    CleanupEventKeeps(log, handle, RecordBy(log, handle), event, waiting, ok);
    forall other { RecordOneMore(log, Inject(handle, event, Cleanup, waiting, ok), other); }
  }

  lemma {:induction false} NoteRecords(log: seq<Call>, call: Call)
    requires Judged(log) && !call.Inject? && (call.Warp? ==> call.waiting == {})
    ensures Judged(log + [call])
    ensures forall handle :: RecordBy(log + [call], handle) == RecordBy(log, handle)
  {
    NoteKeeps(log, call);
    forall handle { RecordOneMore(log, call, handle); }
  }

  /** What is forwarded, by the log alone: a press of a key that is not on record,
      a release of one that is, and everything else but the clipboard. */
  predicate Wanted(log: seq<Call>, handle: Handle, event: Event) {
    match event
    case KeyEvent(key, state) => state == 0 <==> OnRecord(log, handle, key)
    case ClipboardEvent => false
    case _ => true
  }

  function Answer(log: seq<Call>, handle: Handle, event: Event, ok: bool): seq<Call> {
    if Wanted(log, handle, event) then [Inject(handle, event, Forwarded, {}, ok)] else []
  }

  lemma {:induction false} KeysOnRecord(log: seq<Call>, handle: Handle)
    ensures RecordBy(log, handle).keys == {} <==> !(exists key :: OnRecord(log, handle, key))
    ensures RecordBy(log, handle).keys == {} ==> HeldBy(log, handle).keys == {}
  {
    RecordCoversHeld(log, handle);
    forall key ensures key in RecordBy(log, handle).keys <==> OnRecord(log, handle, key) {
      RecordIsExact(log, handle, key);
    }
    if RecordBy(log, handle).keys != {} {
      var key :| key in RecordBy(log, handle).keys;
      assert OnRecord(log, handle, key);
    }
  }

  lemma {:induction false} SendsWhatIsWanted(log: seq<Call>, handle: Handle, event: Event)
    ensures Sends(RecordBy(log, handle), event) <==> Wanted(log, handle, event)
  {
    if event.KeyEvent? {
      RecordIsExact(log, handle, event.key);
    }
  }
}
