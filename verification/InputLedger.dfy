/** What `InputEmulation` (input-emulation/src/lib.rs) records as pressed for
    one handle, and the independent judgement of a log of backend calls about
    what the backend was last told. */
module InputLedger {

  type Handle = nat
  type KeyOrButton = nat
  /** A 32-bit modifier mask as the set of its one bits. */
  type Mask = set<nat>

  datatype Event =
    | KeyEvent(key: KeyOrButton, state: nat)
    | ButtonEvent(button: KeyOrButton, state: nat)
    | ModifiersEvent(depressed: Mask)
    | ClipboardEvent
    | OtherEvent

  /** Keys and buttons of one handle. */
  datatype Pressed = Pressed(keys: set<KeyOrButton>, buttons: set<KeyOrButton>)

  const NOTHING := Pressed({}, {})

  /** One modifier kind: its snapshot bits, and its left and right key. */
  datatype Group = Group(bits: Mask, left: KeyOrButton, right: KeyOrButton)

  const GROUPS: seq<Group> := [
    Group({0}, 42, 54),
    Group({2}, 29, 97),
    Group({3, 7}, 56, 100),
    Group({6}, 125, 126)
  ]

  function TrackGroup(keys: set<KeyOrButton>, depressed: Mask, group: Group): set<KeyOrButton> {
    if depressed * group.bits == {} then keys - {group.left, group.right}
    else if group.left in keys || group.right in keys then keys
    else keys + {group.left}
  }

  function TrackGroups(keys: set<KeyOrButton>, depressed: Mask, groups: seq<Group>): set<KeyOrButton>
    decreases |groups|, keys
  {
    if groups == [] then keys else TrackGroups(TrackGroup(keys, depressed, groups[0]), depressed, groups[1..])
  }

  function TrackSnapshot(keys: set<KeyOrButton>, depressed: Mask): set<KeyOrButton> {
    TrackGroups(keys, depressed, GROUPS)
  }

  /** Duplicate presses and releases are not forwarded, and the clipboard has a
      sink of its own. */
  predicate Sends(p: Pressed, event: Event) {
    !event.ClipboardEvent? && (event.KeyEvent? ==> (event.state == 0 <==> event.key in p.keys))
  }

  /** The record after one forwarded event; a failed press and a failed release
      both stay recorded. */
  function AfterEvent(p: Pressed, event: Event, accepted: bool): Pressed {
    match event
    case KeyEvent(key, state) =>
      if !Sends(p, event) then p
      else if state == 0 && accepted then p.(keys := p.keys - {key})
      else p.(keys := p.keys + {key})
    case ButtonEvent(button, state) =>
      if state == 0 && accepted then p.(buttons := p.buttons - {button})
      else p.(buttons := p.buttons + {button})
    case ModifiersEvent(depressed) =>
      if accepted then p.(keys := TrackSnapshot(p.keys, depressed)) else p
    case _ => p
  }

  // ------------------------------------------------------- the backend's view

  /** The keys a snapshot declares up: both sides of every absent kind. */
  function Cleared(depressed: Mask): set<KeyOrButton> {
    (if 0 !in depressed then {42, 54} else {})
    + (if 2 !in depressed then {29, 97} else {})
    + (if 3 !in depressed && 7 !in depressed then {56, 100} else {})
    + (if 6 !in depressed then {125, 126} else {})
  }

  /** What an accepted event tells the backend. */
  function Told(held: Pressed, event: Event): Pressed {
    match event
    case KeyEvent(key, state) => held.(keys := if state == 0 then held.keys - {key} else held.keys + {key})
    case ButtonEvent(button, state) =>
      held.(buttons := if state == 0 then held.buttons - {button} else held.buttons + {button})
    case ModifiersEvent(depressed) => held.(keys := held.keys - Cleared(depressed))
    case _ => held
  }

  predicate Covers(p: Pressed, held: Pressed) {
    held.keys <= p.keys && held.buttons <= p.buttons
  }

  predicate ClearedByGroup(groups: seq<Group>, depressed: Mask, key: KeyOrButton) {
    exists i :: 0 <= i < |groups| && depressed * groups[i].bits == {} && key in {groups[i].left, groups[i].right}
  }

  lemma {:induction false} TrackGroupRemoves(keys: set<KeyOrButton>, depressed: Mask, groups: seq<Group>)
    ensures forall key :: key in keys && key !in TrackGroups(keys, depressed, groups) ==>
      ClearedByGroup(groups, depressed, key)
    decreases |groups|
  {
    if groups != [] {
      var keys1 := TrackGroup(keys, depressed, groups[0]);
      TrackGroupRemoves(keys1, depressed, groups[1..]);
      forall key | key in keys && key !in TrackGroups(keys1, depressed, groups[1..])
        ensures ClearedByGroup(groups, depressed, key)
      {
        if key in keys1 {
          var i :| 0 <= i < |groups[1..]| && depressed * groups[1..][i].bits == {}
            && key in {groups[1..][i].left, groups[1..][i].right};
          assert groups[i + 1] == groups[1..][i];
        } else {
          assert key in {groups[0].left, groups[0].right};
        }
      }
    }
  }

  /** Tracking a snapshot drops only keys the snapshot itself declares up. */
  lemma {:induction false} SnapshotDropsOnlyCleared(keys: set<KeyOrButton>, depressed: Mask)
    ensures keys - Cleared(depressed) <= TrackSnapshot(keys, depressed)
  {
    TrackGroupRemoves(keys, depressed, GROUPS);
    forall key | key in keys && key !in TrackSnapshot(keys, depressed) ensures key in Cleared(depressed) {
      var i :| 0 <= i < |GROUPS| && depressed * GROUPS[i].bits == {} && key in {GROUPS[i].left, GROUPS[i].right};
      assert forall bit :: bit in GROUPS[i].bits ==> bit !in depressed * GROUPS[i].bits;
      assert 0 in GROUPS[0].bits && 2 in GROUPS[1].bits && 3 in GROUPS[2].bits && 7 in GROUPS[2].bits
        && 6 in GROUPS[3].bits;
    }
  }

  /** After a snapshot a kind has a recorded side exactly if the snapshot shows it,
      a side recorded before is kept, and no other key is touched. */
  lemma {:induction false} SnapshotIsTracked(keys: set<KeyOrButton>, depressed: Mask, i: nat)
    requires i < |GROUPS|
    ensures var after, group := TrackSnapshot(keys, depressed), GROUPS[i];
      && (group.left in after || group.right in after <==> depressed * group.bits != {})
      && (group.right in after ==> group.right in keys)
      && (depressed * group.bits != {} && group.left in keys ==> group.left in after)
      && (group.left in after && group.left !in keys ==> group.right !in keys)
    ensures forall key :: key !in Cleared({}) ==> (key in TrackSnapshot(keys, depressed) <==> key in keys)
  {
    var k1 := TrackGroup(keys, depressed, GROUPS[0]);
    var k2 := TrackGroup(k1, depressed, GROUPS[1]);
    var k3 := TrackGroup(k2, depressed, GROUPS[2]);
    var k4 := TrackGroup(k3, depressed, GROUPS[3]);
    assert GROUPS[1..][0] == GROUPS[1] && GROUPS[1..][1..] == GROUPS[2..];
    assert GROUPS[2..][0] == GROUPS[2] && GROUPS[2..][1..] == GROUPS[3..];
    assert GROUPS[3..][0] == GROUPS[3] && GROUPS[3..][1..] == [];
    assert TrackGroups(k3, depressed, GROUPS[3..]) == k4;
    assert TrackGroups(k2, depressed, GROUPS[2..]) == k4;
    assert TrackGroups(k1, depressed, GROUPS[1..]) == k4;
    assert TrackSnapshot(keys, depressed) == k4;
  }

  /** One event: a record that covers what the backend was told still does, and
      a press is forwarded only if the backend was not told it is down. */
  lemma {:induction false} EventKeepsCover(p: Pressed, held: Pressed, event: Event, accepted: bool)
    requires Covers(p, held)
    ensures Sends(p, event) && event.KeyEvent? && event.state != 0 ==> event.key !in held.keys
    ensures Covers(AfterEvent(p, event, accepted), if Sends(p, event) && accepted then Told(held, event) else held)
  {
    if event.ModifiersEvent? {
      SnapshotDropsOnlyCleared(p.keys, event.depressed);
    }
  }

  // ------------------------------------------------------------ the call log

  /** Why an event was handed to the backend. */
  datatype Origin = Forwarded | Cleanup

  /** Every call the backend sees; `waiting` is the set of handles whose cleanup
      was outstanding at that moment. */
  datatype Call =
    | Inject(handle: Handle, event: Event, origin: Origin, waiting: set<Handle>, accepted: bool)
    | StopRepeat(handle: Handle, accepted: bool)
    | ReleasePending(handle: Handle, accepted: bool)
    | Quiesce(handle: Handle, accepted: bool)
    | CreateHandle(handle: Handle)
    | DestroyHandle(handle: Handle)
    | Warp(waiting: set<Handle>)

  datatype Request = ToStopRepeat | ToReleasePending | ToQuiesce

  function Answered(request: Request, handle: Handle, accepted: bool): Call {
    match request
    case ToStopRepeat => StopRepeat(handle, accepted)
    case ToReleasePending => ReleasePending(handle, accepted)
    case ToQuiesce => Quiesce(handle, accepted)
  }

  predicate Concerns(call: Call, handle: Handle) {
    !call.Warp? && call.handle == handle
  }

  predicate Effective(call: Call, handle: Handle) {
    call.Inject? && call.handle == handle && call.accepted
  }

  function Hear(held: Pressed, call: Call, handle: Handle): Pressed {
    if Effective(call, handle) then Told(held, call.event) else held
  }

  /** What the backend was last told about a handle's keys and buttons. */
  function HeldBy(log: seq<Call>, handle: Handle): Pressed
    decreases |log|
  {
    if log == [] then NOTHING
    else
      var call := log[|log| - 1];
      Hear(HeldBy(log[..|log| - 1], handle), call, handle)
  }

  lemma {:induction false} HeldByOneMore(log: seq<Call>, call: Call)
    ensures forall handle :: HeldBy(log + [call], handle) == Hear(HeldBy(log, handle), call, handle)
  {
    assert (log + [call])[..|log|] == log;
  }

  /** No key gets two accepted presses without a release or a clearing snapshot
      accepted in between. */
  predicate NoDoublePress(log: seq<Call>) {
    forall i :: 0 <= i < |log| && log[i].Inject? && log[i].accepted && log[i].event.KeyEvent? && log[i].event.state != 0
      ==> log[i].event.key !in HeldBy(log[..i], log[i].handle).keys
  }

  /** Nothing is forwarded and no cursor warped while a cleanup is outstanding. */
  predicate GateHeld(log: seq<Call>) {
    forall i :: 0 <= i < |log| ==>
      && (log[i].Inject? && log[i].origin.Forwarded? ==> log[i].waiting == {})
      && (log[i].Warp? ==> log[i].waiting == {})
  }

  lemma {:induction false} LogGrows(log: seq<Call>, call: Call)
    requires NoDoublePress(log) && GateHeld(log)
    requires call.Inject? && call.accepted && call.event.KeyEvent? && call.event.state != 0
      ==> call.event.key !in HeldBy(log, call.handle).keys
    requires (call.Inject? && call.origin.Forwarded?) || call.Warp? ==> call.waiting == {}
    ensures NoDoublePress(log + [call]) && GateHeld(log + [call])
  {
    var log1 := log + [call];
    forall i | 0 <= i < |log1| && log1[i].Inject? && log1[i].accepted && log1[i].event.KeyEvent?
        && log1[i].event.state != 0
      ensures log1[i].event.key !in HeldBy(log1[..i], log1[i].handle).keys
    {
      assert log1[..i] == log[..i];
      assert i == |log| ==> log[..i] == log;
    }
  }

  predicate Presses(call: Call, handle: Handle, key: KeyOrButton) {
    Effective(call, handle) && call.event.KeyEvent? && call.event.key == key && call.event.state != 0
  }

  /** An accepted release of the key, or an accepted snapshot that clears it. */
  predicate Lowers(call: Call, handle: Handle, key: KeyOrButton) {
    Effective(call, handle)
    && (call.event == KeyEvent(key, 0) || (call.event.ModifiersEvent? && key in Cleared(call.event.depressed)))
  }

  lemma {:induction false} StaysDown(log: seq<Call>, handle: Handle, key: KeyOrButton, i: nat, j: nat)
    requires i < j <= |log| && Presses(log[i], handle, key)
    requires forall k :: i < k < j ==> !Lowers(log[k], handle, key)
    ensures key in HeldBy(log[..j], handle).keys
    decreases j
  {
    assert log[..j][..j - 1] == log[..j - 1];
    if i < j - 1 {
      StaysDown(log, handle, key, i, j - 1);
    }
  }

  /** Between two accepted presses of one key the backend accepted a release of
      it, or a snapshot that clears it. */
  lemma {:induction false} PressesAreSeparated(log: seq<Call>, handle: Handle, key: KeyOrButton, i: nat, j: nat)
    requires NoDoublePress(log) && i < j < |log|
    requires Presses(log[i], handle, key) && Presses(log[j], handle, key)
    ensures exists k :: i < k < j && Lowers(log[k], handle, key)
  {
    if forall k :: i < k < j ==> !Lowers(log[k], handle, key) {
      StaysDown(log, handle, key, i, j);
      assert false;
    }
  }

  function Logged(p: Pressed, handle: Handle, waiting: set<Handle>, event: Event, ok: bool): seq<Call> {
    if Sends(p, event) then [Inject(handle, event, Forwarded, waiting, ok)] else []
  }

  /** Forwarding one event through an open gate keeps every judgement of the log. */
  lemma {:induction false} ForwardedEventKeeps(log: seq<Call>, handle: Handle, p: Pressed, event: Event, ok: bool)
    requires NoDoublePress(log) && GateHeld(log) && Covers(p, HeldBy(log, handle))
    ensures var log1 := log + Logged(p, handle, {}, event, ok);
      && NoDoublePress(log1) && GateHeld(log1)
      && Covers(AfterEvent(p, event, ok), HeldBy(log1, handle))
      && forall other :: other != handle ==> HeldBy(log1, other) == HeldBy(log, other)
  {
    EventKeepsCover(p, HeldBy(log, handle), event, ok);
    if Sends(p, event) {
      HeldByOneMore(log, Inject(handle, event, Forwarded, {}, ok));
      LogGrows(log, Inject(handle, event, Forwarded, {}, ok));
    } else {
      assert log + [] == log;
    }
  }

  // ---------------------------------------------------------------- cleanup

  predicate IsRelease(event: Event) {
    (event.KeyEvent? && event.state == 0) || (event.ButtonEvent? && event.state == 0)
    || event == ModifiersEvent({})
  }

  /** The record after one cleanup event: only an accepted key or button release
      forgets anything. */
  function AfterCleanup(p: Pressed, event: Event, ok: bool): Pressed {
    if !ok then p
    else match event
      case KeyEvent(key, _) => p.(keys := p.keys - {key})
      case ButtonEvent(button, _) => p.(buttons := p.buttons - {button})
      case _ => p
  }

  predicate Judged(log: seq<Call>) {
    NoDoublePress(log) && GateHeld(log)
  }

  lemma {:induction false} CleanupEventKeeps(
      log: seq<Call>, handle: Handle, p: Pressed, event: Event, waiting: set<Handle>, ok: bool)
    requires Judged(log) && Covers(p, HeldBy(log, handle)) && IsRelease(event)
    ensures var log1 := log + [Inject(handle, event, Cleanup, waiting, ok)];
      && Judged(log1) && Covers(AfterCleanup(p, event, ok), HeldBy(log1, handle))
      && forall other :: other != handle ==> HeldBy(log1, other) == HeldBy(log, other)
  {
    HeldByOneMore(log, Inject(handle, event, Cleanup, waiting, ok));
    LogGrows(log, Inject(handle, event, Cleanup, waiting, ok));
  }

  lemma {:induction false} NoteKeeps(log: seq<Call>, call: Call)
    requires Judged(log) && !call.Inject? && (call.Warp? ==> call.waiting == {})
    ensures Judged(log + [call])
    ensures forall handle :: HeldBy(log + [call], handle) == HeldBy(log, handle)
  {
    HeldByOneMore(log, call);
    LogGrows(log, call);
  }

  /** Everything logged since `from` is cleanup of this one handle. */
  predicate OnlyCleans(log: seq<Call>, from: nat, handle: Handle) {
    forall i :: from <= i < |log| ==> Concerns(log[i], handle) && (log[i].Inject? ==> log[i].origin.Cleanup?)
  }

  predicate NoneDestroyed(log: seq<Call>, from: nat) {
    forall i :: from <= i < |log| ==> !log[i].DestroyHandle?
  }

  /** Everything logged since `from` is cleanup of one of these handles. */
  predicate OnlyCleansAny(log: seq<Call>, from: nat, handles: set<Handle>) {
    forall i :: from <= i < |log| ==>
      && (exists handle :: handle in handles && Concerns(log[i], handle))
      && (log[i].Inject? ==> log[i].origin.Cleanup?)
  }

  /** The backend accepted everything asked of it since `from`. */
  predicate AllAccepted(log: seq<Call>, from: nat) {
    forall i :: from <= i < |log| ==> Accepted(log[i])
  }

  predicate Accepted(call: Call) {
    call.Inject? || call.StopRepeat? || call.ReleasePending? || call.Quiesce? ==> call.accepted
  }

  predicate OnlyKeys(log: seq<Call>, from: nat) {
    forall i :: from <= i < |log| ==> log[i].Inject? && log[i].event.KeyEvent?
  }

  predicate OnlyButtons(log: seq<Call>, from: nat) {
    forall i :: from <= i < |log| ==> log[i].Inject? && log[i].event.ButtonEvent?
  }

  /** A release of this key or button was accepted since `from`. */
  predicate Released(log: seq<Call>, from: nat, handle: Handle, event: Event) {
    exists i :: from <= i < |log| && Effective(log[i], handle) && log[i].event == event
  }

  lemma {:induction false} ReleasedOneMore(log: seq<Call>, from: nat, handle: Handle, event: Event, call: Call)
    requires from <= |log|
    ensures Released(log + [call], from, handle, event) <==>
      Released(log, from, handle, event) || (Effective(call, handle) && call.event == event)
  {
    var log1 := log + [call];
    if Released(log, from, handle, event) {
      var i :| from <= i < |log| && Effective(log[i], handle) && log[i].event == event;
      assert log1[i] == log[i];
    }
    if Effective(call, handle) && call.event == event {
      assert log1[|log|] == call;
    }
  }

  lemma {:induction false} AcceptedOneMore(log: seq<Call>, from: nat, call: Call)
    requires from <= |log|
    ensures AllAccepted(log + [call], from) <==> AllAccepted(log, from) && Accepted(call)
  {
    var log1 := log + [call];
    assert forall i :: 0 <= i < |log| ==> log1[i] == log[i];
    assert log1[|log|] == call;
  }

  /** Calls that carry no such release leave the question as it was. */
  lemma {:induction false} ReleasedFurtherOn(
      log: seq<Call>, from: nat, log1: seq<Call>, start: nat, handle: Handle, event: Event)
    requires start <= from <= |log| && log <= log1
    requires forall i :: start <= i < from || |log| <= i < |log1| ==> !log1[i].Inject? || log1[i].event != event
    ensures Released(log1, start, handle, event) <==> Released(log, from, handle, event)
  {
    if Released(log, from, handle, event) {
      var i :| from <= i < |log| && Effective(log[i], handle) && log[i].event == event;
      assert log1[i] == log[i];
    }
    if Released(log1, start, handle, event) {
      var i :| start <= i < |log1| && Effective(log1[i], handle) && log1[i].event == event;
      assert log1[i] == log[i];
    }
  }

  ghost function KeysLeft(keys: set<KeyOrButton>, log: seq<Call>, from: nat, handle: Handle): set<KeyOrButton> {
    set key | key in keys && !Released(log, from, handle, KeyEvent(key, 0))
  }

  ghost function ButtonsLeft(buttons: set<KeyOrButton>, log: seq<Call>, from: nat, handle: Handle): set<KeyOrButton> {
    set button | button in buttons && !Released(log, from, handle, ButtonEvent(button, 0))
  }

  /** One more key release on the way. */
  lemma {:induction false} KeyCleaned(
      keys: set<KeyOrButton>, log: seq<Call>, from: nat, handle: Handle, key: KeyOrButton, waiting: set<Handle>,
      ok: bool)
    requires from <= |log| && OnlyCleans(log, from, handle) && OnlyKeys(log, from)
    ensures var log1 := log + [Inject(handle, KeyEvent(key, 0), Cleanup, waiting, ok)];
      && OnlyCleans(log1, from, handle) && OnlyKeys(log1, from)
      && (AllAccepted(log1, from) <==> AllAccepted(log, from) && ok)
      && KeysLeft(keys, log1, from, handle) == KeysLeft(keys, log, from, handle) - (if ok then {key} else {})
  {
    var call := Inject(handle, KeyEvent(key, 0), Cleanup, waiting, ok);
    AcceptedOneMore(log, from, call);
    forall other ensures Released(log + [call], from, handle, KeyEvent(other, 0))
      <==> Released(log, from, handle, KeyEvent(other, 0)) || (ok && other == key)
    {
      ReleasedOneMore(log, from, handle, KeyEvent(other, 0), call);
    }
  }

  /** One more button release on the way. */
  lemma {:induction false} ButtonCleaned(
      buttons: set<KeyOrButton>, log: seq<Call>, from: nat, handle: Handle, button: KeyOrButton, waiting: set<Handle>,
      ok: bool)
    requires from <= |log| && OnlyCleans(log, from, handle) && OnlyButtons(log, from)
    ensures var log1 := log + [Inject(handle, ButtonEvent(button, 0), Cleanup, waiting, ok)];
      && OnlyCleans(log1, from, handle) && OnlyButtons(log1, from)
      && (AllAccepted(log1, from) <==> AllAccepted(log, from) && ok)
      && ButtonsLeft(buttons, log1, from, handle)
        == ButtonsLeft(buttons, log, from, handle) - (if ok then {button} else {})
  {
    var call := Inject(handle, ButtonEvent(button, 0), Cleanup, waiting, ok);
    AcceptedOneMore(log, from, call);
    forall other ensures Released(log + [call], from, handle, ButtonEvent(other, 0))
      <==> Released(log, from, handle, ButtonEvent(other, 0)) || (ok && other == button)
    {
      ReleasedOneMore(log, from, handle, ButtonEvent(other, 0), call);
    }
  }

  /** The keys left after the key releases are the keys left after the whole
      cleanup, whatever else it contained. */
  lemma {:induction false} KeysLeftFurtherOn(
      keys: set<KeyOrButton>, log: seq<Call>, from: nat, log1: seq<Call>, start: nat, handle: Handle)
    requires start <= from <= |log| && log <= log1
    requires forall i :: start <= i < from || |log| <= i < |log1| ==> !log1[i].Inject? || !log1[i].event.KeyEvent?
    ensures KeysLeft(keys, log1, start, handle) == KeysLeft(keys, log, from, handle)
  {
    forall key ensures Released(log1, start, handle, KeyEvent(key, 0)) <==>
      Released(log, from, handle, KeyEvent(key, 0))
    {
      ReleasedFurtherOn(log, from, log1, start, handle, KeyEvent(key, 0));
    }
  }

  lemma {:induction false} ButtonsLeftFurtherOn(
      buttons: set<KeyOrButton>, log: seq<Call>, from: nat, log1: seq<Call>, start: nat, handle: Handle)
    requires start <= from <= |log| && log <= log1
    requires forall i :: start <= i < from || |log| <= i < |log1| ==> !log1[i].Inject? || !log1[i].event.ButtonEvent?
    ensures ButtonsLeft(buttons, log1, start, handle) == ButtonsLeft(buttons, log, from, handle)
  {
    forall button ensures Released(log1, start, handle, ButtonEvent(button, 0)) <==>
      Released(log, from, handle, ButtonEvent(button, 0))
    {
      ReleasedFurtherOn(log, from, log1, start, handle, ButtonEvent(button, 0));
    }
  }

  lemma {:induction false} KeysLeftOfNothing(log: seq<Call>, from: nat, handle: Handle)
    ensures KeysLeft({}, log, from, handle) == {} && ButtonsLeft({}, log, from, handle) == {}
  {
  }

  /** The aggregate reset comes before any key or button release. */
  predicate ResetsFirst(log: seq<Call>, from: nat) {
    && from + 3 <= |log|
    && log[from].StopRepeat?
    && log[from + 1].Inject? && log[from + 1].event == ModifiersEvent({})
    && log[|log| - 1].ReleasePending?
  }

  /** The four phases of a cleanup read as one: reset, keys, buttons, residue. */
  lemma {:induction false} PhasesJoin(
      from: nat, reset: seq<Call>, keysUp: seq<Call>, buttonsUp: seq<Call>, done: seq<Call>, handle: Handle,
      keys: set<KeyOrButton>, buttons: set<KeyOrButton>)
    requires |reset| == from + 2 && reset <= keysUp <= buttonsUp <= done && |done| == |buttonsUp| + 1
    requires OnlyCleans(reset, from, handle) && OnlyCleans(keysUp, |reset|, handle)
    requires OnlyCleans(buttonsUp, |keysUp|, handle) && OnlyCleans(done, |buttonsUp|, handle)
    requires reset[from].StopRepeat? && reset[from + 1].Inject? && reset[from + 1].event == ModifiersEvent({})
    requires OnlyKeys(keysUp, |reset|) && OnlyButtons(buttonsUp, |keysUp|) && done[|buttonsUp|].ReleasePending?
    requires NoneDestroyed(reset, from)
    ensures OnlyCleans(done, from, handle) && ResetsFirst(done, from) && NoneDestroyed(done, from)
    ensures AllAccepted(done, from) == (AllAccepted(reset, from) && AllAccepted(keysUp, |reset|)
      && AllAccepted(buttonsUp, |keysUp|) && AllAccepted(done, |buttonsUp|))
    ensures KeysLeft(keys, done, from, handle) == KeysLeft(keys, keysUp, |reset|, handle)
    ensures ButtonsLeft(buttons, done, from, handle) == ButtonsLeft(buttons, buttonsUp, |keysUp|, handle)
  {
    KeysLeftFurtherOn(keys, keysUp, from + 2, done, from, handle);
    ButtonsLeftFurtherOn(buttons, buttonsUp, |keysUp|, done, from, handle);
    assert forall i :: 0 <= i < |reset| ==> done[i] == reset[i];
    assert forall i :: 0 <= i < |keysUp| ==> done[i] == keysUp[i];
    assert forall i :: 0 <= i < |buttonsUp| ==> done[i] == buttonsUp[i];
  }

  /** A retirement: cleanup of this handle alone, closed by its destruction
      exactly if the backend accepted all of it. */
  predicate Retires(log: seq<Call>, from: nat, handle: Handle, ok: bool) {
    && from < |log| && OnlyCleans(log, from, handle)
    && ok == AllAccepted(log, from)
    && (ok ==> log[|log| - 1] == DestroyHandle(handle))
    && forall i :: from <= i < |log| && log[i].DestroyHandle? ==> ok && i == |log| - 1
  }

  lemma {:induction false} RetiresWhenClosed(log: seq<Call>, from: nat, handle: Handle)
    requires from < |log| && OnlyCleans(log, from, handle) && AllAccepted(log, from)
    requires NoneDestroyed(log, from)
    ensures Retires(log + [DestroyHandle(handle)], from, handle, true)
    ensures forall keys ::
      KeysLeft(keys, log + [DestroyHandle(handle)], from, handle) == KeysLeft(keys, log, from, handle)
    ensures forall buttons ::
      ButtonsLeft(buttons, log + [DestroyHandle(handle)], from, handle) == ButtonsLeft(buttons, log, from, handle)
  {
    var log1 := log + [DestroyHandle(handle)];
    AcceptedOneMore(log, from, DestroyHandle(handle));
    forall keys ensures KeysLeft(keys, log1, from, handle) == KeysLeft(keys, log, from, handle) {
      KeysLeftFurtherOn(keys, log, from, log1, from, handle);
    }
    forall buttons ensures ButtonsLeft(buttons, log1, from, handle) == ButtonsLeft(buttons, log, from, handle) {
      ButtonsLeftFurtherOn(buttons, log, from, log1, from, handle);
    }
  }

  lemma {:induction false} CleansOneMore(
      log: seq<Call>, log1: seq<Call>, from: nat, waiting: set<Handle>, handle: Handle)
    requires from <= |log| && log <= log1 && handle in waiting
    requires OnlyCleansAny(log, from, waiting) && OnlyCleans(log1, |log|, handle)
    ensures OnlyCleansAny(log1, from, waiting)
  {
    assert forall i :: 0 <= i < |log| ==> log1[i] == log[i];
  }

  /** Background injection is stopped before the handle's keys are released. */
  predicate Quiesces(log: seq<Call>, gate: nat) {
    gate < |log| && log[gate].Quiesce? && ResetsFirst(log, gate + 1)
  }

  lemma {:induction false} QuiescedThenCleaned(
      log: seq<Call>, log1: seq<Call>, from: nat, gate: nat, concerned: set<Handle>, handle: Handle, stopped: bool)
    requires from <= gate && |log| == gate + 1 && log[gate] == Quiesce(handle, stopped) && log <= log1
    requires handle in concerned && OnlyCleansAny(log[..gate], from, concerned)
    requires OnlyCleans(log1, |log|, handle) && ResetsFirst(log1, |log|)
    ensures OnlyCleansAny(log1, from, concerned) && Quiesces(log1, gate)
    ensures AllAccepted(log1, gate) == (stopped && AllAccepted(log1, |log|))
  {
    assert forall i :: 0 <= i < |log| ==> log1[i] == log[i];
    CleansOneMore(log[..gate], log, from, concerned, handle);
    CleansOneMore(log, log1, from, concerned, handle);
  }
}
