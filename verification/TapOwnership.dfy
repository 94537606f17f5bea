/** Who owns the capture, and for whom an interrupted one is released, in every
    interleaving of the tap protocol (input-capture/src/macos.rs): judged by the
    steps taken and the events taken off the channel. */
module TapOwnership {
  import opened Wrappers
  import opened Positions
  import opened TapRecovery
  import opened TapProtocol

  // ---------------------------------------------------------------- the owner

  /** The producer handles a Grab of this edge through an open gate, nobody owns
      the capture, and the cursor could be hidden. */
  predicate Takes(s: System, a: Action, pos: Position) {
    && a == HandleHeld(true) && s.producer == Holding(Grab(pos))
    && s.shared.pending.None? && s.shared.current.None?
  }

  /** The tap is lost, or the producer handles a Release, or the edge's Destroy. */
  predicate Drops(s: System, a: Action, pos: Position) {
    a.LoseTap? || (a.HandleHeld? && (s.producer == Holding(Release) || s.producer == Holding(Destroy(pos))))
  }

  predicate TookAt(actions: seq<Action>, run: seq<System>, n: nat, pos: Position, i: nat)
    requires n <= |actions| < |run| && i < n
  {
    Takes(run[i], actions[i], pos) && forall j :: i < j < n ==> !Drops(run[j], actions[j], pos)
  }

  predicate TookAndKept(actions: seq<Action>, run: seq<System>, n: nat, pos: Position)
    requires n <= |actions| < |run|
  {
    exists i :: 0 <= i < n && TookAt(actions, run, n, pos, i)
  }

  lemma {:induction false} OwnerStep(s: System, a: Action, pos: Position)
    requires Inv(s) && Enabled(s, a)
    ensures Do(s, a).shared.current == Some(pos) <==>
      Takes(s, a, pos) || (s.shared.current == Some(pos) && !Drops(s, a, pos))
  {
    if a.HandleHeld? && s.producer.event.EventTapDisabled? {
      NoticeAtFront(s, a.hidden);
    }
  }

  lemma {:induction false} KeptOneMore(actions: seq<Action>, run: seq<System>, n: nat, pos: Position)
    requires n < |actions| < |run|
    ensures TookAndKept(actions, run, n + 1, pos) <==>
      Takes(run[n], actions[n], pos)
      || (TookAndKept(actions, run, n, pos) && !Drops(run[n], actions[n], pos))
  {
    if TookAndKept(actions, run, n + 1, pos) {
      var i :| 0 <= i < n + 1 && TookAt(actions, run, n + 1, pos, i);
      assert i < n ==> TookAt(actions, run, n, pos, i);
    }
    if Takes(run[n], actions[n], pos) {
      assert TookAt(actions, run, n + 1, pos, n);
    }
    if TookAndKept(actions, run, n, pos) && !Drops(run[n], actions[n], pos) {
      var i :| 0 <= i < n && TookAt(actions, run, n, pos, i);
      assert TookAt(actions, run, n + 1, pos, i);
    }
  }

  /** In every interleaving an edge owns the capture exactly if its Grab was
      handled with the gate open, nobody owning and the cursor hidden, and since
      then no Release, no Destroy of it and no loss of the tap took it away. */
  lemma {:induction false} OwnerTookAndKept(actions: seq<Action>, run: seq<System>, n: nat, pos: Position)
    requires IsRun(actions, run) && n <= |actions|
    ensures run[n].shared.current == Some(pos) <==> TookAndKept(actions, run, n, pos)
  {
    if n > 0 {
      OwnerTookAndKept(actions, run, n - 1, pos);
      StepOf(actions, run, n - 1);
      OwnerStep(run[n - 1], actions[n - 1], pos);
      KeptOneMore(actions, run, n - 1, pos);
    }
  }

  lemma {:induction false} StepOf(actions: seq<Action>, run: seq<System>, i: nat)
    requires IsRun(actions, run) && i < |actions|
    ensures Inv(run[i]) && Enabled(run[i], actions[i]) && run[i + 1] == Do(run[i], actions[i])
  {
    EveryRunKeepsInv(actions, run, i);
  }

  // ------------------------------------------------- whom an interval releases

  function FirstGrab(pipe: seq<ProducerEvent>): Option<Position>
    decreases |pipe|
  {
    if pipe == [] then None else if pipe[0].Grab? then Some(pipe[0].pos) else FirstGrab(pipe[1..])
  }

  /** The owner when the tap is lost, else the first Grab not handled yet. */
  function Owed(s: System): Option<Position> {
    if s.shared.current.Some? then s.shared.current else FirstGrab(Pipe(s))
  }

  function Released(s0: System): seq<CaptureEvent> {
    if Owed(s0).Some? then [AutoRelease(Owed(s0).value)] else []
  }

  lemma {:induction false} FirstGrabAppend(pipe: seq<ProducerEvent>, event: ProducerEvent)
    requires !event.Grab?
    ensures FirstGrab(pipe + [event]) == FirstGrab(pipe)
    decreases |pipe|
  {
    if pipe != [] {
      assert (pipe + [event])[1..] == pipe[1..] + [event];
      FirstGrabAppend(pipe[1..], event);
    }
  }

  lemma {:induction false} FirstGrabIfAny(pipe: seq<ProducerEvent>)
    ensures FirstGrab(pipe).Some? <==> HasGrab(pipe)
    decreases |pipe|
  {
    if pipe != [] {
      FirstGrabIfAny(pipe[1..]);
      if HasGrab(pipe) && !pipe[0].Grab? {
        var i :| 0 <= i < |pipe| && pipe[i].Grab?;
        assert pipe[1..][i - 1] == pipe[i];
      }
    }
  }

  /** While the gate is closed, whoever is or will be claimed for is the one owed. */
  predicate Named(s0: System, s: System) {
    && s.shared.pending.Some?
    && (s.shared.pending.value.interrupted.Some? ==> s.shared.pending.value.interrupted == Owed(s0))
    && (s.shared.pending.value.interrupted.None? ==> FirstGrab(Pipe(s)) == Owed(s0))
    && (s.producer.Publishing? ==> Some(s.producer.pos) == Owed(s0))
  }

  predicate EventsNamed(s0: System, s: System) {
    s.events == s0.events || (Owed(s0).Some? && s.events == s0.events + Released(s0))
  }

  lemma {:induction false} ClosingNames(s: System)
    requires Inv(s) && Enabled(s, LoseTap) && s.shared.pending.None?
    ensures Named(s, Do(s, LoseTap)) && EventsNamed(s, Do(s, LoseTap))
  {
    PipeMoves(s, LoseTap);
    FirstGrabAppend(Pipe(s), EventTapDisabled(Disable(s.shared).generation));
  }

  lemma {:induction false} StepNames(s0: System, s: System, a: Action)
    requires Inv(s) && Enabled(s, a) && Named(s0, s)
    ensures Do(s, a).shared.pending.Some? ==> Named(s0, Do(s, a))
  {
    PipeMoves(s, a);
    if a.LoseTap? {
      FirstGrabAppend(Pipe(s), EventTapDisabled(Disable(s.shared).generation));
    } else if a.HandleHeld? && s.producer.event.EventTapDisabled? {
      NoticeAtFront(s, a.hidden);
    }
  }

  lemma {:induction false} StepNamesEvents(s0: System, s: System, a: Action)
    requires Inv(s) && Enabled(s, a) && Named(s0, s) && Counted(s0, s) && EventsNamed(s0, s)
    ensures EventsNamed(s0, Do(s, a))
  {
  }

  lemma {:induction false} FirstNames(actions: seq<Action>, run: seq<System>, n: nat)
    requires IsRun(actions, run) && n < |actions| && actions[n].LoseTap? && run[n].shared.pending.None?
    ensures Named(run[n], run[n + 1]) && EventsNamed(run[n], run[n + 1])
  {
    StepOf(actions, run, n);
    ClosingNames(run[n]);
  }

  lemma {:induction false} NextNames(actions: seq<Action>, run: seq<System>, s0: System, i: nat)
    requires IsRun(actions, run) && i < |actions|
    requires Named(s0, run[i]) && Counted(s0, run[i]) && EventsNamed(s0, run[i])
    ensures run[i + 1].shared.pending.Some? ==> Named(s0, run[i + 1])
    ensures EventsNamed(s0, run[i + 1])
  {
    StepOf(actions, run, i);
    StepNames(s0, run[i], actions[i]);
    StepNamesEvents(s0, run[i], actions[i]);
  }

  lemma {:induction false} IntervalNames(actions: seq<Action>, run: seq<System>, n: nat, k: nat, i: nat)
    requires ClosedFrom(actions, run, n, k) && n < i <= k + 1
    ensures i <= k ==> Named(run[n], run[i])
    ensures EventsNamed(run[n], run[i])
    decreases i
  {
    if i > n + 1 {
      IntervalNames(actions, run, n, k, i - 1);
      IntervalCounts(actions, run, n, k, i - 1);
      NextNames(actions, run, run[n], i - 1);
    } else {
      FirstNames(actions, run, n);
    }
  }

  /** A closed interval puts exactly one AutoRelease on the wire, of the edge that
      owned the capture when the tap was lost, or else of the first Grab still
      queued, and nothing if there was neither. */
  lemma {:induction false} IntervalReleasesOwed(actions: seq<Action>, run: seq<System>, n: nat, k: nat)
    requires ClosedFrom(actions, run, n, k) && run[k + 1].shared.pending.None?
    ensures run[k + 1].events == run[n].events + Released(run[n])
  {
    IntervalNames(actions, run, n, k, k + 1);
    IntervalAnswersOutstanding(actions, run, n, k);
    FirstGrabIfAny(Pipe(run[n]));
  }

  // ------------------------------------------------------------ a concrete run

  /** A pending recovery of the first generation, on the way. */
  function Interrupted(pos: Position, claimed: bool, notice: Option<ProducerEvent>, queue: seq<ProducerEvent>,
      producer: Producer, events: seq<CaptureEvent>, released: nat): System {
    var shared := Shared(None, 1, Some(Recovery(1, Some(pos), claimed)));
    System(shared, None, notice, queue, producer, events, true, released)
  }

  lemma {:induction false} CaptureBegins(pos: Position) returns (actions: seq<Action>, run: seq<System>)
    ensures IsRun(actions, run) && |actions| == 4 && actions[3] == HandleHeld(true)
    ensures run[4] == System(Shared(Some(pos), 0, None), None, None, [], Idle, [Begin(pos)], false, 0)
  {
    actions, run := Extend([], [INITIAL], Cross(pos));
    actions, run := Extend(actions, run, SendGrab);
    assert [] + [Grab(pos)] == [Grab(pos)] && [] + [Begin(pos)] == [Begin(pos)];
    actions, run := Extend(actions, run, Receive);
    actions, run := Extend(actions, run, HandleHeld(true));
  }

  lemma {:induction false} InterruptedSteps(pos: Position)
    ensures var owning := System(Shared(Some(pos), 0, None), None, None, [], Idle, [Begin(pos)], false, 0);
      && Enabled(owning, LoseTap) && Pipe(owning) == []
      && Do(owning, LoseTap) == Interrupted(pos, false, Some(EventTapDisabled(1)), [], Idle, [Begin(pos)], 0)
    ensures var held := Interrupted(pos, false, None, [], Holding(EventTapDisabled(1)), [Begin(pos)], 0);
      && Enabled(held, HandleHeld(true))
      && Do(held, HandleHeld(true)) == Interrupted(pos, true, None, [], Publishing(1, pos), [Begin(pos)], 0)
    ensures var publishing := Interrupted(pos, true, None, [], Publishing(1, pos), [Begin(pos)], 0);
      && Enabled(publishing, Publish)
      && Do(publishing, Publish)
        == Interrupted(pos, true, None, [], Finishing(1), [Begin(pos), AutoRelease(pos)], 1)
  {
    assert [Begin(pos)] + [AutoRelease(pos)] == [Begin(pos), AutoRelease(pos)];
  }

  lemma {:induction false} OwnerIsInterrupted(pos: Position) returns (actions: seq<Action>, run: seq<System>)
    ensures IsRun(actions, run) && |actions| == 7 && actions[4].LoseTap?
    ensures run[4].shared.current == Some(pos) && Pipe(run[4]) == []
    ensures run[7] == Interrupted(pos, false, None, [], Holding(EventTapDisabled(1)), [Begin(pos)], 0)
  {
    InterruptedSteps(pos);
    var notice := EventTapDisabled(1);
    var a, r := CaptureBegins(pos);
    a, r := Extend(a, r, LoseTap);
    a, r := Extend(a, r, SendNotice);
    assert r[|a|] == Interrupted(pos, false, None, [notice], Idle, [Begin(pos)], 0);
    actions, run := Extend(a, r, Receive);
  }

  /** A capture that begins, owns its edge with nothing in flight, loses the tap,
      and is released for exactly that edge. */
  lemma {:induction false} OwnerIsReleased(pos: Position) returns (actions: seq<Action>, run: seq<System>)
    ensures IsRun(actions, run) && |actions| == 10 && actions[4].LoseTap? && actions[8].Publish?
    ensures run[4].shared.current == Some(pos) && Pipe(run[4]) == []
    ensures run[10].shared.pending.None? && run[10].shared.current.None?
    ensures run[10].events == [Begin(pos), AutoRelease(pos)] && Unreleased(run[10].events) == {}
  {
    InterruptedSteps(pos);
    var a, r := OwnerIsInterrupted(pos);
    a, r := Extend(a, r, HandleHeld(true));
    a, r := Extend(a, r, Publish);
    actions, run := Extend(a, r, Finish);
  }
}
