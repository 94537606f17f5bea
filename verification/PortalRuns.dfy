/** Whole runs of the portal capture task: who owns the pointer as the outer
    layer hears it, exactly which suspended hand-over loses an AutoRelease, and
    why a stale barrier identifier never begins a capture. */
module PortalRuns {
  import opened Wrappers
  import opened Positions
  import opened PortalBarriers
  import opened SerialNumbers
  import opened PortalSession

  /** The outer layer's view: the position whose capture it takes to be active. */
  function Hear(view: Option<Position>, out: Out): Option<Position> {
    match out
    case Begin(pos) => Some(pos)
    case AutoRelease(_) => None
    case Requested(_) => None
    case Acked => view
  }

  predicate GivesUp(out: Out) {
    out.AutoRelease? || out.Requested?
  }

  /** A capture begins only when none is active, and only an active capture is
      auto-released. */
  predicate Fits(view: Option<Position>, out: Out) {
    match out
    case Begin(_) => view.None?
    case AutoRelease(pos) => view == Some(pos)
    case Requested(pos) => view == Some(pos)
    case Acked => true
  }

  function HearAll(view: Option<Position>, outs: seq<Out>): Option<Position>
    decreases |outs|
  {
    if outs == [] then view else Hear(HearAll(view, outs[..|outs| - 1]), outs[|outs| - 1])
  }

  predicate WellHeard(view: Option<Position>, outs: seq<Out>)
    decreases |outs|
  {
    outs == []
    || (WellHeard(view, outs[..|outs| - 1]) && Fits(HearAll(view, outs[..|outs| - 1]), outs[|outs| - 1]))
  }

  lemma {:induction false} HeardInTwo(view: Option<Position>, first: seq<Out>, second: seq<Out>)
    ensures HearAll(view, first + second) == HearAll(HearAll(view, first), second)
    ensures WellHeard(view, first + second) == (WellHeard(view, first) && WellHeard(HearAll(view, first), second))
    decreases |second|
  {
    if second == [] {
      assert first + second == first;
    } else {
      HeardInTwo(view, first, second[..|second| - 1]);
      assert (first + second)[..|first + second| - 1] == first + second[..|second| - 1];
    }
  }

  /** Between two Begins the first capture was released, on request or not. */
  ghost predicate BeginsSeparated(outs: seq<Out>) {
    forall i, j :: 0 <= i < j < |outs| && outs[i].Begin? && outs[j].Begin? ==> GivenUpBetween(outs, i, j)
  }

  ghost predicate GivenUpBetween(outs: seq<Out>, i: nat, j: nat)
    requires i < j < |outs|
  {
    exists k :: i < k < j && GivesUp(outs[k])
  }

  lemma {:induction false} GivenUpSince(view: Option<Position>, outs: seq<Out>, i: nat)
    requires i < |outs| && outs[i].Begin? && HearAll(view, outs).None?
    ensures exists k :: i < k < |outs| && GivesUp(outs[k])
    decreases |outs|
  {
    var front, last := outs[..|outs| - 1], outs[|outs| - 1];
    if GivesUp(last) {
      assert GivesUp(outs[|outs| - 1]);
    } else {
      GivenUpSince(view, front, i);
      var k :| i < k < |front| && GivesUp(front[k]);
      assert GivesUp(outs[k]);
    }
  }

  lemma {:induction false} WellHeardSeparatesBegins(view: Option<Position>, outs: seq<Out>)
    requires WellHeard(view, outs)
    ensures BeginsSeparated(outs)
    decreases |outs|
  {
    if outs != [] {
      var front := outs[..|outs| - 1];
      WellHeardSeparatesBegins(view, front);
      forall i, j | 0 <= i < j < |outs| && outs[i].Begin? && outs[j].Begin? ensures GivenUpBetween(outs, i, j) {
        if j < |front| {
          assert GivenUpBetween(front, i, j);
          var k :| i < k < j && GivesUp(front[k]);
          assert GivesUp(outs[k]);
        } else {
          assert Fits(HearAll(view, front), outs[j]);
          GivenUpSince(view, front, i);
          var k :| i < k < |front| && GivesUp(front[k]);
          assert GivesUp(outs[k]);
        }
      }
    }
  }

  // --------------------------------------------------------- settled states

  /** At the select loop the capture task and the outer layer agree. */
  predicate Settled(s: State, view: Option<Position>) {
    && s.current == s.active
    && (!s.stopped ==> view == s.active)
    && (!s.connected ==> s.active.None? && s.positions == map[] && s.barriers == [])
  }

  /** The EIS stream ended while an arm was handing something over: a Begin still
      unsent, or the AutoRelease of an interrupted capture. */
  predicate HandoverLost(s: State, arm: Arm) {
    s.connected && !s.stopped &&
    match arm
    case Activated(session, barrier, cursor, _, loss) =>
      s.active.None? && session == s.session && Mapped(s, barrier, cursor).Some? && loss.InSend?
    case SessionNotified(loss) => s.active.Some? && loss in {InRelease, InSend}
    case Cancelled(loss) => s.active.Some? && loss.InRelease?
    case ZonesChanged(session, zoneSet, _, loss, _) =>
      s.active.Some? && ShouldReconfigureZones(s, session, zoneSet) && loss in {InRelease, InSend}
    case ClientUpdate(event, _, loss, _) =>
      s.active.Some? && ApplyClientUpdate(s.clients, event).Some? && loss in {InRelease, InSend}
    case _ => false
  }

  predicate StepAgrees(s: State, view: Option<Position>, arm: Arm) {
    var o := Step(s, arm);
    WellHeard(view, o.outs) && Settled(o.state, HearAll(view, o.outs))
  }

  lemma {:induction false} HearNone(view: Option<Position>)
    ensures HearAll(view, []) == view && WellHeard(view, [])
  {
  }

  lemma {:induction false} HearOne(view: Option<Position>, out: Out)
    ensures HearAll(view, [out]) == Hear(view, out) && WellHeard(view, [out]) == Fits(view, out)
  {
    assert [out][..0] == [];
  }

  lemma {:induction false} HearTwo(view: Option<Position>, first: Out, second: Out)
    ensures HearAll(view, [first, second]) == Hear(Hear(view, first), second)
    ensures WellHeard(view, [first, second]) == (Fits(view, first) && Fits(Hear(view, first), second))
  {
    assert [first, second] == [first] + [second];
    HeardInTwo(view, [first], [second]);
    HearOne(view, first);
    HearOne(Hear(view, first), second);
  }

  lemma {:induction false} ActivationAgrees(s: State, view: Option<Position>, arm: Arm)
    requires Settled(s, view) && arm.Activated?
    ensures StepAgrees(s, view, arm) <==> !HandoverLost(s, arm)
  {
    HearNone(view);
    if s.current.Some? {
      HearOne(view, AutoRelease(s.current.value));
    }
    if Mapped(s, arm.barrier, arm.cursor).Some? {
      HearOne(view, Begin(Mapped(s, arm.barrier, arm.cursor).value));
      HearOne(view, AutoRelease(Mapped(s, arm.barrier, arm.cursor).value));
    }
  }

  lemma {:induction false} ReconfigureAgrees(s: State, view: Option<Position>, arm: Arm)
    requires Settled(s, view) && (arm.ZonesChanged? || arm.ClientUpdate?)
    ensures StepAgrees(s, view, arm) <==> !HandoverLost(s, arm)
  {
    HearNone(view);
    if s.active.Some? {
      HearOne(view, AutoRelease(s.active.value));
    }
  }

  /** One step keeps the capture task and the outer layer in agreement exactly if no
      hand-over was lost in it. */
  lemma {:induction false} AgreesUnlessHandoverLost(s: State, view: Option<Position>, arm: Arm)
    requires Settled(s, view)
    ensures StepAgrees(s, view, arm) <==> !HandoverLost(s, arm)
  {
    if arm.Activated? {
      ActivationAgrees(s, view, arm);
    } else if arm.ZonesChanged? || arm.ClientUpdate? {
      ReconfigureAgrees(s, view, arm);
    } else {
      HearNone(view);
      HearOne(view, Acked);
      if s.active.Some? {
        HearOne(view, AutoRelease(s.active.value));
        HearOne(view, Requested(s.active.value));
        HearTwo(view, Requested(s.active.value), Acked);
      }
    }
  }

  // ------------------------------------------------------------------- runs

  function Run(s: State, arms: seq<Arm>): State
    decreases |arms|
  {
    if arms == [] then s else Step(Run(s, arms[..|arms| - 1]), arms[|arms| - 1]).state
  }

  function Emitted(s: State, arms: seq<Arm>): seq<Out>
    decreases |arms|
  {
    if arms == [] then []
    else Emitted(s, arms[..|arms| - 1]) + Step(Run(s, arms[..|arms| - 1]), arms[|arms| - 1]).outs
  }

  lemma {:induction false} RunMore(s: State, arms: seq<Arm>, arm: Arm)
    ensures Run(s, arms + [arm]) == Step(Run(s, arms), arm).state
    ensures Emitted(s, arms + [arm]) == Emitted(s, arms) + Step(Run(s, arms), arm).outs
  {
    assert (arms + [arm])[..|arms|] == arms;
  }

  predicate NoHandoverLost(s: State, arms: seq<Arm>)
    decreases |arms|
  {
    arms == []
    || (NoHandoverLost(s, arms[..|arms| - 1]) && !HandoverLost(Run(s, arms[..|arms| - 1]), arms[|arms| - 1]))
  }

  /** A run in which no hand-over is lost never begins a second capture before
      the first was released, and auto-releases only what is active. */
  lemma {:induction false} RunsAgree(s: State, arms: seq<Arm>)
    requires Settled(s, None) && NoHandoverLost(s, arms)
    ensures WellHeard(None, Emitted(s, arms))
    ensures Settled(Run(s, arms), HearAll(None, Emitted(s, arms)))
    decreases |arms|
  {
    if arms != [] {
      var front, last := arms[..|arms| - 1], arms[|arms| - 1];
      RunsAgree(s, front);
      var view := HearAll(None, Emitted(s, front));
      AgreesUnlessHandoverLost(Run(s, front), view, last);
      assert StepAgrees(Run(s, front), view, last);
      HeardInTwo(None, Emitted(s, front), Step(Run(s, front), last).outs);
    }
  }

  lemma {:induction false} EveryRunSeparatesBegins(gnome: bool, arms: seq<Arm>)
    requires NoHandoverLost(Initial(gnome), arms)
    ensures BeginsSeparated(Emitted(Initial(gnome), arms))
  {
    RunsAgree(Initial(gnome), arms);
    WellHeardSeparatesBegins(None, Emitted(Initial(gnome), arms));
  }

  lemma {:induction false} CurrentIsActive(s: State, arm: Arm)
    requires s.current == s.active
    ensures Step(s, arm).state.current == Step(s, arm).state.active
  {
  }

  // ---------------------------------------------------------- interruptions

  /** The arms that take an active capture away without being asked to. */
  predicate Interrupts(s: State, arm: Arm) {
    s.connected && !s.stopped &&
    match arm
    case SessionNotified(_) => true
    case ZonesChanged(session, zoneSet, _, _, _) => ShouldReconfigureZones(s, session, zoneSet)
    case ClientUpdate(event, _, _, _) => ApplyClientUpdate(s.clients, event).Some?
    case EisExited => true
    case _ => false
  }

  /** An interruption emits exactly one AutoRelease for the active position, and
      nothing when there is none, whatever the portal answers; it emits nothing
      for an active position exactly if the hand-over is lost. */
  lemma {:induction false} InterruptionAutoReleasesOnce(s: State, arm: Arm)
    requires Interrupts(s, arm) && s.current == s.active
    ensures Step(s, arm).outs == if HandoverLost(s, arm) then [] else AutoReleases(s.active)
    ensures Step(s, arm).state.active == None
  {
  }

  /** A step that ends the capture task tells the outer layer about an active
      capture exactly if it is a zone or client change; a failed release, a closed
      channel and a cancellation only end the event stream. */
  lemma {:induction false} StoppingTellsOnlyOnChange(s: State, arm: Arm)
    requires s.active.Some? && s.current == s.active && s.connected && !s.stopped
    requires Step(s, arm).state.stopped
    ensures AutoRelease(s.active.value) in Step(s, arm).outs <==> Interrupts(s, arm)
    ensures Interrupts(s, arm) <==> arm.ZonesChanged? || arm.ClientUpdate?
  {
    assert AutoRelease(s.active.value) in AutoReleases(s.active);
  }

  /** A release request is acknowledged exactly if there was nothing to release
      or the portal completed the release, and leaves no capture behind. */
  lemma {:induction false} AcknowledgedOnlyWhenReleased(s: State, released: bool, loss: Loss)
    requires s.connected && !s.stopped && s.current == s.active
    ensures var o := Step(s, ReleaseRequest(released, loss));
      && (Acked in o.outs <==> s.active.None? || (released && !loss.InRelease?))
      && o.state.active.None? && o.state.current.None?
      && (s.active.Some? ==> Requested(s.active.value) in o.outs)
  {
    if s.active.Some? {
      assert Requested(s.active.value) == [Requested(s.active.value), Acked][0];
    }
  }

  // ------------------------------------------------- barrier identifiers

  /** Every current identifier has been handed out, and names a position; every
      barrier is longer than a point. */
  predicate WellNumbered(s: State) {
    && 0 < s.next <= MAX_BARRIER_ID
    && (forall id :: id in s.positions ==> id < s.next)
    && (forall k :: 0 <= k < |s.barriers| ==> s.barriers[k].id in s.positions && Proper(s.barriers[k]))
  }

  /** The current identifiers are the old ones, or none was ever used before. */
  predicate FreshSince(s: State, s1: State) {
    && WellNumbered(s1) && s.next <= s1.next
    && (s1.positions == s.positions || forall id :: id in s1.positions ==> s.next <= id)
  }

  lemma {:induction false} SelectedIsFresh(layout: Layout, clients: seq<Position>, next: nat)
    returns (r: Option<Selection>)
    ensures r == Selected(layout, clients, next)
    ensures r.Some? ==>
      && next <= r.value.next <= MAX_BARRIER_ID
      && (forall id :: id in r.value.positions ==> next <= id < r.value.next)
      && forall k :: 0 <= k < |r.value.barriers| ==>
           r.value.barriers[k].id in r.value.positions && Proper(r.value.barriers[k])
  {
    r := Selected(layout, clients, next);
    var plan := Plan(layout, clients);
    NumberedNumbers(plan, next);
    if r.Some? {
      forall k | 0 <= k < |plan| ensures Proper(r.value.barriers[k]) {
        assert plan[k] in plan;
        PlanCovers(layout, clients, plan[k].pos, plan[k].segment);
        UsableIsProper(next + k, plan[k].segment);
      }
    }
  }

  lemma {:induction false} ConfigureIsFresh(s: State, answer: Option<Answer>)
    requires WellNumbered(s)
    ensures FreshSince(s, Configure(s, answer))
  {
    if answer.Some? {
      var r := SelectedIsFresh(answer.value.layout, s.clients, s.next);
    }
  }

  lemma {:induction false} TornIsFresh(s: State, answer: Option<Answer>)
    requires WellNumbered(s)
    ensures FreshSince(s, Torn(s, answer))
  {
    if answer.Some? {
      ConfigureIsFresh(s, answer);
    }
  }

  lemma {:induction false} ReconfigureIsFresh(s: State, released: bool, loss: Loss, answer: Option<Answer>)
    requires WellNumbered(s)
    ensures FreshSince(s, Reconfigure(s, released, loss, answer).state)
  {
    ConfigureIsFresh(Idle(s), answer);
    TornIsFresh(Idle(s), answer);
  }

  lemma {:induction false} ActivateIsFresh(s: State, pos: Option<Position>, released: bool, loss: Loss)
    requires WellNumbered(s)
    ensures FreshSince(s, Activate(s, pos, released, loss).state)
  {
  }

  lemma {:induction false} ReleaseIsFresh(s: State, released: bool, loss: Loss)
    requires WellNumbered(s)
    ensures FreshSince(s, Release(s, released, loss).state)
  {
  }

  lemma {:induction false} SessionStepIsFresh(s: State, arm: Arm)
    requires WellNumbered(s)
    ensures FreshSince(s, SessionStep(s, arm).state)
  {
    match arm
    case Activated(_, barrier, cursor, released, loss) =>
      ActivateIsFresh(s, Mapped(s, barrier, cursor), released, loss);
    case ReleaseRequest(released, loss) => ReleaseIsFresh(s, released, loss);
    case ZonesChanged(_, _, released, loss, answer) => ReconfigureIsFresh(s, released, loss, answer);
    case ClientUpdate(event, released, loss, answer) =>
      var after := ApplyClientUpdate(s.clients, event);
      if after.Some? {
        ReconfigureIsFresh(s.(clients := after.value), released, loss, answer);
      }
    case _ =>
  }

  lemma {:induction false} StepIsFresh(s: State, arm: Arm)
    requires WellNumbered(s)
    ensures FreshSince(s, Step(s, arm).state)
  {
    if s.connected {
      SessionStepIsFresh(s, arm);
    } else if arm.Connect? {
      ConfigureIsFresh(s.(session := arm.session), arm.answer);
    }
  }

  lemma {:induction false} FreshOnward(s: State, s1: State, s2: State)
    requires WellNumbered(s) && FreshSince(s, s1) && FreshSince(s1, s2)
    ensures FreshSince(s, s2)
  {
  }

  /** However the run goes on, the barriers are the same configuration still, or
      share no identifier with it. */
  lemma {:induction false} IdsNeverReturn(s: State, arms: seq<Arm>)
    requires WellNumbered(s)
    ensures FreshSince(s, Run(s, arms))
    decreases |arms|
  {
    if arms != [] {
      var front := arms[..|arms| - 1];
      IdsNeverReturn(s, front);
      StepIsFresh(Run(s, front), arms[|arms| - 1]);
      FreshOnward(s, Run(s, front), Run(s, arms));
    }
  }

  /** An activation still naming a barrier of an earlier configuration changes
      nothing and begins nothing, in whatever session it arrives. */
  lemma {:induction false} StaleActivationBeginsNothing(
      s: State, arms: seq<Arm>, id: nat, session: nat, cursor: Option<Cursor>)
    requires WellNumbered(s) && id in s.positions && Run(s, arms).positions != s.positions
    ensures var now := Run(s, arms);
      Step(now, Activated(session, Some(id), cursor, true, NotLost)) == Outcome(now, [])
  {
    IdsNeverReturn(s, arms);
  }

  /** Exactly which activations begin a capture, and for which position: one that
      names a current barrier, or, unnamed, one with a cursor to go by. */
  lemma {:induction false} BeginsExactlyWhenMapped(
      s: State, session: nat, barrier: Option<nat>, cursor: Option<Cursor>)
    requires s.connected && !s.stopped && s.active.None? && s.session == session
    requires WellNumbered(s)
    ensures var o := Step(s, Activated(session, barrier, cursor, true, NotLost));
      && (o.outs == [] <==> if barrier.Some? then barrier.value !in s.positions else cursor.None? || s.barriers == [])
      && (barrier.Some? && barrier.value in s.positions ==> o.outs == [Begin(s.positions[barrier.value])])
      && (o.outs != [] ==> o.state.active.Some? && o.outs == [Begin(o.state.active.value)])
  {
  }

  /** An activation that names no barrier, with the cursor at one of them, begins
      a capture for the first barrier whose line the cursor is on; for the barrier
      it is at exactly if that one has the same position. */
  lemma {:induction false} UnnamedBeginsOnFirstLine(s: State, cursor: Cursor, j: nat, k: nat)
    requires s.connected && !s.stopped && s.active.None? && WellNumbered(s)
    requires j < |s.barriers| && OnPiece(s.barriers[j], cursor) && FirstLine(s.barriers, cursor, k)
    ensures var outs := Step(s, Activated(s.session, None, Some(cursor), true, NotLost)).outs;
      && outs == [Begin(s.positions[s.barriers[k].id])]
      && (outs == [Begin(s.positions[s.barriers[j].id])] <==>
            s.positions[s.barriers[k].id] == s.positions[s.barriers[j].id])
  {
    FirstLineWins(s.barriers, cursor, k);
  }

  // ------------------------------------------------------- the lost hand-over

  function OneEdge(pos: Position): seq<Segment> {
    [Segment(pos, 0, 0, 100)]
  }

  /** A zone change during whose portal release the EIS stream ends, then a new
      session and a capture there. */
  function LostRun(s: State): seq<Arm> {
    [ ZonesChanged(s.session, None, true, InRelease, None),
      Connect(s.session + 1, Some(Answer(OneEdge, 1))),
      Activated(s.session + 1, Some(s.next), None, true, NotLost) ]
  }

  lemma {:induction false} PlansOne(pos: Position, segment: Segment)
    requires Usable(segment)
    ensures PlanEdge(pos, [segment]) == [Planned(pos, segment)]
  {
    assert [segment][..0] == [];
    assert PlanEdge(pos, [segment][..0]) == [];
  }

  lemma {:induction false} OneEdgePlan(pos: Position)
    ensures Plan(OneEdge, [pos]) == [Planned(pos, OneEdge(pos)[0])]
  {
    PlansOne(pos, OneEdge(pos)[0]);
    assert [pos][..0] == [];
    assert Plan(OneEdge, [pos][..0]) == [];
  }

  lemma {:induction false} OneEdgeConfigures(s: State, pos: Position)
    requires WellNumbered(s) && s.next < MAX_BARRIER_ID && s.clients == [pos]
    ensures Configure(s, Some(Answer(OneEdge, 1))) == s.(connected := true, next := s.next + 1, zoneSet := Wrap(1),
      barriers := [SegmentToBarrier(s.next, OneEdge(pos)[0])], positions := map[s.next := pos])
  {
    OneEdgePlan(pos);
    OneNumbered(Planned(pos, OneEdge(pos)[0]), s.next);
  }

  lemma {:induction false} OneNumbered(p: Planned, next: nat)
    ensures Numbered([p], next) == Selection([SegmentToBarrier(next, p.segment)], map[next := p.pos], next + 1)
  {
    NumbersUniquely([p], next, Selection([SegmentToBarrier(next, p.segment)], map[next := p.pos], next + 1));
  }

  /** One more arm, with everything before and after it given. */
  lemma {:induction false} Then(s: State, arms: seq<Arm>, arm: Arm, before: Outcome, after: Outcome)
    requires Run(s, arms) == before.state && Emitted(s, arms) == before.outs && Step(before.state, arm) == after
    ensures Run(s, arms + [arm]) == after.state && Emitted(s, arms + [arm]) == before.outs + after.outs
  {
    RunMore(s, arms, arm);
  }

  lemma {:induction false} LostRunSteps(s: State) returns (s1: State, s2: State, o3: Outcome)
    requires s.connected && !s.stopped && s.active == Some(Right) && s.clients == [Right]
    requires WellNumbered(s) && s.next < MAX_BARRIER_ID
    ensures Step(s, LostRun(s)[0]) == Outcome(s1, []) && Step(s1, LostRun(s)[1]) == Outcome(s2, [])
    ensures Step(s2, LostRun(s)[2]) == o3 && o3.outs == [Begin(Right)]
  {
    s1 := Idle(Closed(s));
    OneEdgeConfigures(s1.(session := s.session + 1), Right);
    s2 := Step(s1, LostRun(s)[1]).state;
    o3 := Step(s2, LostRun(s)[2]);
  }

  /** From any session with the right edge captured: the zone change of a portal
      slower than the end of its own EIS stream swallows the AutoRelease, and the
      next session begins a second capture with nothing in between. */
  lemma {:induction false} LostRunBeginsAgain(s0: State, before: seq<Arm>, s: State)
    requires s == Run(s0, before)
    requires s.connected && !s.stopped && s.active == Some(Right) && s.clients == [Right]
    requires WellNumbered(s) && s.next < MAX_BARRIER_ID
    ensures HandoverLost(s, LostRun(s)[0])
    ensures Emitted(s0, before + LostRun(s)) == Emitted(s0, before) + [Begin(Right)]
  {
    var arms, outs := LostRun(s), Emitted(s0, before);
    var s1, s2, o3 := LostRunSteps(s);
    Then(s0, before, arms[0], Outcome(s, outs), Outcome(s1, []));
    Then(s0, before + [arms[0]], arms[1], Outcome(s1, outs), Outcome(s2, []));
    Then(s0, before + [arms[0]] + [arms[1]], arms[2], Outcome(s2, outs), o3);
    assert before + [arms[0]] + [arms[1]] + [arms[2]] == before + arms;
  }

  lemma {:induction false} NoneLostMore(s: State, arms: seq<Arm>, arm: Arm)
    requires arm.Connect? || ((arm.Activated? || arm.ClientUpdate?) && arm.loss.NotLost?)
    requires NoHandoverLost(s, arms)
    ensures NoHandoverLost(s, arms + [arm])
  {
    assert (arms + [arm])[..|arms|] == arms;
  }

  lemma {:induction false} FirstCaptureLosesNothing(gnome: bool)
    ensures NoHandoverLost(Initial(gnome), FirstCapture())
  {
    var arms := FirstCapture();
    NoneLostMore(Initial(gnome), [], arms[0]);
    assert [] + [arms[0]] == [arms[0]];
    NoneLostMore(Initial(gnome), [arms[0]], arms[1]);
    assert [arms[0]] + [arms[1]] == [arms[0], arms[1]];
    NoneLostMore(Initial(gnome), [arms[0], arms[1]], arms[2]);
    assert [arms[0], arms[1]] + [arms[2]] == arms;
  }

  /** A capture task from its start to its first capture. */
  function FirstCapture(): seq<Arm> {
    [ ClientUpdate(Create(Right), true, NotLost, None),
      Connect(1, Some(Answer(OneEdge, 1))),
      Activated(1, Some(1), None, true, NotLost) ]
  }

  lemma {:induction false} FirstCaptureBegins(gnome: bool) returns (s: State)
    ensures s == Run(Initial(gnome), FirstCapture()) && Emitted(Initial(gnome), FirstCapture()) == [Begin(Right)]
    ensures s.connected && !s.stopped && s.active == Some(Right) && s.clients == [Right]
    ensures WellNumbered(s) && s.next == 2 && s.session == 1
  {
    var arms := FirstCapture();
    var waiting := Initial(gnome).(clients := [Right]);
    assert [] + [Right] == [Right];
    OneEdgeConfigures(waiting.(session := 1), Right);
    var connected := Step(waiting, arms[1]).state;
    Then(Initial(gnome), [], arms[0], Outcome(Initial(gnome), []), Outcome(waiting, []));
    assert [] + [arms[0]] == [arms[0]];
    Then(Initial(gnome), [arms[0]], arms[1], Outcome(waiting, []), Outcome(connected, []));
    assert [arms[0]] + [arms[1]] == [arms[0], arms[1]];
    Then(Initial(gnome), [arms[0], arms[1]], arms[2], Outcome(connected, []), Step(connected, arms[2]));
    assert [arms[0], arms[1]] + [arms[2]] == arms;
    s := Run(Initial(gnome), arms);
  }

  /** So a capture task can begin two captures with nothing said in between: the
      one hand-over this run loses is at its fourth arm. */
  lemma {:induction false} LostHandoverBeginsTwice(gnome: bool) returns (arms: seq<Arm>)
    ensures |arms| == 6 && NoHandoverLost(Initial(gnome), arms[..3])
    ensures HandoverLost(Run(Initial(gnome), arms[..3]), arms[3])
    ensures Emitted(Initial(gnome), arms) == [Begin(Right), Begin(Right)]
    ensures !BeginsSeparated(Emitted(Initial(gnome), arms))
  {
    var s := FirstCaptureBegins(gnome);
    FirstCaptureLosesNothing(gnome);
    LostRunBeginsAgain(Initial(gnome), FirstCapture(), s);
    arms := FirstCapture() + LostRun(s);
    assert arms[..3] == FirstCapture();
    assert [Begin(Right)] + [Begin(Right)] == [Begin(Right), Begin(Right)];
    var outs := Emitted(Initial(gnome), arms);
    assert outs[0].Begin? && outs[1].Begin? && !GivenUpBetween(outs, 0, 1);
  }

  // ----------------------------------------------------- the mistaken corner

  /** The top and the right edge of one display. */
  function Corner(pos: Position): seq<Segment> {
    match pos
    case Top => [Segment(Top, 0, 0, 100)]
    case Right => [Segment(Right, 99, 0, 100)]
    case _ => []
  }

  const TOP_RIGHT := Cursor(100.0, 0.0)

  lemma {:induction false} CornerPlan()
    ensures Plan(Corner, [Top]) == [Planned(Top, Segment(Top, 0, 0, 100))]
    ensures Plan(Corner, [Top, Right])
      == [Planned(Top, Segment(Top, 0, 0, 100)), Planned(Right, Segment(Right, 99, 0, 100))]
  {
    PlansOne(Top, Segment(Top, 0, 0, 100));
    PlansOne(Right, Segment(Right, 99, 0, 100));
    assert [Top][..0] == [] && [Top, Right][..1] == [Top];
    assert Plan(Corner, [Top][..0]) == [];
    assert Plan(Corner, [Top, Right]) == Plan(Corner, [Top]) + PlanEdge(Right, Corner(Right));
  }

  lemma {:induction false} CornerNumbers(next: nat)
    ensures Numbered(Plan(Corner, [Top]), next)
      == Selection([Barrier(next, 0, 0, 99, 0)], map[next := Top], next + 1)
    ensures Numbered(Plan(Corner, [Top, Right]), next)
      == Selection([Barrier(next, 0, 0, 99, 0), Barrier(next + 1, 100, 0, 100, 99)],
           map[next := Top, next + 1 := Right], next + 2)
  {
    CornerPlan();
    NumbersUniquely(Plan(Corner, [Top]), next,
      Selection([Barrier(next, 0, 0, 99, 0)], map[next := Top], next + 1));
    NumbersUniquely(Plan(Corner, [Top, Right]), next,
      Selection([Barrier(next, 0, 0, 99, 0), Barrier(next + 1, 100, 0, 100, 99)],
        map[next := Top, next + 1 := Right], next + 2));
  }

  /** Both edges configured one after the other; then the cursor leaves through the
      right one, one past the end of the top one. */
  function CornerRun(): seq<Arm> {
    [ ClientUpdate(Create(Top), true, NotLost, None),
      Connect(1, Some(Answer(Corner, 1))),
      ClientUpdate(Create(Right), true, NotLost, Some(Answer(Corner, 2))),
      Activated(1, None, Some(TOP_RIGHT), true, NotLost) ]
  }

  function CornerState(zoneSet: nat, next: nat, clients: seq<Position>, barriers: seq<Barrier>,
      positions: map<nat, Position>): State {
    State(false, clients, next, true, 1, zoneSet, barriers, positions, None, None, false)
  }

  lemma {:induction false} CornerConfigures() returns (waiting: State, first: State, both: State)
    ensures Step(Initial(false), CornerRun()[0]) == Outcome(waiting, [])
    ensures Step(waiting, CornerRun()[1]) == Outcome(first, [])
    ensures Step(first, CornerRun()[2]) == Outcome(both, [])
    ensures both.connected && !both.stopped && both.active.None? && both.session == 1
    ensures both.barriers == [Barrier(2, 0, 0, 99, 0), Barrier(3, 100, 0, 100, 99)]
    ensures both.positions == map[2 := Top, 3 := Right]
  {
    CornerNumbers(1);
    CornerNumbers(2);
    assert [] + [Top] == [Top] && [Top] + [Right] == [Top, Right];
    waiting := Initial(false).(clients := [Top]);
    first := CornerState(1, 2, [Top], [Barrier(1, 0, 0, 99, 0)], map[1 := Top]);
    both := CornerState(2, 4, [Top, Right], [Barrier(2, 0, 0, 99, 0), Barrier(3, 100, 0, 100, 99)],
      map[2 := Top, 3 := Right]);
  }

  /** A cursor that leaves through the right edge can begin a capture at the top:
      the line of the top barrier runs on past its own piece. */
  lemma {:induction false} CornerBeginsAtTop() returns (both: State)
    ensures both == Run(Initial(false), CornerRun()[..3]) && WellNumbered(both) && |both.barriers| == 2
    ensures OnPiece(both.barriers[1], TOP_RIGHT) && !OnPiece(both.barriers[0], TOP_RIGHT)
    ensures both.positions[both.barriers[1].id] == Right
    ensures Emitted(Initial(false), CornerRun()) == [Begin(Top)]
  {
    var arms, start := CornerRun(), Initial(false);
    var waiting, first;
    waiting, first, both := CornerConfigures();
    Then(start, [], arms[0], Outcome(start, []), Outcome(waiting, []));
    assert [] + [arms[0]] == [arms[0]];
    Then(start, [arms[0]], arms[1], Outcome(waiting, []), Outcome(first, []));
    assert [arms[0]] + [arms[1]] == [arms[0], arms[1]];
    Then(start, [arms[0], arms[1]], arms[2], Outcome(first, []), Outcome(both, []));
    assert [arms[0], arms[1]] + [arms[2]] == arms[..3];
    IdsNeverReturn(start, arms[..3]);
    assert Off(both.barriers[0], TOP_RIGHT) == 0.0 && FirstLine(both.barriers, TOP_RIGHT, 0);
    UnnamedBeginsOnFirstLine(both, TOP_RIGHT, 1, 0);
    Then(start, arms[..3], arms[3], Outcome(both, []), Step(both, arms[3]));
    assert arms[..3] + [arms[3]] == arms;
  }
}
