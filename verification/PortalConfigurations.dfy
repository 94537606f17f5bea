/** What a barrier configuration of the portal capture task (input-capture/src/
    libei.rs) contains, and which arms rebuild it, leave it alone or end it. */
module PortalConfigurations {
  import opened Wrappers
  import opened Positions
  import opened PortalBarriers
  import opened SerialNumbers
  import opened PortalSession
  import opened PortalRuns

  // ------------------------------------------------------------- the barriers

  /** The last pixel row or column inside the display at this edge, and the first
      one beyond it. */
  function Beyond(edge: Position, inside: int): int {
    if edge.Left? || edge.Top? then inside - 1 else inside + 1
  }

  /** A barrier runs along the line between the pixels inside and those beyond,
      over exactly the pixels of its piece. */
  lemma {:induction false} BarrierSpansPiece(id: nat, s: Segment, n: int)
    requires Usable(s)
    ensures var b := SegmentToBarrier(id, s);
      var line := if Beyond(s.edge, s.coordinate) < s.coordinate then s.coordinate else Beyond(s.edge, s.coordinate);
      && b.id == id
      && (s.edge.Left? || s.edge.Right? ==> b.x1 == b.x2 == line && (s.start <= n < s.end <==> b.y1 <= n <= b.y2))
      && (s.edge.Top? || s.edge.Bottom? ==> b.y1 == b.y2 == line && (s.start <= n < s.end <==> b.x1 <= n <= b.x2))
  {
  }

  predicate MadeFrom(s: State, k: nat, pos: Position, segment: Segment) {
    k < |s.barriers| &&
    var b := s.barriers[k];
    b == SegmentToBarrier(b.id, segment) && b.id in s.positions && s.positions[b.id] == pos
  }

  /** The piece of a configured edge, and long enough. */
  predicate Wanted(s: State, layout: Layout, pos: Position, segment: Segment) {
    pos in s.clients && segment in layout(pos) && Usable(segment)
  }

  ghost predicate HasBarrier(s: State, pos: Position, segment: Segment) {
    exists k :: 0 <= k < |s.barriers| && MadeFrom(s, k, pos, segment)
  }

  ghost predicate HasPiece(s: State, layout: Layout, k: nat) {
    exists pos, segment :: Wanted(s, layout, pos, segment) && MadeFrom(s, k, pos, segment)
  }

  /** The barriers are exactly the wanted pieces, numbered from `from` on, and the
      identifiers in force are exactly theirs. */
  ghost predicate Built(s: State, layout: Layout, from: nat) {
    && s.connected && !s.stopped
    && (forall pos, segment :: Wanted(s, layout, pos, segment) ==> HasBarrier(s, pos, segment))
    && (forall k :: 0 <= k < |s.barriers| ==> s.barriers[k].id == from + k && HasPiece(s, layout, k))
    && (forall id :: id in s.positions <==> from <= id < from + |s.barriers|)
  }

  predicate EnoughIds(s: State, answer: Answer) {
    s.next + |Plan(answer.layout, s.clients)| <= MAX_BARRIER_ID
  }

  lemma {:induction false} PlanIndex(plan: seq<Planned>, p: Planned) returns (k: nat)
    requires p in plan
    ensures k < |plan| && plan[k] == p
  {
    k :| 0 <= k < |plan| && plan[k] == p;
  }

  lemma {:induction false} ConfigurePieces(s: State, answer: Answer, k: nat)
    requires !s.stopped && EnoughIds(s, answer)
    requires k < |Configure(s, Some(answer)).barriers|
    ensures var s1 := Configure(s, Some(answer));
      s1.barriers[k].id == s.next + k && HasPiece(s1, answer.layout, k)
  {
    var s1 := Configure(s, Some(answer));
    var plan := Plan(answer.layout, s.clients);
    NumberedNumbers(plan, s.next);
    PlanCovers(answer.layout, s.clients, plan[k].pos, plan[k].segment);
    assert plan[k] in plan;
    assert MadeFrom(s1, k, plan[k].pos, plan[k].segment);
    assert Wanted(s1, answer.layout, plan[k].pos, plan[k].segment);
  }

  lemma {:induction false} ConfigureCovers(s: State, answer: Answer, pos: Position, segment: Segment)
    requires !s.stopped && EnoughIds(s, answer) && Wanted(s, answer.layout, pos, segment)
    ensures HasBarrier(Configure(s, Some(answer)), pos, segment)
  {
    var plan := Plan(answer.layout, s.clients);
    NumberedNumbers(plan, s.next);
    PlanCovers(answer.layout, s.clients, pos, segment);
    var k := PlanIndex(plan, Planned(pos, segment));
    assert MadeFrom(Configure(s, Some(answer)), k, pos, segment);
  }

  /** A configuration that is answered, with identifiers left, is built in full;
      otherwise it ends the capture task. */
  lemma {:induction false} ConfigureBuilds(s: State, answer: Answer)
    requires !s.stopped
    ensures var s1 := Configure(s, Some(answer));
      if EnoughIds(s, answer) then Built(s1, answer.layout, s.next) && s1.zoneSet == Wrap(answer.zoneSet)
      else s1.stopped
    ensures Configure(s, Some(answer)).clients == s.clients && Configure(s, None).stopped
  {
    if EnoughIds(s, answer) {
      var s1 := Configure(s, Some(answer));
      NumberedNumbers(Plan(answer.layout, s.clients), s.next);
      forall pos, segment | Wanted(s1, answer.layout, pos, segment) ensures HasBarrier(s1, pos, segment) {
        ConfigureCovers(s, answer, pos, segment);
      }
      forall k | 0 <= k < |s1.barriers|
        ensures s1.barriers[k].id == s.next + k && HasPiece(s1, answer.layout, k)
      {
        ConfigurePieces(s, answer, k);
      }
    }
  }

  // ------------------------------------------------------- arms that rebuild

  predicate Running(s: State) {
    s.connected && !s.stopped
  }

  /** A zone signal counts if it is the session's own and not older than the zones
      configured; without a number it always counts. */
  lemma {:induction false} ZonesHeeded(
      s: State, session: nat, zoneSet: Option<nat>, released: bool, loss: Loss, answer: Option<Answer>)
    requires Running(s)
    requires zoneSet.Some? ==> s.zoneSet <= zoneSet.value + HALF && zoneSet.value < s.zoneSet + HALF
    ensures var arm := ZonesChanged(session, zoneSet, released, loss, answer);
      var heeded := session == s.session && (zoneSet.None? || s.zoneSet <= zoneSet.value);
      && (Interrupts(s, arm) <==> heeded)
      && (!heeded ==> Step(s, arm) == Outcome(s, []))
  {
    if zoneSet.Some? {
      ZoneOrderIsTrueOrder(s.zoneSet, zoneSet.value);
    }
  }

  /** A client update counts exactly if it changes the edges. */
  lemma {:induction false} UpdatesHeeded(
      s: State, event: ClientEvent, released: bool, loss: Loss, answer: Option<Answer>)
    requires Running(s)
    ensures var arm := ClientUpdate(event, released, loss, answer);
      var heeded := event.Create? <==> event.pos !in s.clients;
      && (Interrupts(s, arm) <==> heeded)
      && (!heeded ==> Step(s, arm) == Outcome(s, []))
  {
  }

  /** The edges after the arm. */
  function ClientsAfter(s: State, arm: Arm): seq<Position> {
    if arm.ClientUpdate? then ApplyClientUpdate(s.clients, arm.event).GetOr(s.clients) else s.clients
  }

  /** The portal was asked to release an active capture, and did. */
  predicate GaveUp(s: State, arm: Arm)
    requires arm.ZonesChanged? || arm.ClientUpdate?
  {
    (s.active.Some? ==> arm.released) && arm.loss.NotLost?
  }

  /** A zone or client change that counts gives up the capture, if there was one,
      and rebuilds every barrier for the edges it leaves, under new identifiers;
      every old one is dead. On GNOME the session ends instead, and if the
      identifiers have run out or the portal refuses, the task does. */
  lemma {:induction false} ChangeRebuilds(s: State, arm: Arm)
    requires WellNumbered(s) && s.current == s.active && Interrupts(s, arm)
    requires (arm.ZonesChanged? || arm.ClientUpdate?) && GaveUp(s, arm)
    ensures var s1 := Step(s, arm).state;
      && s1.clients == ClientsAfter(s, arm) && s1.active.None? && s1.current.None? && s1.session == s.session
      && (forall id :: id in s.positions ==> id !in s1.positions)
      && (s.gnome ==> !s1.connected && !s1.stopped && s1.barriers == [] && s1.positions == map[] && s1.next == s.next)
      && (!s.gnome && arm.answer.None? ==> s1.stopped)
      && (!s.gnome && arm.answer.Some? ==>
            if EnoughIds(s.(clients := ClientsAfter(s, arm)), arm.answer.value)
            then Built(s1, arm.answer.value.layout, s.next) && s1.zoneSet == Wrap(arm.answer.value.zoneSet)
            else s1.stopped)
    ensures Step(s, arm).outs == AutoReleases(s.active)
  {
    var idle := Idle(s.(clients := ClientsAfter(s, arm)));
    if !s.gnome && arm.answer.Some? {
      ConfigureBuilds(idle, arm.answer.value);
    }
  }

  /** A refused release ends the task, with the outer layer told. */
  lemma {:induction false} RefusedChangeStops(s: State, arm: Arm)
    requires s.current == s.active && s.active.Some? && Interrupts(s, arm)
    requires (arm.ZonesChanged? || arm.ClientUpdate?) && !arm.released && arm.loss.NotLost?
    ensures Step(s, arm).state.stopped && Step(s, arm).outs == [AutoRelease(s.active.value)]
  {
  }

  /** The first configuration of a session, once an edge is wanted. */
  lemma {:induction false} ConnectBuilds(s: State, session: nat, answer: Answer)
    requires !s.connected && !s.stopped && s.clients != [] && s.active.None?
    ensures var s1 := Step(s, Connect(session, Some(answer))).state;
      && s1.clients == s.clients && s1.active.None? && s1.session == session
      && if EnoughIds(s, answer) then Built(s1, answer.layout, s.next) && s1.zoneSet == Wrap(answer.zoneSet)
         else s1.stopped
    ensures Step(s, Connect(session, Some(answer))).outs == [] && Step(s, Connect(session, None)).state.stopped
  {
    ConfigureBuilds(s.(session := session), answer);
  }

  /** A configuration torn by the end of the EIS stream has used up the identifiers
      it handed out. */
  lemma {:induction false} TornConfigurationUsesIds(s: State, arm: Arm)
    requires Running(s) && s.current == s.active && Interrupts(s, arm) && !s.gnome
    requires (arm.ZonesChanged? || arm.ClientUpdate?) && arm.loss.InConfigure?
    requires arm.answer.Some? && (s.active.Some? ==> arm.released)
    requires EnoughIds(s.(clients := ClientsAfter(s, arm)), arm.answer.value)
    ensures var s1 := Step(s, arm).state;
      && !s1.connected && !s1.stopped && s1.positions == map[] && s1.clients == ClientsAfter(s, arm)
      && s1.next == s.next + |Plan(arm.answer.value.layout, s1.clients)|
  {
  }

  // ------------------------------------------- arms that keep or end a session

  /** A requested release that completes touches nothing but the capture. */
  lemma {:induction false} ReleaseKeepsBarriers(s: State)
    requires Running(s) && s.current == s.active
    ensures Step(s, ReleaseRequest(true, NotLost)).state == s.(active := None, current := None)
  {
  }

  /** One that the portal refuses ends the task, unacknowledged. */
  lemma {:induction false} RefusedReleaseStops(s: State)
    requires Running(s) && s.active.Some?
    ensures var o := Step(s, ReleaseRequest(false, NotLost));
      o.state.stopped && o.outs == [Requested(s.active.value)]
  {
  }

  /** A capture begins in place: only its position is new. An activation of another
      session, or while a capture is active, does nothing. */
  lemma {:induction false} ActivationKeepsBarriers(
      s: State, session: nat, barrier: Option<nat>, cursor: Option<Cursor>, released: bool, loss: Loss)
    requires Running(s) && s.current == s.active
    ensures var o := Step(s, Activated(session, barrier, cursor, released, loss));
      && (session != s.session || s.active.Some? ==> o == Outcome(s, []))
      && (released && loss.NotLost? ==> o.state == s.(active := o.state.active, current := o.state.active))
      && (!released && loss.NotLost? && session == s.session && s.active.None? && o.state.active.None? ==>
            o.state.stopped)
  {
  }

  /** The end of the session or of its EIS stream leaves nothing of it; the edges and
      the next identifier outlive it. */
  lemma {:induction false} SessionsEnd(s: State, arm: Arm)
    requires Running(s) && (arm.SessionNotified? || arm.EisExited?)
    ensures Step(s, arm).state
      == s.(connected := false, barriers := [], positions := map[], active := None, current := None)
  {
  }

  /** The EIS stream ended while the arm was waiting for the portal to release, or
      for the outer layer to take what it was sent. */
  predicate Suspended(s: State, arm: Arm) {
    match arm
    case Activated(session, barrier, cursor, _, loss) =>
      s.active.None? && session == s.session
      && if Mapped(s, barrier, cursor).Some? then loss.InSend? else loss.InRelease?
    case ReleaseRequest(_, loss) => s.active.Some? && loss.InRelease?
    case Cancelled(loss) => s.active.Some? && loss.InRelease?
    case SessionNotified(loss) => s.active.Some? && loss in {InRelease, InSend}
    case ZonesChanged(_, _, _, loss, _) => Interrupts(s, arm) && s.active.Some? && loss in {InRelease, InSend}
    case ClientUpdate(_, _, loss, _) => Interrupts(s, arm) && s.active.Some? && loss in {InRelease, InSend}
    case _ => false
  }

  /** Then the arm is dropped where it stands and the session ends, the task not;
      only the edges it had already changed stay changed. */
  lemma {:induction false} SuspendedArmsEndTheSession(s: State, arm: Arm)
    requires Running(s) && s.current == s.active && Suspended(s, arm)
    ensures var o := Step(s, arm);
      && o.state == s.(clients := ClientsAfter(s, arm), connected := false, barriers := [], positions := map[],
                       active := None, current := None)
      && Acked !in o.outs
      && (forall out :: out in o.outs ==> !out.Begin?)
  {
  }

  /** Cancellation and a closed channel end the task, connected or not. */
  lemma {:induction false} TasksEnd(s: State, arm: Arm)
    requires !s.stopped && (s.connected || s.clients == [])
    requires arm.ChannelClosed? || (arm.Cancelled? && arm.loss.NotLost?)
    ensures Step(s, arm).state.stopped && Step(s, arm).outs == []
    ensures forall later :: Step(Step(s, arm).state, later) == Outcome(Step(s, arm).state, [])
  {
  }

  /** Unconnected, the task takes client updates and acknowledges releases, and
      connects only for an edge. */
  lemma {:induction false} WaitingTask(s: State, arm: Arm)
    requires !s.connected && !s.stopped && s.clients == []
    ensures arm.ClientUpdate? ==>
      Step(s, arm) == Outcome(s.(clients := if arm.event.Create? then [arm.event.pos] else []), [])
    ensures arm.ReleaseRequest? ==> Step(s, arm) == Outcome(s, [Acked])
    ensures arm.Connect? ==> Step(s, arm) == Outcome(s, [])
  {
    if arm.ClientUpdate? && arm.event.Create? {
      assert [] + [arm.event.pos] == [arm.event.pos];
    }
  }
}
