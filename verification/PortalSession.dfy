/** One portal capture task (input-capture/src/libei.rs): the select arms of the
    session loop as steps, with the moments at which the EIS stream can disappear
    while an arm is suspended, and the runs they make up. */
module PortalSession {
  import opened Wrappers
  import opened Positions
  import opened PortalBarriers
  import opened Sequences
  import opened SerialNumbers

  datatype ClientEvent = Create(pos: Position) | Destroy(pos: Position)

  /** What the outer capture layer gets to see. `Requested` is its own release
      request reaching an active capture, `Acked` the completion of a request. */
  datatype Out =
    | Begin(pos: Position)
    | AutoRelease(pos: Position)
    | Requested(pos: Position)
    | Acked

  /** Where an arm was suspended when the EIS stream ended, if it was. */
  datatype Loss = NotLost | InRelease | InSend | InConfigure

  /** A completed configuration, as the portal answered. */
  datatype Answer = Answer(layout: Layout, zoneSet: nat)

  datatype Arm =
    | Activated(session: nat, barrier: Option<nat>, cursor: Option<Cursor>, released: bool, loss: Loss)
    | ReleaseRequest(released: bool, loss: Loss)
    | SessionNotified(loss: Loss)
    | Cancelled(loss: Loss)
    | ZonesChanged(session: nat, zoneSet: Option<nat>, released: bool, loss: Loss, answer: Option<Answer>)
    | ClientUpdate(event: ClientEvent, released: bool, loss: Loss, answer: Option<Answer>)
    | Connect(session: nat, answer: Option<Answer>)
    | EisExited
    | ChannelClosed

  datatype State = State(
    gnome: bool,
    clients: seq<Position>,
    next: nat,
    connected: bool,
    session: nat,
    zoneSet: nat,
    barriers: seq<Barrier>,
    positions: map<nat, Position>,
    active: Option<Position>,
    current: Option<Position>,
    stopped: bool)

  datatype Outcome = Outcome(state: State, outs: seq<Out>)

  function Initial(gnome: bool): State {
    State(gnome, [], 1, false, 0, 0, [], map[], None, None, false)
  }

  // ------------------------------------------------------------ client edges

  function ApplyClientUpdate(clients: seq<Position>, event: ClientEvent): Option<seq<Position>> {
    match event
    case Create(pos) => if pos in clients then None else Some(clients + [pos])
    case Destroy(pos) => if pos in clients then Some(Without(clients, pos)) else None
  }

  /** An update changes the configured edges by exactly its own edge, keeps them
      free of repeats, and is refused exactly when it would change nothing. */
  lemma {:induction false} ClientUpdateIsSetUpdate(clients: seq<Position>, event: ClientEvent)
    requires NoRepeats(clients)
    ensures ApplyClientUpdate(clients, event).None? <==> (event.Create? <==> event.pos in clients)
    ensures ApplyClientUpdate(clients, event).Some? ==>
      var after := ApplyClientUpdate(clients, event).value;
      && NoRepeats(after)
      && (event.pos in after <==> event.Create?)
      && (forall other :: other != event.pos ==> (other in after <==> other in clients))
  {
    WithoutKeepsOthers(clients, event.pos);
  }

  // -------------------------------------------------------------- the arms

  function Idle(s: State): State {
    s.(active := None, current := None)
  }

  /** The session ends, and with it everything that belonged to it. */
  function Closed(s: State): State {
    s.(connected := false, barriers := [], positions := map[], active := None, current := None)
  }

  function Failed(s: State): State {
    Closed(s).(stopped := true)
  }

  function AutoReleases(pos: Option<Position>): seq<Out> {
    if pos.Some? then [AutoRelease(pos.value)] else []
  }

  /** The EIS stream ended: the position it was delivering for is given up. */
  function EisGone(s: State): Outcome {
    Outcome(Closed(s), AutoReleases(s.current))
  }

  /** Barriers for the current edges; a refused call or exhausted identifiers
      end the capture task. */
  function Configure(s: State, answer: Option<Answer>): State {
    if answer.None? then Failed(s)
    else
      match Selected(answer.value.layout, s.clients, s.next)
      case None => Failed(s)
      case Some(selection) =>
        s.(connected := true, barriers := selection.barriers, positions := selection.positions,
           next := selection.next, zoneSet := Wrap(answer.value.zoneSet))
  }

  /** The EIS stream ended while the barriers were being rebuilt: identifiers
      already handed out stay used. */
  function Torn(s: State, answer: Option<Answer>): State {
    if answer.None? then Closed(s)
    else
      var configured := Configure(s, answer);
      if configured.stopped then configured else Closed(configured)
  }

  /** A zone or client change gives up an active capture, tells the outer layer,
      and rebuilds the barriers. */
  function Reconfigure(s: State, released: bool, loss: Loss, answer: Option<Answer>): Outcome {
    var outs := AutoReleases(s.active);
    if s.active.Some? && loss in {InRelease, InSend} then EisGone(Idle(s))
    else if s.active.Some? && !released then Outcome(Failed(s), outs)
    else if s.gnome then Outcome(Closed(s), outs)
    else if loss.InConfigure? then Outcome(Torn(Idle(s), answer), outs)
    else Outcome(Configure(Idle(s), answer), outs)
  }

  /** The position an activation stands for, if any. */
  function Mapped(s: State, barrier: Option<nat>, cursor: Option<Cursor>): Option<Position> {
    var id :=
      if barrier.Some? then barrier
      else if cursor.Some? then Corresponding(s.barriers, cursor.value)
      else None;
    if id.Some? && id.value in s.positions then Some(s.positions[id.value]) else None
  }

  function Activate(s: State, pos: Option<Position>, released: bool, loss: Loss): Outcome {
    match pos
    case None =>
      if loss.InRelease? then EisGone(s)
      else Outcome(if released then s else Failed(s), [])
    case Some(p) =>
      var s1 := s.(current := Some(p));
      if loss.InSend? then EisGone(s1) else Outcome(s1.(active := Some(p)), [Begin(p)])
  }

  function Release(s: State, released: bool, loss: Loss): Outcome {
    if s.active.None? then Outcome(s, [Acked])
    else
      var asked := [Requested(s.active.value)];
      if loss.InRelease? then Outcome(EisGone(Idle(s)).state, asked)
      else if !released then Outcome(Failed(s), asked)
      else Outcome(Idle(s), asked + [Acked])
  }

  function ShouldReconfigureZones(s: State, session: nat, zoneSet: Option<nat>): bool {
    session == s.session && (zoneSet.Some? ==> CurrentOrNewer(Wrap(s.zoneSet), Wrap(zoneSet.value)))
  }

  /** The session's own select loop. */
  function SessionStep(s: State, arm: Arm): Outcome {
    match arm
    case Activated(session, barrier, cursor, released, loss) =>
      if s.active.Some? || session != s.session then Outcome(s, [])
      else Activate(s, Mapped(s, barrier, cursor), released, loss)
    case ReleaseRequest(released, loss) => Release(s, released, loss)
    case SessionNotified(loss) =>
      if s.active.Some? && loss in {InRelease, InSend} then EisGone(Idle(s))
      else Outcome(Closed(s), AutoReleases(s.active))
    case Cancelled(loss) =>
      if s.active.Some? && loss.InRelease? then EisGone(Idle(s))
      else Outcome(Failed(s), [])
    case ZonesChanged(session, zoneSet, released, loss, answer) =>
      if ShouldReconfigureZones(s, session, zoneSet) then Reconfigure(s, released, loss, answer) else Outcome(s, [])
    case ClientUpdate(event, released, loss, answer) =>
      var after := ApplyClientUpdate(s.clients, event);
      if after.None? then Outcome(s, []) else Reconfigure(s.(clients := after.value), released, loss, answer)
    case Connect(_, _) => Outcome(s, [])
    case EisExited => EisGone(s)
    case ChannelClosed => Outcome(Failed(s), [])
  }

  /** Between sessions: idle until an edge is configured, then connect. */
  function WaitingStep(s: State, arm: Arm): Outcome {
    match arm
    case Connect(session, answer) =>
      if s.clients == [] then Outcome(s, []) else Outcome(Configure(s.(session := session), answer), [])
    case _ =>
      if s.clients != [] then Outcome(s, [])
      else
        match arm
        case ReleaseRequest(_, _) => Outcome(s, [Acked])
        case ClientUpdate(event, _, _, _) =>
          Outcome(s.(clients := ApplyClientUpdate(s.clients, event).GetOr(s.clients)), [])
        case Cancelled(_) => Outcome(Failed(s), [])
        case ChannelClosed => Outcome(Failed(s), [])
        case _ => Outcome(s, [])
  }

  function Step(s: State, arm: Arm): Outcome {
    if s.stopped then Outcome(s, [])
    else if s.connected then SessionStep(s, arm)
    else WaitingStep(s, arm)
  }
}
