/** `InputCapture` (input-capture/src/lib.rs): the peer model, the wall-press
    fallback and the handles its fields hold together. The layout-aware cursor
    model is an oracle: it may place the cursor anywhere, or not at all. */
module InputCapture {
  import opened Wrappers
  import opened Positions
  import opened PeerTopology
  import opened Sequences
  import opened WallPress

  type Handle = nat

  datatype Vector = Vector(x: real, y: real) {
    function Plus(v: Vector): Vector {
      Vector(x + v.x, y + v.y)
    }

    function Times(k: real): Vector {
      Vector(x * k, y * k)
    }

    function Within(size: Size): Vector {
      Vector(Clamp(x, Some(size.w as real)), Clamp(y, Some(size.h as real)))
    }
  }

  const ORIGIN := Vector(0.0, 0.0)

  /** Where the layout-aware model puts the cursor. */
  datatype Placed = Placed(cursor: Vector, motion: TopologyMotion)

  datatype Event = BeginEvent(withCursor: bool) | MotionEvent(d: Vector) | AutoReleaseEvent | OtherEvent(id: nat)

  datatype Delivery = Delivery(handle: Handle, event: Event)

  datatype Incoming = Nothing | EndOfStream | Failure | Arrived(pos: Position, event: Event)

  datatype Polled = Ready(delivery: Delivery) | Pending | Closed | Errored

  // ------------------------------------------------------- rectangular mode

  /** How far a cursor in the peer's rectangle is from the edge it entered by;
      negative past that edge. */
  function EntryDistance(pos: Position, cursor: Vector, size: Size): real {
    match pos
    case Left => size.w as real - cursor.x
    case Right => cursor.x
    case Top => size.h as real - cursor.y
    case Bottom => cursor.y
  }

  function ExtentOf(pos: Position, size: Size): real {
    if pos.Left? || pos.Right? then size.w as real else size.h as real
  }

  /** Motion keeps the one-dimensional position equal to the modelled cursor's
      distance from the entry edge, once equal; and the pressure grows by exactly
      what the unclamped cursor is past that edge, else it is gone. */
  lemma {:induction false} MotionStaysAligned(w: Wall, pos: Position, cursor: Vector, m: Vector, size: Size)
    requires w.virtualPos == EntryDistance(pos, cursor, size)
    ensures var u := Move(w, EntryAxisDelta(pos, m.x, m.y), Some(ExtentOf(pos, size)), None);
      var proposed := Vector(cursor.x + m.x, cursor.y + m.y);
      var past := -EntryDistance(pos, proposed, size);
      && u.virtualPos == EntryDistance(pos, proposed.Within(size), size)
      && (w.threshold > 0 ==>
            && u.pressure == (if past > 0.0 then w.pressure + past else 0.0)
            && (u.armed <==> past > 0.0 && (w.armed || u.pressure >= w.threshold as real)))
  {
  }

  /** The modelled cursor after a series of motions. */
  function CursorAfter(cursor: Vector, ms: seq<Vector>, size: Size): Vector {
    if ms == [] then cursor else CursorAfter(cursor, ms[..|ms| - 1], size).Plus(ms[|ms| - 1]).Within(size)
  }

  function EntryMotions(pos: Position, ms: seq<Vector>, size: Size): seq<Motion> {
    if ms == [] then []
    else
      var last := ms[|ms| - 1];
      EntryMotions(pos, ms[..|ms| - 1], size)
      + [Motion(EntryAxisDelta(pos, last.x, last.y), Some(ExtentOf(pos, size)))]
  }

  /** So over any series of motions. */
  lemma {:induction false} MotionsStayAligned(w: Wall, pos: Position, cursor: Vector, ms: seq<Vector>, size: Size)
    requires w.virtualPos == EntryDistance(pos, cursor, size)
    ensures var cursor1 := CursorAfter(cursor, ms, size);
      MoveAll(w, EntryMotions(pos, ms, size)).virtualPos == EntryDistance(pos, cursor1, size)
  {
    if ms != [] {
      var front, last := ms[..|ms| - 1], ms[|ms| - 1];
      MotionsStayAligned(w, pos, cursor, front, size);
      var motions := EntryMotions(pos, ms, size);
      assert motions[..|motions| - 1] == EntryMotions(pos, front, size);
      MotionStaysAligned(MoveAll(w, EntryMotions(pos, front, size)), pos, CursorAfter(cursor, front, size), last, size);
    }
  }

  function Entry(placed: Option<Placed>): Option<real> {
    if placed.Some? then Some(placed.value.motion.entryDistance) else None
  }

  /** One delivery for each handle of an edge, in order. */
  function Fan(handles: seq<Handle>, event: Event): seq<Delivery> {
    seq(|handles|, i requires 0 <= i < |handles| => Delivery(handles[i], event))
  }

  class InputCapture {
    var idMap: map<Handle, Position>
    var positionMap: map<Position, seq<Handle>>
    var pending: seq<Delivery>
    var backendReleased: bool

    var peerBounds: map<Position, Size>
    var peerLayouts: map<Position, Layout>
    var peerVersions: map<Position, Version>
    var confirmed: set<Position>
    var peerSensitivity: map<Position, real>

    var threshold: nat
    var capturePos: Option<Position>
    var virtualPos: real
    var wallPressure: real
    var wallPressPending: bool

    var virtualCursor: Option<Vector>
    var beginHadCursor: bool
    var pendingMotion: Vector
    var motionSinceBegin: Vector

    ghost function TopologyOf(pos: Position): Topology
      reads this`peerBounds, this`peerLayouts, this`peerVersions, this`confirmed
    {
      Topology(
        if pos in peerLayouts then Some(peerLayouts[pos]) else None,
        if pos in peerVersions then Some(peerVersions[pos]) else None,
        pos in confirmed,
        if pos in peerBounds then Some(peerBounds[pos]) else None)
    }

    ghost function WallNow(): Wall
      reads this`threshold, this`capturePos, this`virtualPos, this`wallPressure, this`wallPressPending
    {
      Wall(threshold, capturePos, virtualPos, wallPressure, wallPressPending)
    }

    /** Motion that came before there was a cursor to move is kept for it. */
    ghost predicate NothingLost()
      reads this`virtualCursor, this`pendingMotion, this`motionSinceBegin
    {
      virtualCursor.None? ==> pendingMotion == motionSinceBegin
    }

    ghost predicate ValidTopology()
      reads this`peerBounds, this`peerLayouts, this`peerVersions, this`confirmed
    {
      forall pos :: Consistent(TopologyOf(pos))
    }

    ghost predicate ValidWall()
      reads this`threshold, this`capturePos, this`wallPressPending
    {
      wallPressPending ==> threshold > 0 && capturePos.Some?
    }

    ghost predicate Valid()
      reads this
    {
      ValidTopology() && ValidWall() && NothingLost()
    }

    /** Handles of an edge, in the order they were created. */
    function HandlesAt(pos: Position): seq<Handle>
      reads this`positionMap
    {
      if pos in positionMap then positionMap[pos] else []
    }

    /** The edge lists each of its handles once, and is known only if it has one. */
    ghost predicate Lists(pos: Position)
      reads this`idMap, this`positionMap
    {
      && (pos in positionMap ==> positionMap[pos] != [])
      && NoRepeats(HandlesAt(pos))
      && (forall id :: id in HandlesAt(pos) <==> id in idMap && idMap[id] == pos)
    }

    ghost predicate ValidHandles()
      reads this`idMap, this`positionMap
    {
      forall pos :: Lists(pos)
    }

    constructor ()
      ensures Valid() && ValidHandles() && WallNow() == AT_REST && pending == []
      ensures forall pos :: TopologyOf(pos) == UNKNOWN
    {
      idMap, positionMap, pending, backendReleased := map[], map[], [], true;
      peerBounds, peerLayouts, peerVersions, confirmed, peerSensitivity := map[], map[], map[], {}, map[];
      threshold, capturePos, virtualPos, wallPressure, wallPressPending := 0, None, 0.0, 0.0, false;
      virtualCursor, beginHadCursor, pendingMotion, motionSinceBegin := None, false, ORIGIN, ORIGIN;
    }

    // ---------------------------------------------------------- peer geometry

    method PeerLayout(pos: Position) returns (layout: Option<Layout>)
      ensures layout == Visible(TopologyOf(pos))
    {
      if pos !in confirmed || pos !in peerBounds || pos !in peerLayouts {
        return None;
      }
      layout := if peerLayouts[pos].size == Some(peerBounds[pos]) then Some(peerLayouts[pos]) else None;
    }

    twostate lemma OthersConsistent(pos: Position)
      requires old(ValidTopology()) && Consistent(TopologyOf(pos))
      requires forall p :: p != pos ==> TopologyOf(p) == old(TopologyOf(p))
      ensures ValidTopology()
    {
      forall p ensures Consistent(TopologyOf(p)) {
        if p != pos {
          assert TopologyOf(p) == old(TopologyOf(p));
        }
      }
    }

    method ClearPeerBounds(pos: Position)
      requires ValidTopology()
      modifies this`peerBounds, this`peerLayouts, this`peerVersions, this`confirmed
      ensures ValidTopology()
      ensures TopologyOf(pos) == UNKNOWN
      ensures forall other :: other != pos ==> TopologyOf(other) == old(TopologyOf(other))
    {
      peerBounds, peerLayouts, peerVersions := peerBounds - {pos}, peerLayouts - {pos}, peerVersions - {pos};
      confirmed := confirmed - {pos};
      assert TopologyOf(pos) == UNKNOWN;
      OthersConsistent(pos);
    }

    method StoreBounds(pos: Position, size: Size) returns (stored: bool)
      requires ValidTopology()
      modifies this`peerBounds
      ensures ValidTopology()
      ensures TopologyOf(pos) == OnBounds(old(TopologyOf(pos)), size)
      ensures forall other :: other != pos ==> TopologyOf(other) == old(TopologyOf(other))
      ensures var layout := Visible(old(TopologyOf(pos)));
        stored <==> layout.None? || layout.value.size == Some(size)
    {
      var layout := PeerLayout(pos);
      stored := layout.None? || layout.value.size == Some(size);
      if stored {
        peerBounds := peerBounds[pos := size];
        OthersConsistent(pos);
      }
    }

    method StoreLayout(pos: Position, version: Version, layout: Layout) returns (accepted: bool)
      requires ValidTopology()
      modifies this`peerBounds, this`peerLayouts, this`peerVersions, this`confirmed
      ensures ValidTopology()
      ensures accepted == Accepts(old(TopologyOf(pos)), version, layout)
      ensures TopologyOf(pos) == OnLayout(old(TopologyOf(pos)), version, layout)
      ensures forall other :: other != pos ==> TopologyOf(other) == old(TopologyOf(other))
    {
      ghost var before := TopologyOf(pos);
      assert Consistent(before);
      accepted := layout.size.Some?;
      if accepted && pos in peerVersions {
        var current := peerVersions[pos];
        if version == current {
          accepted := pos in peerLayouts && peerLayouts[pos] == layout;
        } else {
          accepted := IsNewer(current, version);
        }
      }
      assert accepted == Accepts(before, version, layout);
      if accepted {
        peerVersions := peerVersions[pos := version];
        peerLayouts := peerLayouts[pos := layout];
        peerBounds := peerBounds[pos := layout.size.value];
        confirmed := confirmed + {pos};
        assert TopologyOf(pos) == OnLayout(before, version, layout);
        OthersConsistent(pos);
      }
    }

    /** A new connection: geometry is forgotten, but not what version of it was
        last seen. */
    method ForgetConnection(pos: Position)
      requires ValidTopology()
      modifies this`peerBounds, this`confirmed, this`peerSensitivity
      ensures ValidTopology()
      ensures TopologyOf(pos) == OnBegin(old(TopologyOf(pos)))
      ensures forall other :: other != pos ==> TopologyOf(other) == old(TopologyOf(other))
      ensures peerSensitivity == old(peerSensitivity) - {pos}
    {
      assert Consistent(TopologyOf(pos));
      confirmed, peerBounds, peerSensitivity := confirmed - {pos}, peerBounds - {pos}, peerSensitivity - {pos};
      assert TopologyOf(pos) == OnBegin(old(TopologyOf(pos)));
      OthersConsistent(pos);
    }

    /** Puts the cursor where the layout-aware model says, else at `fallback`. */
    method PlaceCursor(placed: Option<Placed>, fallback: Vector)
      modifies this`virtualCursor, this`virtualPos, this`pendingMotion
      ensures virtualCursor == Some(if placed.Some? then placed.value.cursor else fallback)
      ensures WallNow() == Seat(old(WallNow()), Entry(placed)) && pendingMotion == ORIGIN
      ensures virtualPos == if placed.Some? then placed.value.motion.entryDistance else old(virtualPos)
    {
      if placed.Some? {
        virtualCursor, virtualPos := Some(placed.value.cursor), placed.value.motion.entryDistance;
      } else {
        virtualCursor := Some(fallback);
      }
      pendingMotion := ORIGIN;
    }

    /** A legacy size: never at the expense of a layout in force. A cursor the
        size makes possible starts from its seed plus all motion kept for it. */
    method SetPeerBounds(pos: Position, size: Size, seed: Option<Vector>, placed: Option<Placed>)
      requires Valid()
      modifies this`peerBounds, this`virtualCursor, this`virtualPos, this`pendingMotion
      ensures Valid()
      ensures TopologyOf(pos) == OnBounds(old(TopologyOf(pos)), size)
      ensures forall other :: other != pos ==> TopologyOf(other) == old(TopologyOf(other))
      ensures Visible(TopologyOf(pos)).None? ==> WallNow() == old(WallNow())
      ensures WallNow() == old(WallNow()) || WallNow() == Seat(old(WallNow()), Entry(placed))
      ensures old(virtualCursor).Some? ==> virtualCursor == old(virtualCursor) && pendingMotion == old(pendingMotion)
      ensures old(virtualCursor).None? && virtualCursor.Some? && Visible(TopologyOf(pos)).None? ==>
        seed.Some? && virtualCursor.value == seed.value.Plus(motionSinceBegin).Within(size)
    {
      var stored := StoreBounds(pos, size);
      if !stored || virtualCursor.Some? || capturePos != Some(pos) || !beginHadCursor || seed.None? {
        return;
      }
      var layout := PeerLayout(pos);
      PlaceCursor(if layout.Some? then placed else None, seed.value.Plus(pendingMotion).Within(size));
    }

    /** The captured peer's layout was accepted: a change or a return into force
        disarms, and a cursor is seeded where there was none to move. */
    method FollowLayout(changed: bool, known: bool, reactivated: bool, seed: Option<Vector>, placed: Option<Placed>)
      requires ValidWall() && NothingLost() && capturePos.Some?
      modifies this`wallPressure, this`wallPressPending, this`virtualCursor, this`virtualPos, this`pendingMotion
      ensures ValidWall() && NothingLost()
      ensures var w := if changed || reactivated then Relayout(old(WallNow())) else old(WallNow());
        WallNow() == w || WallNow() == Seat(w, Entry(placed))
      ensures (reactivated || !known || old(virtualCursor).None?) && seed.Some? ==>
        virtualCursor == Some(if placed.Some? then placed.value.cursor else seed.value)
        && virtualPos == if placed.Some? then placed.value.motion.entryDistance else old(virtualPos)
    {
      if changed || reactivated {
        wallPressure, wallPressPending := 0.0, false;
      }
      if reactivated || !known || virtualCursor.None? {
        if seed.Some? {
          PlaceCursor(placed, seed.value);
        }
      } else if changed && placed.Some? {
        virtualCursor, virtualPos := Some(placed.value.cursor), placed.value.motion.entryDistance;
      }
    }

    /** A versioned snapshot. One that changes the captured peer's layout, or
        brings it back into force, disarms a release armed on the old one. */
    method SetPeerLayout(pos: Position, version: Version, layout: Layout, seed: Option<Vector>, placed: Option<Placed>)
      requires Valid()
      modifies this`peerBounds, this`peerLayouts, this`peerVersions, this`confirmed
      modifies this`wallPressure, this`wallPressPending, this`virtualCursor, this`virtualPos, this`pendingMotion
      ensures Valid()
      ensures TopologyOf(pos) == OnLayout(old(TopologyOf(pos)), version, layout)
      ensures forall other :: other != pos ==> TopologyOf(other) == old(TopologyOf(other))
      ensures !Accepts(old(TopologyOf(pos)), version, layout) || capturePos != Some(pos) ==>
        WallNow() == old(WallNow()) && virtualCursor == old(virtualCursor)
      ensures Accepts(old(TopologyOf(pos)), version, layout) && capturePos == Some(pos) ==>
        var afresh := !old(TopologyOf(pos)).confirmed || old(TopologyOf(pos)).layout != Some(layout);
        var w := if afresh then Relayout(old(WallNow())) else old(WallNow());
        WallNow() == w || WallNow() == Seat(w, Entry(placed))
      ensures var seeds := !old(TopologyOf(pos)).confirmed || old(virtualCursor).None?;
        Accepts(old(TopologyOf(pos)), version, layout) && capturePos == Some(pos) && seeds && seed.Some? ==>
        virtualCursor == Some(if placed.Some? then placed.value.cursor else seed.value)
        && virtualPos == if placed.Some? then placed.value.motion.entryDistance else old(virtualPos)
    {
      var known := pos in peerLayouts;
      var changed := pos !in peerLayouts || peerLayouts[pos] != layout;
      var reactivated := pos !in confirmed;
      var accepted := StoreLayout(pos, version, layout);
      if accepted && capturePos == Some(pos) {
        FollowLayout(changed, known, reactivated, seed, placed);
      }
    }

    method SetPeerSensitivity(pos: Position, sensitivity: Option<real>)
      modifies this`peerSensitivity
      ensures peerSensitivity == if sensitivity.Some? && sensitivity.value > 0.0
        then old(peerSensitivity)[pos := sensitivity.value] else old(peerSensitivity)
    {
      if sensitivity.None? || sensitivity.value <= 0.0 {
        return;
      }
      peerSensitivity := peerSensitivity[pos := sensitivity.value];
    }

    // -------------------------------------------------------------- wall press

    method SetReleaseThreshold(value: nat)
      requires Valid()
      modifies this`threshold, this`wallPressure, this`wallPressPending
      ensures Valid() && WallNow() == SetThreshold(old(WallNow()), value)
      ensures threshold == value
      ensures value != old(threshold) || value == 0 ==> wallPressure == 0.0 && !wallPressPending
      ensures value == old(threshold) != 0 ==>
        wallPressure == old(wallPressure) && wallPressPending == old(wallPressPending)
    {
      if threshold != value {
        wallPressPending, wallPressure := false, 0.0;
      }
      threshold := value;
      if value == 0 {
        wallPressPending, wallPressure := false, 0.0;
      }
    }

    method ClearCursor(withCursor: bool)
      modifies this`virtualCursor, this`beginHadCursor, this`pendingMotion, this`motionSinceBegin
      ensures NothingLost() && virtualCursor.None? && motionSinceBegin == ORIGIN && beginHadCursor == withCursor
    {
      virtualCursor, beginHadCursor, pendingMotion, motionSinceBegin := None, withCursor, ORIGIN, ORIGIN;
    }

    method ResetWallPressState()
      requires Valid()
      modifies this`capturePos, this`virtualPos, this`wallPressure, this`wallPressPending
      modifies this`virtualCursor, this`beginHadCursor, this`pendingMotion, this`motionSinceBegin
      ensures Valid() && WallNow() == Reset(old(WallNow())) && virtualCursor == None
      ensures capturePos.None? && virtualPos == wallPressure == 0.0 && !wallPressPending && !beginHadCursor
      ensures pendingMotion == motionSinceBegin == ORIGIN
    {
      capturePos, virtualPos, wallPressure, wallPressPending := None, 0.0, 0.0, false;
      ClearCursor(false);
    }

    method TrackBegin(pos: Position, withCursor: bool)
      requires Valid()
      modifies this`peerBounds, this`confirmed, this`peerSensitivity
      modifies this`capturePos, this`virtualPos, this`wallPressure
      modifies this`virtualCursor, this`beginHadCursor, this`pendingMotion, this`motionSinceBegin
      ensures Valid() && WallNow() == Begin(old(WallNow()), pos)
      ensures capturePos == Some(pos) && virtualPos == wallPressure == 0.0
      ensures TopologyOf(pos) == OnBegin(old(TopologyOf(pos)))
      ensures forall other :: other != pos ==> TopologyOf(other) == old(TopologyOf(other))
      ensures peerSensitivity == old(peerSensitivity) - {pos}
      ensures virtualCursor.None? && motionSinceBegin == ORIGIN && beginHadCursor == withCursor
    {
      ForgetConnection(pos);
      capturePos, virtualPos, wallPressure := Some(pos), 0.0, 0.0;
      ClearCursor(withCursor);
    }

    /** Moves the modeled cursor, or keeps the motion for when there is one. */
    method MoveCursor(pos: Position, m: Vector, model: Option<Placed>)
      requires NothingLost() && (model.Some? ==> virtualCursor.Some?)
      modifies this`virtualCursor, this`pendingMotion, this`motionSinceBegin
      ensures NothingLost() && motionSinceBegin == old(motionSinceBegin).Plus(m)
      ensures old(virtualCursor).None? <==> virtualCursor.None?
      ensures model.Some? ==> virtualCursor == Some(model.value.cursor)
      ensures model.None? && virtualCursor.Some? ==> virtualCursor == if pos in peerBounds
        then Some(old(virtualCursor).value.Plus(m).Within(peerBounds[pos])) else old(virtualCursor)
      ensures virtualCursor.Some? ==> pendingMotion == old(pendingMotion)
    {
      motionSinceBegin := motionSinceBegin.Plus(m);
      if model.Some? {
        virtualCursor := Some(model.value.cursor);
      } else if virtualCursor.None? {
        pendingMotion := pendingMotion.Plus(m);
      } else if pos in peerBounds {
        virtualCursor := Some(virtualCursor.value.Plus(m).Within(peerBounds[pos]));
      }
    }

    function Extent(pos: Position): Option<real>
      reads this`peerBounds
    {
      if pos !in peerBounds then None else Some(ExtentOf(pos, peerBounds[pos]))
    }

    /** Pressure from one motion's overshoot of the entry edge. */
    method AccumulatePressure(overshoot: real)
      requires ValidWall() && capturePos.Some?
      modifies this`wallPressure, this`wallPressPending
      ensures ValidWall() && WallNow() == Press(old(WallNow()), overshoot)
    {
      if threshold == 0 {
        return;
      }
      if overshoot > 0.0 {
        wallPressure := wallPressure + overshoot;
      } else {
        wallPressure, wallPressPending := 0.0, false;
      }
      if wallPressure >= threshold as real && !wallPressPending {
        wallPressPending := true;
      }
    }

    method MoveAlongEntryAxis(pos: Position, m: Vector, model: Option<Placed>)
      requires ValidWall() && capturePos.Some?
      modifies this`virtualPos, this`wallPressure, this`wallPressPending
      ensures ValidWall()
      ensures WallNow() == Move(old(WallNow()), EntryAxisDelta(pos, m.x, m.y), Extent(pos),
        if model.Some? then Some(model.value.motion) else None)
    {
      var overshoot: real;
      if model.Some? {
        virtualPos, overshoot := model.value.motion.entryDistance, model.value.motion.overshoot;
      } else {
        var proposed := virtualPos + EntryAxisDelta(pos, m.x, m.y);
        virtualPos := Clamp(proposed, Extent(pos));
        overshoot := if proposed < 0.0 then -proposed else 0.0;
      }
      AccumulatePressure(overshoot);
    }

    /** In rectangular mode the position stays the cursor's distance from the entry
        edge, once it is, and what the unclamped cursor is past that edge presses. */
    ghost predicate Aligned(pos: Position)
      reads this`virtualPos, this`virtualCursor, this`peerBounds
    {
      virtualCursor.Some? && pos in peerBounds
      && virtualPos == EntryDistance(pos, virtualCursor.value, peerBounds[pos])
    }

    method TrackScaled(pos: Position, m: Vector, model: Option<Placed>)
      requires ValidWall() && NothingLost() && capturePos.Some? && (model.Some? ==> virtualCursor.Some?)
      modifies this`virtualPos, this`wallPressure, this`wallPressPending
      modifies this`virtualCursor, this`pendingMotion, this`motionSinceBegin
      ensures ValidWall() && NothingLost() && motionSinceBegin == old(motionSinceBegin).Plus(m)
      ensures WallNow() == Move(old(WallNow()), EntryAxisDelta(pos, m.x, m.y), Extent(pos),
        if model.Some? then Some(model.value.motion) else None)
      ensures model.Some? ==>
        virtualCursor == Some(model.value.cursor) && virtualPos == model.value.motion.entryDistance
      ensures model.None? && old(Aligned(pos)) ==>
        var proposed := Vector(old(virtualCursor).value.x + m.x, old(virtualCursor).value.y + m.y);
        var past := -EntryDistance(pos, proposed, peerBounds[pos]);
        && Aligned(pos) && virtualCursor.value == proposed.Within(peerBounds[pos])
        && (threshold > 0 ==> wallPressure == if past > 0.0 then old(wallPressure) + past else 0.0)
    {
      if model.None? && Aligned(pos) {
        MotionStaysAligned(WallNow(), pos, virtualCursor.value, m, peerBounds[pos]);
      }
      MoveCursor(pos, m, model);
      MoveAlongEntryAxis(pos, m, model);
    }

    function Sensitivity(pos: Position): real
      reads this`peerSensitivity
    {
      if pos in peerSensitivity then peerSensitivity[pos] else 1.0
    }

    /** One pointer motion of the captured edge, already scaled. */
    method TrackActive(pos: Position, m: Vector, placed: Option<Placed>)
      requires Valid() && capturePos == Some(pos)
      modifies this`virtualPos, this`wallPressure, this`wallPressPending
      modifies this`virtualCursor, this`pendingMotion, this`motionSinceBegin
      ensures Valid()
      ensures motionSinceBegin == Vector(old(motionSinceBegin).x + m.x, old(motionSinceBegin).y + m.y)
      ensures var models := old(virtualCursor).Some? && Visible(TopologyOf(pos)).Some? && placed.Some?;
        && WallNow() == Move(old(WallNow()), EntryAxisDelta(pos, m.x, m.y), Extent(pos),
             if models then Some(placed.value.motion) else None)
        && (models ==>
              virtualCursor == Some(placed.value.cursor) && virtualPos == placed.value.motion.entryDistance)
      ensures old(Aligned(pos)) && (placed.None? || Visible(TopologyOf(pos)).None?) ==>
        var proposed := Vector(old(virtualCursor).value.x + m.x, old(virtualCursor).value.y + m.y);
        var past := -EntryDistance(pos, proposed, peerBounds[pos]);
        && Aligned(pos) && virtualCursor.value == proposed.Within(peerBounds[pos])
        && (threshold > 0 ==> wallPressure == if past > 0.0 then old(wallPressure) + past else 0.0)
    {
      var layout := PeerLayout(pos);
      TrackScaled(pos, m, if virtualCursor.Some? && layout.Some? then placed else None);
    }

    /** One pointer motion, scaled as the receiver will scale it; motion of any
        edge but the captured one is not tracked. */
    method TrackMotion(pos: Position, d: Vector, placed: Option<Placed>) returns (ghost m: Vector)
      requires Valid()
      modifies this`virtualPos, this`wallPressure, this`wallPressPending
      modifies this`virtualCursor, this`pendingMotion, this`motionSinceBegin
      ensures Valid()
      ensures capturePos != Some(pos) ==>
        WallNow() == old(WallNow()) && virtualCursor == old(virtualCursor) && motionSinceBegin == old(motionSinceBegin)
      ensures m == Vector(d.x * Sensitivity(pos), d.y * Sensitivity(pos))
      ensures capturePos == Some(pos) ==>
        var models := old(virtualCursor).Some? && Visible(TopologyOf(pos)).Some? && placed.Some?;
        && motionSinceBegin == Vector(old(motionSinceBegin).x + m.x, old(motionSinceBegin).y + m.y)
        && WallNow() == Move(old(WallNow()), EntryAxisDelta(pos, m.x, m.y), Extent(pos),
             if models then Some(placed.value.motion) else None)
        && (models ==>
              virtualCursor == Some(placed.value.cursor) && virtualPos == placed.value.motion.entryDistance)
      ensures capturePos == Some(pos) && old(Aligned(pos)) && (placed.None? || Visible(TopologyOf(pos)).None?) ==>
        var proposed := Vector(old(virtualCursor).value.x + m.x, old(virtualCursor).value.y + m.y);
        var past := -EntryDistance(pos, proposed, peerBounds[pos]);
        && Aligned(pos) && virtualCursor.value == proposed.Within(peerBounds[pos])
        && (threshold > 0 ==> wallPressure == if past > 0.0 then old(wallPressure) + past else 0.0)
    {
      var scaled := d.Times(if pos in peerSensitivity then peerSensitivity[pos] else 1.0);
      m := scaled;
      if capturePos == Some(pos) {
        TrackActive(pos, scaled, placed);
      }
    }

    // ---------------------------------------------------------------- release

    /** The backend is asked at most once per capture to give it up; the model
        is reset whatever it answers. */
    method Release(backendAccepts: bool) returns (ok: bool, asked: bool)
      requires Valid()
      modifies this`capturePos, this`virtualPos, this`wallPressure, this`wallPressPending, this`backendReleased
      modifies this`virtualCursor, this`beginHadCursor, this`pendingMotion, this`motionSinceBegin
      ensures Valid() && WallNow() == Reset(old(WallNow())) && capturePos.None? && !wallPressPending
      ensures asked == !old(backendReleased)
      ensures ok == (old(backendReleased) || backendAccepts)
      ensures backendReleased == ok
    {
      ResetWallPressState();
      if backendReleased {
        return true, false;
      }
      if backendAccepts {
        backendReleased := true;
      }
      return backendAccepts, true;
    }

    // ----------------------------------------------------------------- handles

    /** The backend is asked for an edge with its first handle. */
    method Create(id: Handle, pos: Position) returns (asked: bool)
      requires ValidHandles() && id !in idMap
      modifies this`idMap, this`positionMap
      ensures ValidHandles() && idMap == old(idMap)[id := pos]
      ensures HandlesAt(pos) == old(HandlesAt(pos)) + [id]
      ensures forall other :: other != pos ==> HandlesAt(other) == old(HandlesAt(other))
      ensures asked <==> old(HandlesAt(pos)) == []
    {
      asked := pos !in positionMap;
      assert Lists(pos);
      idMap := idMap[id := pos];
      positionMap := positionMap[pos := if asked then [id] else positionMap[pos] + [id]];
      forall other ensures Lists(other) {
        if other != pos {
          assert HandlesAt(other) == old(HandlesAt(other)) && old(Lists(other));
        }
      }
    }

    /** The backend gives an edge up with its last handle. */
    method Destroy(id: Handle) returns (asked: bool)
      requires ValidHandles() && id in idMap
      modifies this`idMap, this`positionMap
      ensures ValidHandles() && idMap == old(idMap) - {id}
      ensures HandlesAt(old(idMap)[id]) == Without(old(HandlesAt(idMap[id])), id)
      ensures forall other :: other != old(idMap)[id] ==> HandlesAt(other) == old(HandlesAt(other))
      ensures asked <==> HandlesAt(old(idMap)[id]) == []
    {
      var pos := idMap[id];
      assert Lists(pos);
      idMap := idMap - {id};
      WithoutKeepsOthers(positionMap[pos], id);
      var remaining := Retain(positionMap[pos], id);
      asked := remaining == [];
      positionMap := if asked then positionMap - {pos} else positionMap[pos := remaining];
      forall other ensures Lists(other) {
        if other != pos {
          assert HandlesAt(other) == old(HandlesAt(other)) && old(Lists(other));
        }
      }
    }

    // ------------------------------------------------------------------ stream

    method Push(handles: seq<Handle>, event: Event)
      modifies this`pending
      ensures pending == old(pending) + Fan(handles, event)
    {
      for i := 0 to |handles|
        invariant pending == old(pending) + Fan(handles[..i], event)
      {
        pending := pending + [Delivery(handles[i], event)];
        assert Fan(handles[..i + 1], event) == Fan(handles[..i], event) + [Delivery(handles[i], event)];
      }
      assert handles[..|handles|] == handles;
    }

    method Pop() returns (r: Polled)
      modifies this`pending
      ensures old(pending) == [] ==> r == Pending && pending == []
      ensures old(pending) != [] ==> r.Ready? && [r.delivery] + pending == old(pending)
    {
      if pending == [] {
        return Pending;
      }
      r := Ready(pending[0]);
      pending := pending[1..];
    }

    method TrackWallPress(pos: Position, event: Event, placed: Option<Placed>)
      requires Valid()
      modifies this`peerBounds, this`confirmed, this`peerSensitivity
      modifies this`capturePos, this`virtualPos, this`wallPressure, this`wallPressPending
      modifies this`virtualCursor, this`beginHadCursor, this`pendingMotion, this`motionSinceBegin
      ensures Valid()
      ensures event.BeginEvent? ==> WallNow() == Begin(old(WallNow()), pos)
      ensures !event.BeginEvent? && !(event.MotionEvent? && capturePos == Some(pos)) ==> WallNow() == old(WallNow())
      ensures !event.BeginEvent? ==> forall p :: TopologyOf(p) == old(TopologyOf(p))
    {
      match event {
        case BeginEvent(withCursor) => TrackBegin(pos, withCursor);
        case MotionEvent(d) => ghost var _ := TrackMotion(pos, d, placed);
        case _ =>
      }
    }

    /** The deferred release: due once, for every handle of the captured edge. */
    method Elapsed() returns (fired: bool)
      requires Valid() && wallPressPending && pending == []
      modifies this`wallPressPending, this`pending
      ensures Valid() && WallNow() == Elapse(old(WallNow())) && !wallPressPending
      ensures capturePos.Some? && pending == Fan(HandlesAt(capturePos.value), AutoReleaseEvent)
      ensures fired <==> pending != []
    {
      wallPressPending := false;
      Push(HandlesAt(capturePos.value), AutoReleaseEvent);
      fired := pending != [];
    }

    /** A backend event: tracked first, then handed to every handle of its edge. */
    method Route(pos: Position, event: Event, placed: Option<Placed>) returns (r: Polled)
      requires Valid() && pending == []
      modifies this`peerBounds, this`confirmed, this`peerSensitivity, this`pending, this`backendReleased
      modifies this`capturePos, this`virtualPos, this`wallPressure, this`wallPressPending
      modifies this`virtualCursor, this`beginHadCursor, this`pendingMotion, this`motionSinceBegin
      ensures Valid()
      ensures HandlesAt(pos) != [] ==> r.Ready? && [r.delivery] + pending == Fan(HandlesAt(pos), event)
      ensures HandlesAt(pos) == [] ==> r == Pending && pending == []
      ensures event.BeginEvent? ==> WallNow() == Begin(old(WallNow()), pos)
      ensures !event.BeginEvent? && !event.MotionEvent? ==> WallNow() == old(WallNow())
      ensures backendReleased == (!event.BeginEvent? && (event.AutoReleaseEvent? || old(backendReleased)))
    {
      if event.BeginEvent? {
        backendReleased := false;
      } else if event.AutoReleaseEvent? {
        backendReleased := true;
      }
      TrackWallPress(pos, event, placed);
      Push(HandlesAt(pos), event);
      r := Pop();
    }

    /** What one poll may hand out: what is queued already, else a deferred
        release that is due, else the backend's next event. */
    ghost function Due(timerReady: bool, incoming: Incoming): seq<Delivery>
      reads this
    {
      if pending != [] then pending
      else if Fires(timerReady) then Fan(HandlesAt(capturePos.value), AutoReleaseEvent)
      else if incoming.Arrived? then Fan(HandlesAt(incoming.pos), incoming.event)
      else []
    }

    ghost predicate Fires(timerReady: bool)
      reads this
    {
      wallPressPending && timerReady && capturePos.Some? && HandlesAt(capturePos.value) != []
    }

    /** Deliveries are neither lost nor repeated nor reordered: the one handed out
        and the ones kept are exactly those due. */
    method PollNext(timerReady: bool, incoming: Incoming, placed: Option<Placed>) returns (r: Polled)
      requires Valid() && ValidHandles()
      modifies this
      ensures Valid() && ValidHandles() && idMap == old(idMap) && positionMap == old(positionMap)
      ensures old(Due(timerReady, incoming)) != [] ==>
        r.Ready? && [r.delivery] + pending == old(Due(timerReady, incoming))
      ensures old(Due(timerReady, incoming)) == [] ==> !r.Ready? && pending == []
      ensures old(pending) != [] ==> WallNow() == old(WallNow())
      ensures old(pending) == [] && old(Fires(timerReady)) ==>
        WallNow() == Elapse(old(WallNow())) && !wallPressPending
      ensures old(pending) == [] && !old(Fires(timerReady)) && incoming.Arrived? && incoming.event.BeginEvent? ==>
        capturePos == Some(incoming.pos) && !backendReleased
    {
      if pending != [] {
        r := Pop();
        return;
      }
      if wallPressPending && timerReady {
        var fired := Elapsed();
        if fired {
          r := Pop();
          return;
        }
      }
      match incoming {
        case Nothing => return Pending;
        case EndOfStream => return Closed;
        case Failure => return Errored;
        case Arrived(pos, event) => r := Route(pos, event, placed);
      }
    }
  }
}
