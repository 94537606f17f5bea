/** Pointer barriers of the portal capture backend (input-capture/src/libei.rs):
    which identifiers a barrier configuration hands out, and which barrier an
    activation without an identifier is taken to mean. */
module PortalBarriers {
  import opened Wrappers
  import opened Positions
  import opened SerialNumbers

  /** A maximal exposed piece of a display edge; `end` is exclusive. */
  datatype Segment = Segment(edge: Position, coordinate: int, start: int, end: int)

  /** The exposed contour, edge by edge. */
  type Layout = Position -> seq<Segment>

  datatype Barrier = Barrier(id: nat, x1: int, y1: int, x2: int, y2: int)

  datatype Planned = Planned(pos: Position, segment: Segment)

  datatype Selection = Selection(barriers: seq<Barrier>, positions: map<nat, Position>, next: nat)

  const MAX_BARRIER_ID := 0xFFFF_FFFF

  /** Inclusive end points; right and bottom edges sit one past the last pixel. */
  function SegmentToBarrier(id: nat, s: Segment): Barrier {
    match s.edge
    case Left => Barrier(id, s.coordinate, s.start, s.coordinate, s.end - 1)
    case Right => Barrier(id, s.coordinate + 1, s.start, s.coordinate + 1, s.end - 1)
    case Top => Barrier(id, s.start, s.coordinate, s.end - 1, s.coordinate)
    case Bottom => Barrier(id, s.start, s.coordinate + 1, s.end - 1, s.coordinate + 1)
  }

  /** A barrier must contain more than one point. */
  predicate Usable(s: Segment) {
    s.end - s.start > 1
  }

  function PlanEdge(pos: Position, segments: seq<Segment>): seq<Planned> {
    if segments == [] then []
    else
      var last := segments[|segments| - 1];
      PlanEdge(pos, segments[..|segments| - 1]) + if Usable(last) then [Planned(pos, last)] else []
  }

  function Plan(layout: Layout, clients: seq<Position>): seq<Planned>
    decreases |clients|
  {
    if clients == [] then []
    else
      var last := clients[|clients| - 1];
      Plan(layout, clients[..|clients| - 1]) + PlanEdge(last, layout(last))
  }

  /** The plan lists exactly the usable pieces of the configured edges. */
  lemma {:induction false} PlanCovers(layout: Layout, clients: seq<Position>, pos: Position, segment: Segment)
    ensures Planned(pos, segment) in Plan(layout, clients) <==>
      pos in clients && segment in layout(pos) && Usable(segment)
    decreases |clients|
  {
    if clients != [] {
      var last := clients[|clients| - 1];
      PlanCovers(layout, clients[..|clients| - 1], pos, segment);
      PlanEdgeCovers(last, layout(last), pos, segment);
      assert clients == clients[..|clients| - 1] + [last];
    }
  }

  lemma {:induction false} PlanEdgeCovers(edge: Position, segments: seq<Segment>, pos: Position, segment: Segment)
    ensures Planned(pos, segment) in PlanEdge(edge, segments) <==> pos == edge && segment in segments && Usable(segment)
    decreases |segments|
  {
    if segments != [] {
      PlanEdgeCovers(edge, segments[..|segments| - 1], pos, segment);
      assert segments == segments[..|segments| - 1] + [segments[|segments| - 1]];
    }
  }

  function PositionOf(plan: seq<Planned>, first: nat, id: nat): Position
    requires first <= id < first + |plan|
  {
    plan[id - first].pos
  }

  function BarrierOf(plan: seq<Planned>, first: nat, k: nat): Barrier
    requires k < |plan|
  {
    SegmentToBarrier(first + k, plan[k].segment)
  }

  /** One fresh consecutive identifier per planned piece. */
  ghost predicate Numbers(plan: seq<Planned>, first: nat, r: Selection) {
    && r.next == first + |plan|
    && |r.barriers| == |plan|
    && (forall k :: 0 <= k < |plan| ==> r.barriers[k] == SegmentToBarrier(first + k, plan[k].segment))
    && (forall id :: id in r.positions <==> first <= id < r.next)
    && (forall id :: first <= id < r.next ==> r.positions[id] == PositionOf(plan, first, id))
  }

  function Numbered(plan: seq<Planned>, first: nat): Selection {
    Selection(
      seq(|plan|, k requires 0 <= k < |plan| => BarrierOf(plan, first, k)),
      map id | first <= id < first + |plan| :: PositionOf(plan, first, id),
      first + |plan|)
  }

  lemma {:induction false} NumberedNumbers(plan: seq<Planned>, first: nat)
    ensures Numbers(plan, first, Numbered(plan, first))
  {
    var r := Numbered(plan, first);
    forall k | 0 <= k < |plan| ensures r.barriers[k] == SegmentToBarrier(first + k, plan[k].segment) {
      assert r.barriers[k] == BarrierOf(plan, first, k);
    }
  }

  lemma {:induction false} NumbersUniquely(plan: seq<Planned>, first: nat, r: Selection)
    requires Numbers(plan, first, r)
    ensures r == Numbered(plan, first)
  {
    var q := Numbered(plan, first);
    NumberedNumbers(plan, first);
    assert r.barriers == q.barriers;
    assert r.positions == q.positions;
  }

  lemma {:induction false} NumbersOneMore(plan: seq<Planned>, first: nat, r: Selection, p: Planned)
    requires Numbers(plan, first, r)
    ensures Numbers(plan + [p], first,
      Selection(r.barriers + [SegmentToBarrier(r.next, p.segment)], r.positions[r.next := p.pos], r.next + 1))
  {
  }

  /** What a configuration selects; identifiers that run out abort the session. */
  function Selected(layout: Layout, clients: seq<Position>, next: nat): Option<Selection> {
    var plan := Plan(layout, clients);
    if next + |plan| <= MAX_BARRIER_ID then Some(Numbered(plan, next)) else None
  }

  method SelectBarriers(layout: Layout, clients: seq<Position>, next: nat) returns (r: Option<Selection>)
    requires 0 < next <= MAX_BARRIER_ID
    ensures r == Selected(layout, clients, next)
  {
    var barriers: seq<Barrier>, positions: map<nat, Position>, id := [], map[], next;
    ghost var plan := [];
    for i := 0 to |clients|
      invariant plan == Plan(layout, clients[..i])
      invariant id <= MAX_BARRIER_ID && Numbers(plan, next, Selection(barriers, positions, id))
      invariant |plan| <= |Plan(layout, clients)|
    {
      var pos := clients[i];
      var segments := layout(pos);
      assert clients[..i + 1][..i] == clients[..i];
      ghost var before := plan;
      for j := 0 to |segments|
        invariant plan == before + PlanEdge(pos, segments[..j])
        invariant id <= MAX_BARRIER_ID && Numbers(plan, next, Selection(barriers, positions, id))
      {
        assert segments[..j + 1][..j] == segments[..j];
        if segments[j].end - segments[j].start > 1 {
          if id == MAX_BARRIER_ID {
            PlanPrefix(layout, clients, i, segments, j);
            return None;
          }
          NumbersOneMore(plan, next, Selection(barriers, positions, id), Planned(pos, segments[j]));
          barriers, positions := barriers + [SegmentToBarrier(id, segments[j])], positions[id := pos];
          id := id + 1;
          plan := plan + [Planned(pos, segments[j])];
        }
      }
      assert segments[..|segments|] == segments;
      PlanGrows(layout, clients, i + 1);
    }
    assert clients[..|clients|] == clients;
    NumbersUniquely(plan, next, Selection(barriers, positions, id));
    return Some(Selection(barriers, positions, id));
  }

  lemma {:induction false} PlanGrows(layout: Layout, clients: seq<Position>, i: nat)
    requires i <= |clients|
    ensures |Plan(layout, clients[..i])| <= |Plan(layout, clients)|
    decreases |clients| - i
  {
    if i < |clients| {
      PlanGrows(layout, clients, i + 1);
      assert clients[..i + 1][..i] == clients[..i];
    } else {
      assert clients[..i] == clients;
    }
  }

  lemma {:induction false} PlanEdgeGrows(pos: Position, segments: seq<Segment>, j: nat)
    requires j <= |segments|
    ensures |PlanEdge(pos, segments[..j])| <= |PlanEdge(pos, segments)|
    decreases |segments| - j
  {
    if j < |segments| {
      PlanEdgeGrows(pos, segments, j + 1);
      assert segments[..j + 1][..j] == segments[..j];
    } else {
      assert segments[..j] == segments;
    }
  }

  /** A usable piece beyond what was numbered makes the whole plan longer. */
  lemma {:induction false} PlanPrefix(layout: Layout, clients: seq<Position>, i: nat, segments: seq<Segment>, j: nat)
    requires i < |clients| && segments == layout(clients[i]) && j < |segments| && Usable(segments[j])
    ensures |Plan(layout, clients[..i])| + |PlanEdge(clients[i], segments[..j])| < |Plan(layout, clients)|
  {
    assert clients[..i + 1][..i] == clients[..i];
    PlanGrows(layout, clients, i + 1);
    assert segments[..j + 1][..j] == segments[..j];
    PlanEdgeGrows(clients[i], segments, j + 1);
  }

  // ------------------------------------------------- activations without an id

  /** Where the portal says the cursor is. */
  datatype Cursor = Cursor(x: real, y: real)

  function Abs(r: real): real {
    if r < 0.0 then -r else r
  }

  /** Barriers are parallel to an axis, so one of the two terms is zero. */
  function Length(b: Barrier): real {
    Abs((b.y2 - b.y1) as real) + Abs((b.x2 - b.x1) as real)
  }

  /** Twice the area of the triangle that the barrier and the cursor span. */
  function DoubleArea(b: Barrier, p: Cursor): real {
    var x1, y1, x2, y2 := b.x1 as real, b.y1 as real, b.x2 as real, b.y2 as real;
    Abs((y2 - y1) * p.x - (x2 - x1) * p.y + x2 * y1 - y2 * x1)
  }

  /** The height of that triangle, truncated to 32 bits; a barrier of one point
      has none, which is truncated to zero. */
  function DistanceToLine(b: Barrier, p: Cursor): int {
    if Length(b) == 0.0 then 0
    else
      var height := (DoubleArea(b, p) / Length(b)).Floor;
      if height < 0x7FFF_FFFF then height else 0x7FFF_FFFF
  }

  /** The first barrier at the least distance, among the first `n`. */
  function Nearest(barriers: seq<Barrier>, p: Cursor, n: nat): (best: nat)
    requires 0 < n <= |barriers|
    ensures best < n
  {
    if n == 1 then 0
    else
      var best := Nearest(barriers, p, n - 1);
      if DistanceToLine(barriers[n - 1], p) < DistanceToLine(barriers[best], p) then n - 1 else best
  }

  lemma {:induction false} NearestIsFirstLeast(barriers: seq<Barrier>, p: Cursor, n: nat)
    requires 0 < n <= |barriers|
    ensures var best := Nearest(barriers, p, n);
      && (forall k :: 0 <= k < n ==> DistanceToLine(barriers[best], p) <= DistanceToLine(barriers[k], p))
      && (forall k :: 0 <= k < best ==> DistanceToLine(barriers[best], p) < DistanceToLine(barriers[k], p))
  {
    if n > 1 {
      NearestIsFirstLeast(barriers, p, n - 1);
    }
  }

  function Corresponding(barriers: seq<Barrier>, p: Cursor): Option<nat> {
    if barriers == [] then None else Some(barriers[Nearest(barriers, p, |barriers|)].id)
  }

  method FindCorrespondingClient(barriers: seq<Barrier>, p: Cursor) returns (id: Option<nat>)
    ensures id == Corresponding(barriers, p)
  {
    if barriers == [] {
      return None;
    }
    var best := 0;
    for n := 1 to |barriers|
      invariant best == Nearest(barriers, p, n)
    {
      if DistanceToLine(barriers[n], p) < DistanceToLine(barriers[best], p) {
        best := n;
      }
    }
    return Some(barriers[best].id);
  }

  // ------------------------------------------------- lines and their pieces

  /** What a usable piece becomes: more than one point, along one axis. */
  predicate Proper(b: Barrier) {
    (b.x1 == b.x2 && b.y1 < b.y2) || (b.y1 == b.y2 && b.x1 < b.x2)
  }

  /** A piece is usable exactly if its barrier contains more than one point. */
  lemma {:induction false} UsableIsProper(id: nat, s: Segment)
    ensures Usable(s) <==> Proper(SegmentToBarrier(id, s))
  {
  }

  /** How far the cursor is off the barrier's line, however far along it. */
  function Off(b: Barrier, p: Cursor): real {
    if b.x1 == b.x2 then Abs(p.x - b.x1 as real) else Abs(p.y - b.y1 as real)
  }

  /** The cursor is within a pixel of the barrier's own piece. */
  predicate OnPiece(b: Barrier, p: Cursor) {
    Off(b, p) < 1.0
    && if b.x1 == b.x2 then b.y1 as real <= p.y <= b.y2 as real else b.x1 as real <= p.x <= b.x2 as real
  }

  lemma {:induction false} Quotient(k: real, t: real)
    requires k > 0.0
    ensures Abs(k * t) / k == Abs(t)
  {
    var q := Abs(k * t) / k;
    assert Abs(k * t) == k * Abs(t);
    assert q * k == Abs(t) * k;
  }

  lemma {:induction false} HeightAcross(b: Barrier, p: Cursor)
    requires b.x1 == b.x2 && b.y1 < b.y2
    ensures DoubleArea(b, p) / Length(b) == Off(b, p)
  {
    var k, t := (b.y2 - b.y1) as real, p.x - b.x1 as real;
    Quotient(k, t);
    assert DoubleArea(b, p) == Abs(k * t);
  }

  lemma {:induction false} HeightAlong(b: Barrier, p: Cursor)
    requires b.y1 == b.y2 && b.x1 < b.x2
    ensures DoubleArea(b, p) / Length(b) == Off(b, p)
  {
    var k, t := (b.x2 - b.x1) as real, b.y1 as real - p.y;
    Quotient(k, t);
    assert DoubleArea(b, p) == Abs(k * t);
  }

  /** The triangle's height is the distance from the line, which is truncated to
      zero exactly within a pixel of it. */
  lemma {:induction false} HeightIsOff(b: Barrier, p: Cursor)
    requires Proper(b)
    ensures DoubleArea(b, p) / Length(b) == Off(b, p)
    ensures DistanceToLine(b, p) >= 0 && (DistanceToLine(b, p) == 0 <==> Off(b, p) < 1.0)
  {
    if b.x1 == b.x2 {
      HeightAcross(b, p);
    } else {
      HeightAlong(b, p);
    }
  }

  /** No barrier before this one has a line within a pixel of the cursor. */
  predicate FirstLine(barriers: seq<Barrier>, p: Cursor, k: nat) {
    && k < |barriers| && Off(barriers[k], p) < 1.0
    && forall i :: 0 <= i < k ==> Off(barriers[i], p) >= 1.0
  }

  /** A cursor at some barrier stands for the first barrier whose line it is on,
      whether or not that barrier's own piece comes anywhere near it. */
  lemma {:induction false} FirstLineWins(barriers: seq<Barrier>, p: Cursor, k: nat)
    requires forall i :: 0 <= i < |barriers| ==> Proper(barriers[i])
    requires FirstLine(barriers, p, k)
    ensures Corresponding(barriers, p) == Some(barriers[k].id)
  {
    NearestIsFirstLeast(barriers, p, |barriers|);
    forall i | 0 <= i < |barriers|
      ensures DistanceToLine(barriers[i], p) >= 0
      ensures DistanceToLine(barriers[i], p) == 0 <==> Off(barriers[i], p) < 1.0
    {
      HeightIsOff(barriers[i], p);
    }
  }

  // -------------------------------------------------------------- zone sets

  /** Current, or newer by less than half a circle. */
  predicate CurrentOrNewer(current: Serial, invalidated: Serial) {
    Minus(invalidated, current) < HALF
  }

  /** Two serials less than half a circle apart compare as the unbounded
      counters behind them do. */
  lemma {:induction false} ZoneOrderIsTrueOrder(current: nat, invalidated: nat)
    requires current <= invalidated + HALF && invalidated < current + HALF
    ensures CurrentOrNewer(Wrap(current), Wrap(invalidated)) <==> current <= invalidated
  {
    MinusIsDifference(invalidated, current);
  }
}
