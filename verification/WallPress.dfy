/** The wall-press accumulator (input-capture/src/lib.rs): the modeled cursor's
    distance from the edge it entered by, and the deferred release that pushing
    back against that edge arms. Distances are reals. */
module WallPress {
  import opened Wrappers
  import opened Positions

  datatype Wall = Wall(
    threshold: nat, pos: Option<Position>, virtualPos: real, pressure: real, armed: bool)

  /** What the layout-aware cursor model answers for one motion. */
  datatype TopologyMotion = TopologyMotion(entryDistance: real, overshoot: real)

  /** Positive is into the guest. */
  function EntryAxisDelta(pos: Position, dx: real, dy: real): real {
    match pos
    case Left => -dx
    case Right => dx
    case Top => -dy
    case Bottom => dy
  }

  function Clamp(x: real, upper: Option<real>): real {
    if x < 0.0 then 0.0 else if upper.Some? && x > upper.value then upper.value else x
  }

  /** Motion the entry edge did not absorb. */
  function NearOvershoot(virtualPos: real, delta: real): real {
    if virtualPos + delta < 0.0 then -(virtualPos + delta) else 0.0
  }

  /** Motion the far edge did not absorb. */
  function FarOvershoot(virtualPos: real, delta: real, upper: Option<real>): real {
    if upper.Some? && virtualPos + delta > upper.value then virtualPos + delta - upper.value else 0.0
  }

  // ---------------------------------------------------------- the operations

  /** An overshoot adds pressure; any other motion takes all of it off. */
  function Press(w: Wall, overshoot: real): Wall {
    if w.threshold == 0 then w
    else if overshoot > 0.0 then
      var pressure := w.pressure + overshoot;
      w.(pressure := pressure, armed := w.armed || pressure >= w.threshold as real)
    else w.(pressure := 0.0, armed := false)
  }

  function Move(w: Wall, delta: real, upper: Option<real>, topology: Option<TopologyMotion>): Wall {
    match topology
    case Some(motion) => Press(w.(virtualPos := motion.entryDistance), motion.overshoot)
    case None =>
      Press(w.(virtualPos := Clamp(w.virtualPos + delta, upper)), NearOvershoot(w.virtualPos, delta))
  }

  /** A Begin takes the pressure off, but not the armed release. */
  function Begin(w: Wall, pos: Position): Wall {
    w.(pos := Some(pos), virtualPos := 0.0, pressure := 0.0)
  }

  function SetThreshold(w: Wall, threshold: nat): Wall {
    if threshold != w.threshold || threshold == 0 then w.(threshold := threshold, pressure := 0.0, armed := false)
    else w
  }

  function Reset(w: Wall): Wall {
    w.(pos := None, virtualPos := 0.0, pressure := 0.0, armed := false)
  }

  /** The layout of the captured peer changed or came back into force. */
  function Relayout(w: Wall): Wall {
    w.(pressure := 0.0, armed := false)
  }

  /** The cursor model was seeded from a layout. */
  function Seat(w: Wall, entryDistance: Option<real>): Wall {
    w.(virtualPos := entryDistance.GetOr(w.virtualPos))
  }

  function Elapse(w: Wall): Wall {
    w.(armed := false)
  }

  // ------------------------------------------------------------ conservation

  datatype Motion = Motion(delta: real, upper: Option<real>)

  function MoveAll(w: Wall, ms: seq<Motion>): Wall {
    if ms == [] then w
    else Move(MoveAll(w, ms[..|ms| - 1]), ms[|ms| - 1].delta, ms[|ms| - 1].upper, None)
  }

  function Travel(ms: seq<Motion>): real {
    if ms == [] then 0.0 else Travel(ms[..|ms| - 1]) + ms[|ms| - 1].delta
  }

  /** Overshoot of each motion in turn, at the entry edge. */
  function Overshoots(w: Wall, ms: seq<Motion>): seq<real> {
    if ms == [] then []
    else
      Overshoots(w, ms[..|ms| - 1])
      + [NearOvershoot(MoveAll(w, ms[..|ms| - 1]).virtualPos, ms[|ms| - 1].delta)]
  }

  function FarOvershoots(w: Wall, ms: seq<Motion>): seq<real> {
    if ms == [] then []
    else
      FarOvershoots(w, ms[..|ms| - 1])
      + [FarOvershoot(MoveAll(w, ms[..|ms| - 1]).virtualPos, ms[|ms| - 1].delta, ms[|ms| - 1].upper)]
  }

  function Sum(xs: seq<real>): real {
    if xs == [] then 0.0 else Sum(xs[..|xs| - 1]) + xs[|xs| - 1]
  }

  ghost predicate ProperBounds(ms: seq<Motion>) {
    forall i :: 0 <= i < |ms| && ms[i].upper.Some? ==> ms[i].upper.value >= 0.0
  }

  lemma {:induction false} OneMotionBalances(virtualPos: real, delta: real, upper: Option<real>)
    requires upper.Some? ==> upper.value >= 0.0
    ensures virtualPos + delta
      == Clamp(virtualPos + delta, upper) - NearOvershoot(virtualPos, delta) + FarOvershoot(virtualPos, delta, upper)
    ensures Clamp(virtualPos + delta, upper) >= 0.0
    ensures upper.Some? ==> Clamp(virtualPos + delta, upper) <= upper.value
  {
  }

  lemma {:induction false} SumOneMore(xs: seq<real>, x: real)
    ensures Sum(xs + [x]) == Sum(xs) + x
  {
    assert (xs + [x])[..|xs|] == xs;
  }

  /** In rectangular mode no motion is lost: net travel is where the cursor is,
      less what the entry edge took, plus what the far edge took; and after
      every motion the cursor is within the bounds then known. */
  lemma {:induction false} MotionIsConserved(w: Wall, ms: seq<Motion>)
    requires ProperBounds(ms)
    ensures w.virtualPos + Travel(ms)
      == MoveAll(w, ms).virtualPos - Sum(Overshoots(w, ms)) + Sum(FarOvershoots(w, ms))
    ensures ms != [] ==>
      MoveAll(w, ms).virtualPos >= 0.0
      && (ms[|ms| - 1].upper.Some? ==> MoveAll(w, ms).virtualPos <= ms[|ms| - 1].upper.value)
  {
    if ms != [] {
      var front, last := ms[..|ms| - 1], ms[|ms| - 1];
      MotionIsConserved(w, front);
      var v := MoveAll(w, front).virtualPos;
      OneMotionBalances(v, last.delta, last.upper);
      SumOneMore(Overshoots(w, front), NearOvershoot(v, last.delta));
      SumOneMore(FarOvershoots(w, front), FarOvershoot(v, last.delta, last.upper));
    }
  }

  // ------------------------------------------------------------------ arming

  /** The overshoot of the unbroken run at the end. */
  function UnbrokenRun(overshoots: seq<real>): real {
    if overshoots == [] || overshoots[|overshoots| - 1] <= 0.0 then 0.0
    else UnbrokenRun(overshoots[..|overshoots| - 1]) + overshoots[|overshoots| - 1]
  }

  function PressAll(w: Wall, overshoots: seq<real>): Wall {
    if overshoots == [] then w
    else Press(PressAll(w, overshoots[..|overshoots| - 1]), overshoots[|overshoots| - 1])
  }

  lemma {:induction false} RunIsNotNegative(overshoots: seq<real>)
    ensures UnbrokenRun(overshoots) >= 0.0
  {
    if overshoots != [] {
      RunIsNotNegative(overshoots[..|overshoots| - 1]);
    }
  }

  /** From a wall at rest, the release is armed exactly while the current
      unbroken run of overshoots amounts to the threshold. */
  lemma {:induction false} ArmedExactlyAtThreshold(w: Wall, overshoots: seq<real>)
    requires w.threshold > 0 && !w.armed && w.pressure == 0.0
    ensures var u := PressAll(w, overshoots);
      && u.pressure == UnbrokenRun(overshoots)
      && (u.armed <==> UnbrokenRun(overshoots) >= w.threshold as real)
      && u.threshold == w.threshold
  {
    if overshoots != [] {
      ArmedExactlyAtThreshold(w, overshoots[..|overshoots| - 1]);
      RunIsNotNegative(overshoots[..|overshoots| - 1]);
    }
  }

  lemma {:induction false} MovesPress(w: Wall, ms: seq<Motion>)
    ensures var u, p := MoveAll(w, ms), PressAll(w, Overshoots(w, ms));
      u.pressure == p.pressure && u.armed == p.armed && u.threshold == p.threshold == w.threshold
  {
    if ms != [] {
      var front := ms[..|ms| - 1];
      MovesPress(w, front);
      assert Overshoots(w, ms)[..|Overshoots(w, ms)| - 1] == Overshoots(w, front);
    }
  }

  /** The same for motions: a capture whose wall is at rest when it begins is
      armed exactly by pushing back against the entry edge long enough. */
  lemma {:induction false} CaptureArmsAtThreshold(w: Wall, pos: Position, ms: seq<Motion>)
    requires w.threshold > 0 && !w.armed
    ensures MoveAll(Begin(w, pos), ms).armed
      <==> UnbrokenRun(Overshoots(Begin(w, pos), ms)) >= w.threshold as real
  {
    MovesPress(Begin(w, pos), ms);
    ArmedExactlyAtThreshold(Begin(w, pos), Overshoots(Begin(w, pos), ms));
  }

  // -------------------------------------------------------------------- runs

  datatype Op =
    | DoMove(delta: real, upper: Option<real>, topology: Option<TopologyMotion>)
    | DoBegin(pos: Position)
    | DoSetThreshold(threshold: nat)
    | DoReset
    | DoRelayout
    | DoSeat(entryDistance: Option<real>)
    | DoElapse

  /** Motions are tracked only inside a capture, layouts only of its peer. */
  function Do(w: Wall, op: Op): Wall {
    match op
    case DoMove(delta, upper, topology) => if w.pos.Some? then Move(w, delta, upper, topology) else w
    case DoBegin(pos) => Begin(w, pos)
    case DoSetThreshold(threshold) => SetThreshold(w, threshold)
    case DoReset => Reset(w)
    case DoRelayout => if w.pos.Some? then Relayout(w) else w
    case DoSeat(entryDistance) => if w.pos.Some? then Seat(w, entryDistance) else w
    case DoElapse => Elapse(w)
  }

  const AT_REST := Wall(0, None, 0.0, 0.0, false)

  function DoAll(ops: seq<Op>): Wall {
    if ops == [] then AT_REST else Do(DoAll(ops[..|ops| - 1]), ops[|ops| - 1])
  }

  /** An armed release has a threshold and a capture to release, in every run. */
  lemma {:induction false} ArmedHasCapture(ops: seq<Op>)
    ensures var w := DoAll(ops);
      && (w.armed ==> w.threshold > 0 && w.pos.Some?)
      && (w.threshold == 0 ==> w.pressure == 0.0)
      && w.pressure >= 0.0
  {
    if ops != [] {
      ArmedHasCapture(ops[..|ops| - 1]);
    }
  }

  /** No capture began while a release was armed. */
  ghost predicate NoBeginWhileArmed(ops: seq<Op>) {
    forall i :: 0 <= i < |ops| && ops[i].DoBegin? ==> !DoAll(ops[..i]).armed
  }

  /** Unless a capture begins while a release is armed, being armed means the
      pressure is up to the threshold at that moment. */
  lemma {:induction false} ArmedMeansPressed(ops: seq<Op>)
    requires NoBeginWhileArmed(ops)
    ensures var w := DoAll(ops); w.armed ==> w.pressure >= w.threshold as real
  {
    if ops != [] {
      var front := ops[..|ops| - 1];
      assert forall i :: 0 <= i < |front| ==> front[i] == ops[i] && front[..i] == ops[..i];
      ArmedMeansPressed(front);
      ArmedHasCapture(front);
    }
  }

  /** A Begin while armed leaves a release armed without any pressure: exactly
      then does one step break what the lemma above says. */
  lemma {:induction false} BeginWhileArmedKeepsArmed(w: Wall, op: Op)
    requires w.armed ==> w.threshold > 0 && w.pressure >= w.threshold as real
    requires w.pressure >= 0.0
    ensures (var u := Do(w, op); u.armed && u.pressure < u.threshold as real) <==> w.armed && op.DoBegin?
  {
  }

  lemma {:induction false} DoMore(ops: seq<Op>, op: Op)
    ensures DoAll(ops + [op]) == Do(DoAll(ops), op)
  {
    assert (ops + [op])[..|ops|] == ops;
  }

  /** And from rest it can come to that: pushed back past the threshold of a right
      edge, and captured again before the release was due. */
  lemma {:induction false} ArmedWithoutPressure() returns (ops: seq<Op>)
    ensures ops == [DoSetThreshold(10), DoBegin(Right), DoMove(-20.0, None, None), DoBegin(Right)]
    ensures var w := DoAll(ops); w.armed && w.pressure == 0.0 && w.threshold == 10
    ensures !NoBeginWhileArmed(ops) && NoBeginWhileArmed(ops[..3])
  {
    var threshold, begin, move := DoSetThreshold(10), DoBegin(Right), DoMove(-20.0, None, None);
    DoMore([], threshold);
    assert [] + [threshold] == [threshold];
    DoMore([threshold], begin);
    assert [threshold] + [begin] == [threshold, begin];
    DoMore([threshold, begin], move);
    assert [threshold, begin] + [move] == [threshold, begin, move];
    DoMore([threshold, begin, move], begin);
    ops := [threshold, begin, move] + [begin];
    assert ops[..3] == [threshold, begin, move] && ops[..1] == [threshold] && ops[..3][..1] == [threshold];
    assert DoAll(ops[..3]).armed && !DoAll(ops[..1]).armed;
  }

  // ---------------------------------------------- armed, over the whole run

  /** What one motion of a capture pushed past the entry edge. */
  function Pushed(w: Wall, op: Op): real
    requires op.DoMove?
  {
    if op.topology.Some? then op.topology.value.overshoot
    else if w.virtualPos + op.delta < 0.0 then -(w.virtualPos + op.delta) else 0.0
  }

  predicate Tracked(w: Wall, op: Op) {
    op.DoMove? && w.pos.Some? && w.threshold > 0
  }

  predicate Arms(w: Wall, op: Op) {
    Tracked(w, op) && Pushed(w, op) > 0.0 && w.pressure + Pushed(w, op) >= w.threshold as real
  }

  /** A motion that does not push, a new or zero threshold, a changed layout, the end
      of the capture, or the deadline itself. */
  predicate Disarms(w: Wall, op: Op) {
    || (Tracked(w, op) && Pushed(w, op) <= 0.0)
    || (op.DoSetThreshold? && (op.threshold != w.threshold || op.threshold == 0))
    || (op.DoRelayout? && w.pos.Some?)
    || op.DoReset? || op.DoElapse?
  }

  /** All of these but the deadline take the pressure off, and so does a Begin. */
  predicate Eases(w: Wall, op: Op) {
    (Disarms(w, op) && !op.DoElapse?) || op.DoBegin?
  }

  lemma {:induction false} PressureStep(w: Wall, op: Op)
    requires w.threshold == 0 ==> w.pressure == 0.0
    ensures Do(w, op).pressure
      == if Eases(w, op) then 0.0 else if Tracked(w, op) then w.pressure + Pushed(w, op) else w.pressure
    ensures Do(w, op).armed <==> Arms(w, op) || (w.armed && !Disarms(w, op))
  {
  }

  predicate ArmedAt(ops: seq<Op>, i: nat)
    requires i < |ops|
  {
    Arms(DoAll(ops[..i]), ops[i]) && forall j :: i < j < |ops| ==> !Disarms(DoAll(ops[..j]), ops[j])
  }

  predicate ArmedAndKept(ops: seq<Op>) {
    exists i :: 0 <= i < |ops| && ArmedAt(ops, i)
  }

  lemma {:induction false} ArmedOneMore(ops: seq<Op>, op: Op)
    ensures ArmedAndKept(ops + [op]) <==>
      Arms(DoAll(ops), op) || (ArmedAndKept(ops) && !Disarms(DoAll(ops), op))
  {
    var ops1 := ops + [op];
    assert ops1[..|ops|] == ops;
    assert forall j :: 0 <= j < |ops| ==> ops1[..j] == ops[..j] && ops1[j] == ops[j];
    if ArmedAndKept(ops1) {
      var i :| 0 <= i < |ops1| && ArmedAt(ops1, i);
      if i < |ops| {
        assert ArmedAt(ops, i);
        assert !Disarms(DoAll(ops1[..|ops|]), ops1[|ops|]);
      }
    }
    if Arms(DoAll(ops), op) {
      assert ArmedAt(ops1, |ops|);
    }
    if ArmedAndKept(ops) && !Disarms(DoAll(ops), op) {
      var i :| 0 <= i < |ops| && ArmedAt(ops, i);
      assert ArmedAt(ops1, i);
    }
  }

  /** In every run a release is armed exactly if some motion brought the pressure up
      to the threshold, and nothing has disarmed it since. */
  lemma {:induction false} ArmedExactlySince(ops: seq<Op>)
    ensures DoAll(ops).armed <==> ArmedAndKept(ops)
  {
    if ops != [] {
      var front, last := ops[..|ops| - 1], ops[|ops| - 1];
      ArmedExactlySince(front);
      ArmedHasCapture(front);
      PressureStep(DoAll(front), last);
      ArmedOneMore(front, last);
      assert ops == front + [last];
    }
  }
}
