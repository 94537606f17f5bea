/** The pinch accumulator of the macOS capture (input-capture/src/macos.rs):
    magnification samples become wheel notches under a held Ctrl. */
module ZoomGesture {
  import opened Wrappers

  const STEP := 0.08
  const COMMIT := 0.16

  const PHASE_BEGAN := 1
  const PHASE_CHANGED := 2
  const PHASE_ENDED := 4
  const PHASE_CANCELLED := 8
  const TYPE_ZOOM := 8

  datatype ZoomEvent = Ctrl(down: bool) | Wheel(value: int)

  /** A wheel direction: one up, minus one down, zero before the first notch. */
  type Direction = d: int | -1 <= d <= 1

  function Abs(x: real): real {
    if x < 0.0 then -x else x
  }

  /** The sign bit decides at zero; no threshold is ever that small. */
  function Signum(x: real): Direction {
    if x < 0.0 then -1 else 1
  }

  /** Opening or turning around costs more than going on. */
  function Threshold(direction: Direction, previous: Direction): real {
    if direction == previous then STEP else COMMIT
  }

  /** A distance with the sign of a direction. */
  function Towards(direction: Direction, x: real): real {
    if direction > 0 then x else if direction < 0 then -x else 0.0
  }

  function LastOf(dirs: seq<Direction>, previous: Direction): Direction {
    if dirs == [] then previous else dirs[|dirs| - 1]
  }

  /** Signed travel that a series of notches has paid for. */
  function Paid(dirs: seq<Direction>, previous: Direction): real {
    if dirs == [] then 0.0
    else
      var front, last := dirs[..|dirs| - 1], dirs[|dirs| - 1];
      Paid(front, previous) + Towards(last, Threshold(last, LastOf(front, previous)))
  }

  function Notches(dirs: seq<Direction>): seq<ZoomEvent> {
    if dirs == [] then []
    else Notches(dirs[..|dirs| - 1]) + [Wheel(if dirs[|dirs| - 1] > 0 then 120 else -120)]
  }

  lemma {:induction false} PaidInTwo(first: seq<Direction>, second: seq<Direction>, previous: Direction)
    ensures Paid(first + second, previous) == Paid(first, previous) + Paid(second, LastOf(first, previous))
    ensures LastOf(first + second, previous) == LastOf(second, LastOf(first, previous))
    decreases |second|
  {
    if second == [] {
      assert first + second == first;
    } else {
      var front := second[..|second| - 1];
      PaidInTwo(first, front, previous);
      assert (first + second)[..|first + second| - 1] == first + front;
    }
  }

  lemma {:induction false} PaidOneMore(dirs: seq<Direction>, previous: Direction, direction: Direction)
    ensures Paid(dirs + [direction], previous)
      == Paid(dirs, previous) + Towards(direction, Threshold(direction, LastOf(dirs, previous)))
    ensures LastOf(dirs + [direction], previous) == direction
  {
    assert (dirs + [direction])[..|dirs|] == dirs;
  }

  /** Travel not yet paid out stays below what the next notch costs. */
  predicate Rests(pending: real, emitted: Direction) {
    Abs(pending) < Threshold(Signum(pending), emitted)
  }

  /** Notches all one way, `n` of them. */
  function Straight(direction: Direction, n: nat): seq<Direction> {
    seq(n, i => direction)
  }

  /** What one sample does: it pays out as many notches as it can, all towards
      the side the total lies on, and keeps the rest. */
  ghost predicate Accumulates(
      pending: real, emitted: Direction, magnification: real, dirs: seq<Direction>, after: real)
  {
    && pending + magnification == after + Paid(dirs, emitted)
    && Rests(after, LastOf(dirs, emitted))
    && dirs == Straight(Signum(pending + magnification), |dirs|)
    && (dirs != [] ==> after == 0.0 || Signum(after) == Signum(pending + magnification))
  }

  lemma {:induction false} StraightCost(direction: Direction, n: nat, previous: Direction)
    requires direction != 0
    ensures Paid(Straight(direction, n), previous) ==
      Towards(direction, if n == 0 then 0.0 else Threshold(direction, previous) + (n - 1) as real * STEP)
  {
    if n > 0 {
      StraightCost(direction, n - 1, previous);
      assert Straight(direction, n)[..n - 1] == Straight(direction, n - 1);
    }
  }

  lemma {:induction false} CostsMore(direction: Direction, n: nat, m: nat, previous: Direction)
    requires direction != 0 && n < m
    ensures Towards(direction, Paid(Straight(direction, m), previous) - Paid(Straight(direction, n), previous))
      >= Threshold(direction, LastOf(Straight(direction, n), previous))
  {
    StraightCost(direction, n, previous);
    StraightCost(direction, m, previous);
    assert (m - 1) as real * STEP >= n as real * STEP;
  }

  /** The sample's effect is determined: any two outcomes that pay out all they
      can are the same one. */
  lemma {:induction false} AccumulatesUniquely(
      pending: real, emitted: Direction, magnification: real,
      dirs: seq<Direction>, after: real, dirs1: seq<Direction>, after1: real)
    requires Accumulates(pending, emitted, magnification, dirs, after)
    requires Accumulates(pending, emitted, magnification, dirs1, after1)
    ensures dirs == dirs1 && after == after1
  {
    var d := Signum(pending + magnification);
    if |dirs| < |dirs1| {
      CostsMore(d, |dirs|, |dirs1|, emitted);
    } else if |dirs1| < |dirs| {
      CostsMore(d, |dirs1|, |dirs|, emitted);
    }
  }

  /** A reversing notch is sent only after the fingers walked back everything
      still pending and the larger threshold on top. */
  lemma {:induction false} ReversalCostsCommit(
      pending: real, emitted: Direction, magnification: real, dirs: seq<Direction>, after: real)
    requires Accumulates(pending, emitted, magnification, dirs, after)
    requires dirs != [] && dirs[0] != emitted
    ensures Abs(pending + magnification) >= COMMIT
    ensures pending != 0.0 && Signum(pending) == emitted ==> Abs(magnification) >= COMMIT + Abs(pending)
  {
    var d := Signum(pending + magnification);
    assert dirs[0] == d;
    StraightCost(d, |dirs|, emitted);
    assert (|dirs| - 1) as real * STEP >= 0.0;
  }

  /** Settling fingers and mid-pinch wobble stay silent: a sample sends nothing
      exactly if the net travel since the last notch is below the next cost. */
  lemma {:induction false} SilentExactlyBelowThreshold(
      pending: real, emitted: Direction, magnification: real, dirs: seq<Direction>, after: real)
    requires Accumulates(pending, emitted, magnification, dirs, after)
    ensures dirs == [] <==> Rests(pending + magnification, emitted)
  {
    if Rests(pending + magnification, emitted) {
      AccumulatesUniquely(pending, emitted, magnification, dirs, after, [], pending + magnification);
    }
  }

  /** Up is up: a sample's notches all point the way the net travel does, one
      wheel step of 120 each. */
  lemma {:induction false} NotchesPointTheWay(
      pending: real, emitted: Direction, magnification: real, dirs: seq<Direction>, after: real, k: nat)
    requires Accumulates(pending, emitted, magnification, dirs, after) && k < |dirs|
    ensures |Notches(dirs)| == |dirs| && pending + magnification != 0.0
    ensures Notches(dirs)[k] == Wheel(if pending + magnification > 0.0 then 120 else -120)
  {
    var total := pending + magnification;
    assert dirs[k] == Signum(total);
    NotchAt(dirs, k);
    StraightCost(Signum(total), |dirs|, emitted);
    assert (|dirs| - 1) as real * STEP >= 0.0;
  }

  lemma {:induction false} NotchAt(dirs: seq<Direction>, k: nat)
    requires k < |dirs|
    ensures |Notches(dirs)| == |dirs| && Notches(dirs)[k] == Wheel(if dirs[k] > 0 then 120 else -120)
    decreases |dirs|
  {
    var front := dirs[..|dirs| - 1];
    if front == [] {
      assert Notches(front) == [];
    } else {
      NotchAt(front, if k < |front| then k else 0);
    }
  }

  /** They are as many as the net travel pays for: 0.08 each, and 0.16 for the first
      one if it opens or turns around. */
  lemma {:induction false} NotchesArePaidFor(
      pending: real, emitted: Direction, magnification: real, dirs: seq<Direction>, after: real)
    requires Accumulates(pending, emitted, magnification, dirs, after)
    ensures var total := pending + magnification;
      var distance, first := if total < 0.0 then -total else total, if Signum(total) == emitted then 0.08 else 0.16;
      && (dirs == [] <==> distance < first)
      && (dirs != [] ==> first + (|dirs| - 1) as real * 0.08 <= distance < first + |dirs| as real * 0.08)
  {
    StraightCost(Signum(pending + magnification), |dirs|, emitted);
    assert |dirs| as real * STEP == (|dirs| - 1) as real * STEP + STEP;
    if dirs != [] {
      assert (|dirs| - 1) as real * STEP >= 0.0;
      assert LastOf(dirs, emitted) == Signum(pending + magnification);
    }
  }

  // --------------------------------------------------------- synthetic Ctrl

  /** Whether the last Ctrl event of a log left Ctrl down. */
  function CtrlDown(log: seq<ZoomEvent>): bool {
    log != [] && if log[|log| - 1].Ctrl? then log[|log| - 1].down else CtrlDown(log[..|log| - 1])
  }

  /** Downs and ups take turns, a down first. */
  predicate Alternates(log: seq<ZoomEvent>) {
    log == []
    || (Alternates(log[..|log| - 1])
        && (log[|log| - 1].Ctrl? ==> log[|log| - 1].down != CtrlDown(log[..|log| - 1])))
  }

  lemma {:induction false} LogsOneMore(log: seq<ZoomEvent>, event: ZoomEvent)
    ensures CtrlDown(log + [event]) == if event.Ctrl? then event.down else CtrlDown(log)
    ensures Alternates(log + [event]) == (Alternates(log) && (event.Ctrl? ==> event.down != CtrlDown(log)))
  {
    assert (log + [event])[..|log|] == log;
  }

  lemma {:induction false} NotchesKeepCtrl(log: seq<ZoomEvent>, dirs: seq<Direction>)
    ensures CtrlDown(log + Notches(dirs)) == CtrlDown(log) && Alternates(log + Notches(dirs)) == Alternates(log)
    decreases |dirs|
  {
    if dirs == [] {
      assert log + Notches(dirs) == log;
    } else {
      var front := dirs[..|dirs| - 1];
      var wheel := Wheel(if dirs[|dirs| - 1] > 0 then 120 else -120);
      NotchesKeepCtrl(log, front);
      LogsOneMore(log + Notches(front), wheel);
      assert log + Notches(dirs) == log + Notches(front) + [wheel];
    }
  }

  /** A sample opens a gesture, is counted into it, or closes it. */
  predicate Opens(active: bool, phase: int) {
    !active && phase in {PHASE_BEGAN, PHASE_CHANGED}
  }

  predicate Counts(active: bool, phase: int) {
    phase in {PHASE_BEGAN, PHASE_CHANGED} || (phase == PHASE_ENDED && active)
  }

  predicate Closes(phase: int) {
    phase in {PHASE_ENDED, PHASE_CANCELLED}
  }

  /** The Ctrl down of an opening sample, if the user is not holding Ctrl. */
  function Opening(active: bool, phase: int, controlHeld: bool): seq<ZoomEvent> {
    if Opens(active, phase) && !controlHeld then [Ctrl(true)] else []
  }

  /** The Ctrl up of a closing sample, if the gesture holds Ctrl. */
  function Closing(syntheticCtrl: bool, phase: int): seq<ZoomEvent> {
    if Closes(phase) && syntheticCtrl then [Ctrl(false)] else []
  }

  class ZoomGestureState {
    var active: bool
    var pending: real
    var emitted: Direction
    var syntheticCtrl: bool
    /** Everything queued since the last reset. */
    var queued: seq<ZoomEvent>
    /** Travel and notches of the running gesture. */
    ghost var travel: real
    ghost var dirs: seq<Direction>

    /** The travel of a gesture is what it paid in notches and the rest kept;
        Ctrl is down exactly while a gesture holds it. */
    ghost predicate Valid()
      reads this
    {
      && (active ==> travel == pending + Paid(dirs, 0) && emitted == LastOf(dirs, 0) && Rests(pending, emitted))
      && (!active ==> !syntheticCtrl)
      && Alternates(queued) && CtrlDown(queued) == syntheticCtrl
    }

    constructor ()
      ensures Valid() && !active && queued == []
    {
      active, pending, emitted, syntheticCtrl, queued := false, 0.0, 0, false, [];
      travel, dirs := 0.0, [];
    }

    method QueueZoomWheel(direction: Direction)
      modifies this`queued
      ensures queued == old(queued) + [Wheel(if direction > 0 then 120 else -120)]
    {
      var value := if direction > 0 then 120 else -120;
      queued := queued + [Wheel(value)];
    }

    /** Pays out whole notches until the rest is below the next one's cost. */
    method PayOut() returns (ghost notches: seq<Direction>)
      modifies this`pending, this`emitted, this`queued
      ensures old(pending) == pending + Paid(notches, old(emitted)) && emitted == LastOf(notches, old(emitted))
      ensures notches == Straight(Signum(old(pending)), |notches|) && Rests(pending, emitted)
      ensures notches != [] ==> pending == 0.0 || Signum(pending) == Signum(old(pending))
      ensures queued == old(queued) + Notches(notches)
    {
      notches := [];
      ghost var start, previous := pending, emitted;
      while true
        invariant start == pending + Paid(notches, previous) && emitted == LastOf(notches, previous)
        invariant notches == Straight(Signum(start), |notches|)
        invariant pending == 0.0 || Signum(pending) == Signum(start)
        invariant queued == old(queued) + Notches(notches)
        decreases Abs(pending) * 12.5
      {
        var direction := Signum(pending);
        var threshold := if direction == emitted then STEP else COMMIT;
        if Abs(pending) < threshold {
          break;
        }
        QueueZoomWheel(direction);
        pending := pending - Towards(direction, threshold);
        emitted := direction;
        PaidOneMore(notches, previous, direction);
        notches := notches + [direction];
      }
    }

    /** One sample; a magnification that is not finite is dropped. */
    method Accumulate(magnification: Option<real>) returns (ghost notches: seq<Direction>)
      requires Valid() && active
      modifies this
      ensures Valid() && active && syntheticCtrl == old(syntheticCtrl)
      ensures magnification.None? ==> notches == [] && pending == old(pending) && travel == old(travel)
      ensures magnification.Some? ==>
        Accumulates(old(pending), old(emitted), magnification.value, notches, pending)
        && travel == old(travel) + magnification.value
      ensures dirs == old(dirs) + notches && queued == old(queued) + Notches(notches)
    {
      notches := [];
      if magnification.Some? {
        pending := pending + magnification.value;
        notches := PayOut();
        travel := travel + magnification.value;
      }
      PaidInTwo(dirs, notches, 0);
      NotchesKeepCtrl(old(queued), notches);
      dirs := dirs + notches;
    }

    method Begin(controlHeld: bool)
      requires Valid() && !active
      modifies this
      ensures Valid() && active && pending == 0.0 && emitted == 0 && travel == 0.0 && dirs == []
      ensures syntheticCtrl == !controlHeld
      ensures queued == old(queued) + if controlHeld then [] else [Ctrl(true)]
    {
      LogsOneMore(queued, Ctrl(true));
      active, pending, emitted, syntheticCtrl := true, 0.0, 0, !controlHeld;
      travel, dirs := 0.0, [];
      if syntheticCtrl {
        queued := queued + [Ctrl(true)];
      }
    }

    method Finish()
      requires Valid()
      modifies this
      ensures Valid() && !active
      ensures queued == old(queued) + if old(syntheticCtrl) then [Ctrl(false)] else []
    {
      LogsOneMore(queued, Ctrl(false));
      if syntheticCtrl {
        queued := queued + [Ctrl(false)];
      }
      active, pending, emitted, syntheticCtrl := false, 0.0, 0, false;
    }

    /** The sample opens the gesture if it must, and is counted into it. */
    method Feed(magnification: Option<real>, phase: int, controlHeld: bool) returns (ghost notches: seq<Direction>)
      requires Valid()
      modifies this
      ensures Valid() && active == (old(active) || Opens(old(active), phase))
      ensures syntheticCtrl == if Opens(old(active), phase) then !controlHeld else old(syntheticCtrl)
      ensures queued == old(queued) + Opening(old(active), phase, controlHeld) + Notches(notches)
      ensures Counts(old(active), phase) && magnification.Some? ==>
        var opens := Opens(old(active), phase);
        Accumulates(if opens then 0.0 else old(pending), if opens then 0 else old(emitted), magnification.value,
          notches, pending)
      ensures !Counts(old(active), phase) || magnification.None? ==> notches == []
    {
      notches := [];
      if phase == PHASE_BEGAN || phase == PHASE_CHANGED {
        if !active {
          Begin(controlHeld);
        }
        notches := Accumulate(magnification);
      } else if phase == PHASE_ENDED && active {
        notches := Accumulate(magnification);
      }
    }

    /** One gesture event: what it queues, and what it leaves of the gesture. */
    method AppendSample(gestureType: int, magnification: Option<real>, phase: int, controlHeld: bool)
        returns (ghost notches: seq<Direction>, ghost rest: real)
      requires Valid()
      modifies this
      ensures Valid()
      ensures gestureType != TYPE_ZOOM ==> notches == [] && queued == old(queued) && active == old(active)
      ensures gestureType == TYPE_ZOOM ==>
        active == (!Closes(phase) && (old(active) || Opens(old(active), phase)))
        && queued == old(queued) + Opening(old(active), phase, controlHeld) + Notches(notches)
             + Closing(old(syntheticCtrl), phase)
      ensures gestureType == TYPE_ZOOM && Counts(old(active), phase) && magnification.Some? ==>
        var opens := Opens(old(active), phase);
        Accumulates(if opens then 0.0 else old(pending), if opens then 0 else old(emitted), magnification.value,
          notches, rest)
      ensures !Counts(old(active), phase) || magnification.None? ==> notches == []
      ensures active ==> rest == pending
      ensures gestureType == 8 && (phase == 1 || phase == 2) ==> active
      ensures gestureType == 8 && (phase == 1 || phase == 2) && !old(active) ==> syntheticCtrl == !controlHeld
      ensures gestureType == 8 && (phase == 4 || phase == 8) ==> !active && !CtrlDown(queued)
    {
      notches, rest := [], pending;
      if gestureType != TYPE_ZOOM {
        return;
      }
      notches := Feed(magnification, phase, controlHeld);
      rest := pending;
      if phase == PHASE_ENDED || phase == PHASE_CANCELLED {
        Finish();
      }
    }
  }
}
