/** The process-wide ownership fence of the macOS pasteboard
    (input-event/src/clipboard_gate.rs), and what its state says about
    everything it was ever shown. */
module ClipboardGate {
  import opened Wrappers

  /** A change count as an unsigned 64-bit number; the native one is signed. */
  type Generation = nat

  const MAX_COUNT: nat := 0x7FFF_FFFF_FFFF_FFFF

  predicate InRange(g: Generation) {
    0 < g <= MAX_COUNT
  }

  datatype State = State(observed: Option<Generation>, remoteThrough: Option<Generation>, quarantined: bool)

  const OPEN := State(None, None, false)

  function Max(mark: Option<Generation>, g: Generation): Generation {
    if mark.Some? && mark.value > g then mark.value else g
  }

  function AfterObserve(s: State, g: Generation): State {
    var bad := !InRange(g) || (s.observed.Some? && g < s.observed.value);
    s.(observed := Some(Max(s.observed, g)), quarantined := s.quarantined || bad)
  }

  function AfterRecord(s: State, g: Generation): State {
    AfterObserve(s, g).(remoteThrough := Some(Max(s.remoteThrough, g)))
  }

  predicate Admits(s: State, g: Generation) {
    !s.quarantined && InRange(g) && (s.remoteThrough.Some? ==> g > s.remoteThrough.value)
  }

  // ------------------------------------------------------------- histories

  /** A native observation, or an ownership the writer took. */
  datatype Op = Observed(g: Generation) | Recorded(g: Generation)

  function StateAfter(ops: seq<Op>): State {
    if ops == [] then OPEN
    else
      var s, op := StateAfter(ops[..|ops| - 1]), ops[|ops| - 1];
      if op.Observed? then AfterObserve(s, op.g) else AfterRecord(s, op.g)
  }

  /** A count out of range, or one below a count seen before. */
  predicate Broken(ops: seq<Op>, i: nat)
    requires i < |ops|
  {
    !InRange(ops[i].g) || exists j :: 0 <= j < i && ops[i].g < ops[j].g
  }

  predicate EverBroken(ops: seq<Op>) {
    exists i :: 0 <= i < |ops| && Broken(ops, i)
  }

  predicate TakenAtOrAbove(ops: seq<Op>, g: Generation) {
    exists i :: 0 <= i < |ops| && ops[i].Recorded? && g <= ops[i].g
  }

  /** What a history admits: a count in range, above every ownership ever taken,
      while no count was ever out of range or went backwards. */
  predicate Admitted(ops: seq<Op>, g: Generation) {
    InRange(g) && !TakenAtOrAbove(ops, g) && !EverBroken(ops)
  }

  /** The ownerships recorded, in order. */
  function Recordings(ops: seq<Op>): seq<Generation> {
    if ops == [] then []
    else Recordings(ops[..|ops| - 1]) + if ops[|ops| - 1].Recorded? then [ops[|ops| - 1].g] else []
  }

  lemma {:induction false} RecordingsAre(ops: seq<Op>, g: Generation)
    ensures g in Recordings(ops) <==> Recorded(g) in ops
  {
    if ops != [] {
      RecordingsAre(ops[..|ops| - 1], g);
      assert ops == ops[..|ops| - 1] + [ops[|ops| - 1]];
    }
  }

  lemma {:induction false} ObservedIsGreatest(ops: seq<Op>)
    ensures StateAfter(ops).observed.None? <==> ops == []
    ensures forall i :: 0 <= i < |ops| ==> ops[i].g <= StateAfter(ops).observed.value
    ensures ops != [] ==> exists i :: 0 <= i < |ops| && ops[i].g == StateAfter(ops).observed.value
  {
    if ops != [] {
      var front := ops[..|ops| - 1];
      ObservedIsGreatest(front);
      if front != [] {
        var i :| 0 <= i < |front| && front[i].g == StateAfter(front).observed.value;
        var greatest := StateAfter(ops).observed.value;
        assert ops[i] == front[i] && (ops[i].g == greatest || ops[|front|].g == greatest);
      }
    }
  }

  lemma {:induction false} BrokenOneMore(ops: seq<Op>, op: Op)
    ensures EverBroken(ops + [op]) <==> EverBroken(ops) || Broken(ops + [op], |ops|)
  {
    var more := ops + [op];
    forall i | 0 <= i < |ops| ensures Broken(more, i) <==> Broken(ops, i) {
      assert forall j :: 0 <= j < i ==> more[j] == ops[j];
    }
  }

  lemma {:induction false} QuarantinedWhenBroken(ops: seq<Op>)
    ensures StateAfter(ops).quarantined <==> EverBroken(ops)
  {
    if ops != [] {
      var front, op := ops[..|ops| - 1], ops[|ops| - 1];
      QuarantinedWhenBroken(front);
      ObservedIsGreatest(front);
      assert ops == front + [op];
      BrokenOneMore(front, op);
      if front != [] {
        var i :| 0 <= i < |front| && front[i].g == StateAfter(front).observed.value;
        assert ops[i] == front[i];
      }
    }
  }

  lemma {:induction false} FencedThroughTaken(ops: seq<Op>, g: Generation)
    ensures TakenAtOrAbove(ops, g) <==> StateAfter(ops).remoteThrough.Some? && g <= StateAfter(ops).remoteThrough.value
  {
    if ops != [] {
      var front, op := ops[..|ops| - 1], ops[|ops| - 1];
      FencedThroughTaken(front, g);
      assert ops == front + [op];
      if TakenAtOrAbove(front, g) {
        var i :| 0 <= i < |front| && front[i].Recorded? && g <= front[i].g;
        assert ops[i] == front[i];
      }
    }
  }

  /** The three fields admit exactly what the whole history does. */
  lemma {:induction false} AdmitsExactly(ops: seq<Op>, g: Generation)
    ensures Admits(StateAfter(ops), g) <==> Admitted(ops, g)
  {
    QuarantinedWhenBroken(ops);
    FencedThroughTaken(ops, g);
  }

  /** Whatever happens next, what is refused stays refused. */
  lemma {:induction false} RefusalIsFinal(ops: seq<Op>, later: seq<Op>, g: Generation)
    requires !Admits(StateAfter(ops), g)
    ensures !Admits(StateAfter(ops + later), g)
    decreases |later|
  {
    if later == [] {
      assert ops + later == ops;
    } else {
      RefusalIsFinal(ops, later[..|later| - 1], g);
      assert (ops + later)[..|ops + later| - 1] == ops + later[..|later| - 1];
    }
  }

  class ClipboardGate {
    var observed: Option<Generation>
    var remoteThrough: Option<Generation>
    var quarantined: bool
    ghost var ops: seq<Op>

    ghost predicate Valid()
      reads this
    {
      State(observed, remoteThrough, quarantined) == StateAfter(ops)
    }

    constructor ()
      ensures Valid() && ops == []
    {
      observed, remoteThrough, quarantined := None, None, false;
      ops := [];
    }

    method Raise(generation: Generation) returns (ok: bool)
      modifies this`observed, this`quarantined
      ensures State(observed, remoteThrough, quarantined)
        == AfterObserve(old(State(observed, remoteThrough, quarantined)), generation)
      ensures ok == !quarantined
    {
      if generation == 0 || generation > MAX_COUNT || (observed.Some? && generation < observed.value) {
        quarantined := true;
      }
      observed := Some(if observed.Some? && observed.value > generation then observed.value else generation);
      ok := !quarantined;
    }

    /** A current native observation; false once any count was ever broken. */
    method Observe(generation: Generation) returns (ok: bool)
      requires Valid()
      modifies this
      ensures Valid() && ops == old(ops) + [Observed(generation)]
      ensures ok <==> !EverBroken(ops)
    {
      ok := Raise(generation);
      ops := ops + [Observed(generation)];
      QuarantinedWhenBroken(ops);
    }

    /** An ownership just taken by the writer, before any payload is set. */
    method RecordRemote(generation: Generation) returns (ok: bool)
      requires Valid()
      modifies this
      ensures Valid() && ops == old(ops) + [Recorded(generation)]
      ensures ok <==> !EverBroken(ops)
    {
      ok := Raise(generation);
      remoteThrough := Some(
        if remoteThrough.Some? && remoteThrough.value > generation then remoteThrough.value else generation);
      ops := ops + [Recorded(generation)];
      QuarantinedWhenBroken(ops);
    }

    method Allows(generation: Generation) returns (ok: bool)
      requires Valid()
      ensures ok <==> Admitted(ops, generation)
    {
      ok := !quarantined && generation != 0 && generation <= MAX_COUNT
        && (remoteThrough.None? || generation > remoteThrough.value);
      AdmitsExactly(ops, generation);
    }

    /** The last gate before a sample leaves: contention discards it too. */
    method TryPublish(generation: Generation, busy: bool) returns (published: bool)
      requires Valid()
      ensures published <==> !busy && Admitted(ops, generation)
    {
      if busy {
        return false;
      }
      published := Allows(generation);
    }
  }
}
