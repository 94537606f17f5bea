/** Writing to the pasteboard with a receipt (input-emulation/src/
    clipboard_macos.rs), and sampling it for capture behind the fence
    (input-capture/src/clipboard_image.rs, clipboard.rs). */
module ClipboardTransfer {
  import opened Wrappers
  import opened ClipboardGate
  import opened Pasteboard

  datatype WriteError = Busy | NativeWrite | OwnershipLost | ReadbackMismatch

  datatype WriteResult = Receipt(generation: Generation) | Refused(error: WriteError)

  /** It counts every change of ownership, from a valid count on, and has not
      run out of counts. */
  ghost predicate Healthy(pb: Pasteboard)
    reads pb
  {
    pb.truthful && 0 < pb.start && pb.world.count <= MAX_COUNT
  }

  /** No count shown to the fence is above this one. */
  predicate Within(ops: seq<Op>, count: Generation) {
    StateAfter(ops).observed.Some? ==> StateAfter(ops).observed.value <= count
  }

  /** The fence knows exactly the ownerships taken, and no marker came first. */
  predicate Guarded(calls: seq<Native>, ops: seq<Op>) {
    Fenced(calls, ops) && PayloadFirst(calls)
  }

  ghost predicate Linked(pb: Pasteboard, gate: ClipboardGate)
    reads pb, gate
  {
    && pb.Valid() && gate.Valid() && Guarded(Calls(pb.timeline), gate.ops)
    && pb.start <= pb.world.count
    && (pb.truthful ==> Within(gate.ops, pb.world.count))
    && (Healthy(pb) ==> !EverBroken(gate.ops))
  }

  lemma {:induction false} LinkedAtFirst(pb: Pasteboard, gate: ClipboardGate)
    requires pb.Valid() && pb.timeline == [] && gate.Valid() && gate.ops == []
    ensures Linked(pb, gate)
  {
  }

  function Writes(bytes: Bytes, mark: Bytes): seq<Native> {
    [DataSet(false, bytes, true), DataSet(true, mark, true)]
  }

  function Reads(bytes: Bytes, mark: Bytes): seq<Native> {
    [Matched(true, mark, true), Matched(false, bytes, true)]
  }

  /** The answers that earn a receipt, in order. */
  function Verified(g: Generation, bytes: Bytes, mark: Bytes): seq<Native> {
    [Declared(g), CountRead(g)] + Writes(bytes, mark) + [CountRead(g)] + Reads(bytes, mark) + [CountRead(g)]
  }

  lemma {:induction false} VerifiedStepwise(calls: seq<Native>, g: Generation, bytes: Bytes, mark: Bytes)
    ensures calls + [Declared(g)] + [CountRead(g)] + Writes(bytes, mark) + [CountRead(g)] + Reads(bytes, mark)
      + [CountRead(g)] == calls + Verified(g, bytes, mark)
  {
  }

  lemma {:induction false} WritesView(calls: seq<Native>, g: Generation, bytes: Bytes, mark: Bytes)
    requires Seen(calls) == Some(View(g, None, None))
    ensures Seen(calls + Writes(bytes, mark)) == Some(View(g, Some(bytes), Some(mark)))
  {
    SeenOneMore(calls, DataSet(false, bytes, true));
    SeenOneMore(calls + [DataSet(false, bytes, true)], DataSet(true, mark, true));
    assert calls + Writes(bytes, mark) == calls + [DataSet(false, bytes, true)] + [DataSet(true, mark, true)];
  }

  lemma {:induction false} ReadsView(calls: seq<Native>, bytes: Bytes, mark: Bytes)
    ensures Seen(calls + Reads(bytes, mark)) == Seen(calls)
  {
    SeenOneMore(calls, Matched(true, mark, true));
    SeenOneMore(calls + [Matched(true, mark, true)], Matched(false, bytes, true));
    assert calls + Reads(bytes, mark) == calls + [Matched(true, mark, true)] + [Matched(false, bytes, true)];
  }

  /** After those answers, the writer has seen its own complete write last. */
  lemma {:induction false} VerifiedView(calls: seq<Native>, g: Generation, bytes: Bytes, mark: Bytes)
    ensures Seen(calls + Verified(g, bytes, mark)) == Some(View(g, Some(bytes), Some(mark)))
  {
    SeenOneMore(calls, Declared(g));
    SeenOneMore(calls + [Declared(g)], CountRead(g));
    var owned := calls + [Declared(g)] + [CountRead(g)];
    WritesView(owned, g, bytes, mark);
    SeenOneMore(owned + Writes(bytes, mark), CountRead(g));
    var written := owned + Writes(bytes, mark) + [CountRead(g)];
    ReadsView(written, bytes, mark);
    SeenOneMore(written + Reads(bytes, mark), CountRead(g));
    VerifiedStepwise(calls, g, bytes, mark);
  }

  lemma {:induction false} StillGuarded(calls: seq<Native>, call: Native, ops: seq<Op>)
    requires Guarded(calls, ops) && !call.Declared? && CompletesPayload(calls, call)
    ensures Guarded(calls + [call], ops)
  {
    FencedOneMore(calls, call, ops, Observed(0));
    PayloadFirstOneMore(calls, call);
  }

  lemma {:induction false} GuardsTaken(calls: seq<Native>, g: Generation, ops: seq<Op>)
    requires Guarded(calls, ops)
    ensures Guarded(calls + [Declared(g)], ops + [Recorded(g)])
    ensures Seen(calls + [Declared(g)]).Some?
  {
    FencedOneMore(calls, Declared(g), ops, Recorded(g));
    PayloadFirstOneMore(calls, Declared(g));
    SeenOneMore(calls, Declared(g));
  }

  lemma {:induction false} GuardsObserved(calls: seq<Native>, g: Generation, ops: seq<Op>)
    requires Guarded(calls, ops)
    ensures Guarded(calls + [CountRead(g)], ops + [Observed(g)])
  {
    FencedOneMore(calls, CountRead(g), ops, Observed(g));
    PayloadFirstOneMore(calls, CountRead(g));
  }

  /** A count in range that is not below any other breaks nothing. */
  lemma {:induction false} CurrentIsUnbroken(ops: seq<Op>, op: Op)
    requires Within(ops, op.g)
    ensures Within(ops + [op], op.g)
    ensures InRange(op.g) && !EverBroken(ops) ==> !EverBroken(ops + [op])
  {
    assert (ops + [op])[..|ops|] == ops;
    QuarantinedWhenBroken(ops);
    QuarantinedWhenBroken(ops + [op]);
  }

  // ------------------------------------------------------ judging the answers

  predicate SetsHold(made: seq<Native>) {
    forall i :: 0 <= i < |made| && made[i].DataSet? ==> made[i].ok
  }

  predicate CountsHold(made: seq<Native>, g: Generation) {
    forall i :: 0 <= i < |made| && made[i].CountRead? ==> made[i].g == g
  }

  predicate MatchesHold(made: seq<Native>) {
    forall i :: 0 <= i < |made| && made[i].Matched? ==> made[i].ok
  }

  predicate SamplesHold(made: seq<Native>) {
    forall i :: 0 <= i < |made| && made[i].Sampled? ==> made[i].present
  }

  /** What the answers amount to: a failed write comes before everything, a count
      that moved before a failed readback. */
  function Verdict(made: seq<Native>, g: Generation): Option<WriteError> {
    if !SetsHold(made) then Some(NativeWrite)
    else if !CountsHold(made, g) then Some(OwnershipLost)
    else if !MatchesHold(made) then Some(ReadbackMismatch)
    else None
  }

  lemma {:induction false} JudgedTogether(a: seq<Native>, b: seq<Native>, g: Generation)
    ensures SetsHold(a + b) <==> SetsHold(a) && SetsHold(b)
    ensures CountsHold(a + b, g) <==> CountsHold(a, g) && CountsHold(b, g)
    ensures MatchesHold(a + b) <==> MatchesHold(a) && MatchesHold(b)
  {
    var ab := a + b;
    assert forall i :: 0 <= i < |a| ==> a[i] == ab[i];
    assert forall i :: 0 <= i < |b| ==> b[i] == ab[|a| + i];
  }

  /** The answers of one write, in the order they are asked for. */
  datatype Answers = Answers(
    owned: Generation, payload: bool, marker: bool, written: Generation,
    markerRead: bool, payloadRead: bool, kept: Generation)

  function ReadsOf(a: Answers, bytes: Bytes, mark: Bytes): seq<Native> {
    [Matched(true, mark, a.markerRead)] + if a.markerRead then [Matched(false, bytes, a.payloadRead)] else []
  }

  function WritesOf(a: Answers, bytes: Bytes, mark: Bytes): seq<Native> {
    [DataSet(false, bytes, a.payload)] + if a.payload then [DataSet(true, mark, a.marker)] else []
  }

  lemma {:induction false} PartsStepwise(calls: seq<Native>, a: Answers, bytes: Bytes, mark: Bytes)
    ensures calls + [Matched(true, mark, a.markerRead)]
      + (if a.markerRead then [Matched(false, bytes, a.payloadRead)] else []) == calls + ReadsOf(a, bytes, mark)
    ensures calls + [DataSet(false, bytes, a.payload)] + (if a.payload then [DataSet(true, mark, a.marker)] else [])
      == calls + WritesOf(a, bytes, mark)
  {
  }

  /** The calls made until the answers say stop: a count that moved or a failed
      write stops at once, a failed readback after one last look at the count. */
  function Asked(a: Answers, g: Generation, bytes: Bytes, mark: Bytes): seq<Native> {
    var readBack := ReadsOf(a, bytes, mark) + [CountRead(a.kept)];
    var checked := [CountRead(a.written)] + if a.written == g then readBack else [];
    var written := WritesOf(a, bytes, mark) + if a.payload && a.marker then checked else [];
    [CountRead(a.owned)] + if a.owned == g then written else []
  }

  /** Everything one write asks of the pasteboard. */
  function WholeWrite(ops: seq<Op>, a: Answers, g: Generation, bytes: Bytes, mark: Bytes): seq<Native> {
    [Declared(g)] + if EverBroken(ops) then [] else Asked(a, g, bytes, mark)
  }

  lemma {:induction false} PartsJudged(a: Answers, bytes: Bytes, mark: Bytes, g: Generation)
    ensures var made := ReadsOf(a, bytes, mark);
      SetsHold(made) && CountsHold(made, g) && (MatchesHold(made) <==> a.markerRead && a.payloadRead)
    ensures var made := WritesOf(a, bytes, mark);
      (SetsHold(made) <==> a.payload && a.marker) && CountsHold(made, g) && MatchesHold(made)
  {
    assert ReadsOf(a, bytes, mark)[0] == Matched(true, mark, a.markerRead);
    assert WritesOf(a, bytes, mark)[0] == DataSet(false, bytes, a.payload);
    assert a.markerRead ==> ReadsOf(a, bytes, mark)[1] == Matched(false, bytes, a.payloadRead);
    assert a.payload ==> WritesOf(a, bytes, mark)[1] == DataSet(true, mark, a.marker);
  }

  lemma {:induction false} CountJudged(count: Generation, g: Generation)
    ensures SetsHold([CountRead(count)]) && MatchesHold([CountRead(count)])
    ensures CountsHold([CountRead(count)], g) <==> count == g
  {
    assert [CountRead(count)][0] == CountRead(count);
  }

  lemma {:induction false} AskedJudged(a: Answers, g: Generation, bytes: Bytes, mark: Bytes)
    ensures Verdict(Asked(a, g, bytes, mark), g) ==
      if a.owned != g then Some(OwnershipLost)
      else if !(a.payload && a.marker) then Some(NativeWrite)
      else if a.written != g || a.kept != g then Some(OwnershipLost)
      else if !(a.markerRead && a.payloadRead) then Some(ReadbackMismatch)
      else None
  {
    PartsJudged(a, bytes, mark, g);
    CountJudged(a.owned, g);
    CountJudged(a.written, g);
    CountJudged(a.kept, g);
    var readBack := ReadsOf(a, bytes, mark) + [CountRead(a.kept)];
    JudgedTogether(ReadsOf(a, bytes, mark), [CountRead(a.kept)], g);
    var afterCheck := if a.written == g then readBack else [];
    JudgedTogether([CountRead(a.written)], afterCheck, g);
    var afterWrites := if a.payload && a.marker then [CountRead(a.written)] + afterCheck else [];
    JudgedTogether(WritesOf(a, bytes, mark), afterWrites, g);
    var afterOwned := if a.owned == g then WritesOf(a, bytes, mark) + afterWrites else [];
    JudgedTogether([CountRead(a.owned)], afterOwned, g);
  }

  /** The same calls one after the other, up to where the answers say stop. */
  lemma {:induction false} AskedStepwise(calls: seq<Native>, a: Answers, g: Generation, bytes: Bytes, mark: Bytes)
    ensures var all := calls + Asked(a, g, bytes, mark);
      var owned := calls + [CountRead(a.owned)];
      var written := owned + WritesOf(a, bytes, mark);
      var checked := written + [CountRead(a.written)];
      var readBack := checked + ReadsOf(a, bytes, mark);
      && (a.owned != g ==> all == owned)
      && (a.owned == g && !(a.payload && a.marker) ==> all == written)
      && (a.owned == g && a.payload && a.marker && a.written != g ==> all == checked)
      && (a.owned == g && a.payload && a.marker && a.written == g ==> all == readBack + [CountRead(a.kept)])
  {
  }

  function Outcome(ops: seq<Op>, made: seq<Native>, g: Generation): WriteResult {
    if EverBroken(ops) then Refused(OwnershipLost)
    else match Verdict(made, g)
      case None => Receipt(g)
      case Some(error) => Refused(error)
  }

  // ------------------------------------------------------------- the protocol

  /** Takes the pasteboard and fences the new ownership before anything else. */
  method TakeOwnership(pb: Pasteboard, gate: ClipboardGate) returns (g: Generation, valid: bool)
    requires Linked(pb, gate)
    modifies pb, gate
    ensures Linked(pb, gate) && (pb.truthful ==> pb.world.count == g)
    ensures gate.ops == old(gate.ops) + [Recorded(g)] && (valid <==> !EverBroken(gate.ops))
    ensures Calls(pb.timeline) == Calls(old(pb.timeline)) + [Declared(g)] && Seen(Calls(pb.timeline)).Some?
  {
    g := pb.Declare();
    valid := gate.RecordRemote(g);
    GuardsTaken(Calls(old(pb.timeline)), g, old(gate.ops));
    if pb.truthful {
      CurrentIsUnbroken(old(gate.ops), Recorded(g));
    }
  }

  method StillOwned(pb: Pasteboard, gate: ClipboardGate, g: Generation) returns (same: bool, ghost count: Generation)
    requires Linked(pb, gate)
    modifies pb
    ensures Linked(pb, gate) && pb.sampledOurs == old(pb.sampledOurs)
    ensures Seen(Calls(pb.timeline)) == Seen(Calls(old(pb.timeline)))
    ensures Calls(pb.timeline) == Calls(old(pb.timeline)) + [CountRead(count)]
    ensures same <==> count == g
    ensures pb.truthful ==> pb.world.count == count
    ensures pb.world.count >= old(pb.world.count)
    ensures pb.world.count == old(pb.world.count) ==> pb.world == old(pb.world)
  {
    var current := pb.Count();
    count := current;
    StillGuarded(Calls(old(pb.timeline)), CountRead(count), gate.ops);
    SeenOneMore(Calls(old(pb.timeline)), CountRead(count));
    same := current == g;
  }

  /** Content first, so that no marker stands without its payload. */
  method WriteBoth(pb: Pasteboard, gate: ClipboardGate, bytes: Bytes, mark: Bytes, ghost before: Answers)
      returns (ok: bool, ghost a: Answers)
    requires Linked(pb, gate) && Seen(Calls(pb.timeline)).Some?
    modifies pb
    ensures Linked(pb, gate) && pb.world.count >= old(pb.world.count)
    ensures a == before.(payload := a.payload, marker := a.marker) && (ok <==> a.payload && a.marker)
    ensures Calls(pb.timeline) == Calls(old(pb.timeline)) + WritesOf(a, bytes, mark)
  {
    ok := pb.SetData(false, bytes, gate);
    a := before.(payload := ok);
    StillGuarded(Calls(old(pb.timeline)), DataSet(false, bytes, ok), gate.ops);
    SeenOneMore(Calls(old(pb.timeline)), DataSet(false, bytes, ok));
    if ok {
      ghost var calls := Calls(pb.timeline);
      ok := pb.SetData(true, mark, gate);
      a := a.(marker := ok);
      StillGuarded(calls, DataSet(true, mark, ok), gate.ops);
    }
    PartsStepwise(Calls(old(pb.timeline)), a, bytes, mark);
  }

  method MatchesBack(pb: Pasteboard, gate: ClipboardGate, marker: bool, bytes: Bytes) returns (ok: bool)
    requires Linked(pb, gate)
    modifies pb
    ensures Linked(pb, gate) && pb.world.count >= old(pb.world.count)
    ensures Calls(pb.timeline) == Calls(old(pb.timeline)) + [Matched(marker, bytes, ok)]
  {
    ok := pb.Matches(marker, bytes);
    StillGuarded(Calls(old(pb.timeline)), Matched(marker, bytes, ok), gate.ops);
  }

  method ReadBack(pb: Pasteboard, gate: ClipboardGate, bytes: Bytes, mark: Bytes, ghost before: Answers)
      returns (ok: bool, ghost a: Answers)
    requires Linked(pb, gate)
    modifies pb
    ensures Linked(pb, gate) && pb.world.count >= old(pb.world.count)
    ensures a == before.(markerRead := a.markerRead, payloadRead := a.payloadRead)
    ensures ok <==> a.markerRead && a.payloadRead
    ensures Calls(pb.timeline) == Calls(old(pb.timeline)) + ReadsOf(a, bytes, mark)
  {
    ok := MatchesBack(pb, gate, true, mark);
    a := before.(markerRead := ok);
    if ok {
      ok := MatchesBack(pb, gate, false, bytes);
      a := a.(payloadRead := ok);
    }
    PartsStepwise(Calls(old(pb.timeline)), a, bytes, mark);
  }

  /** Everything after the fence is up: no failure may stop short of an error. */
  method WriteAndVerify(pb: Pasteboard, gate: ClipboardGate, g: Generation, bytes: Bytes, mark: Bytes)
      returns (error: Option<WriteError>, ghost a: Answers)
    requires Linked(pb, gate) && Seen(Calls(pb.timeline)).Some?
    modifies pb
    ensures Linked(pb, gate) && pb.world.count >= old(pb.world.count)
    ensures Calls(pb.timeline) == Calls(old(pb.timeline)) + Asked(a, g, bytes, mark)
    ensures error == Verdict(Asked(a, g, bytes, mark), g)
    ensures pb.truthful && error.None? ==> pb.world.count == g
    ensures pb.truthful && error == Some(OwnershipLost) ==> pb.world.count != g
  {
    var same, written, matches;
    ghost var calls, count := Calls(pb.timeline), 0;
    a := Answers(0, false, false, 0, false, false, 0);
    same, count := StillOwned(pb, gate, g);
    a := a.(owned := count);
    if !same {
      AskedStepwise(calls, a, g, bytes, mark);
      AskedJudged(a, g, bytes, mark);
      return Some(OwnershipLost), a;
    }
    written, a := WriteBoth(pb, gate, bytes, mark, a);
    if !written {
      AskedStepwise(calls, a, g, bytes, mark);
      AskedJudged(a, g, bytes, mark);
      return Some(NativeWrite), a;
    }
    same, count := StillOwned(pb, gate, g);
    a := a.(written := count);
    if !same {
      AskedStepwise(calls, a, g, bytes, mark);
      AskedJudged(a, g, bytes, mark);
      return Some(OwnershipLost), a;
    }
    matches, a := ReadBack(pb, gate, bytes, mark, a);
    same, count := StillOwned(pb, gate, g);
    a := a.(kept := count);
    AskedStepwise(calls, a, g, bytes, mark);
    AskedJudged(a, g, bytes, mark);
    if !same {
      return Some(OwnershipLost), a;
    }
    return if matches then None else Some(ReadbackMismatch), a;
  }

  /** The write itself, fence in hand. Whatever fails later, the ownership taken
      stays fenced; the outcome is exactly what the answers amount to, and a
      receipt means nobody else owned the pasteboard from the declaration to the
      last check, and it holds exactly what was written. */
  method PublishFenced(pb: Pasteboard, bytes: Bytes, mark: Bytes, gate: ClipboardGate)
      returns (r: WriteResult, ghost taken: Generation, ghost a: Answers)
    requires Linked(pb, gate)
    modifies pb, gate
    ensures Linked(pb, gate)
    ensures gate.ops == old(gate.ops) + [Recorded(taken)]
    ensures Calls(pb.timeline) == Calls(old(pb.timeline)) 
      + WholeWrite(gate.ops, a, taken, bytes, mark)
    ensures r == Outcome(gate.ops, Asked(a, taken, bytes, mark), taken)
    ensures r.Receipt? ==> Calls(pb.timeline) == Calls(old(pb.timeline)) + Verified(taken, bytes, mark)
    ensures r.Receipt? && pb.truthful ==> pb.world == World(taken, true, Some(bytes), Some(mark))
    ensures Healthy(pb) ==> !EverBroken(gate.ops) && (r == Refused(OwnershipLost) ==> pb.world.count > taken)
  {
    ghost var calls := Calls(pb.timeline);
    a := Answers(0, false, false, 0, false, false, 0);
    var generation, valid := TakeOwnership(pb, gate);
    taken := generation;
    if !valid {
      WholeWriteStepwise(calls, gate.ops, a, taken, bytes, mark);
      return Refused(OwnershipLost), taken, a;
    }
    var error;
    error, a := WriteAndVerify(pb, gate, generation, bytes, mark);
    WholeWriteStepwise(calls, gate.ops, a, taken, bytes, mark);
    if error.Some? {
      return Refused(error.value), taken, a;
    }
    r := Receipt(generation);
    AskedInFull(calls, a, generation, bytes, mark);
    ReceiptMeansOwned(pb, calls, generation, bytes, mark);
  }

  lemma {:induction false} WholeWriteStepwise(
      calls: seq<Native>, ops: seq<Op>, a: Answers, g: Generation, bytes: Bytes, mark: Bytes)
    ensures calls + WholeWrite(ops, a, g, bytes, mark)
      == calls + [Declared(g)] + if EverBroken(ops) then [] else Asked(a, g, bytes, mark)
  {
  }

  lemma {:induction false} AskedInFull(calls: seq<Native>, a: Answers, g: Generation, bytes: Bytes, mark: Bytes)
    requires Verdict(Asked(a, g, bytes, mark), g).None?
    ensures calls + [Declared(g)] + Asked(a, g, bytes, mark) == calls + Verified(g, bytes, mark)
  {
    AskedJudged(a, g, bytes, mark);
  }

  lemma {:induction false} ReceiptMeansOwned(
      pb: Pasteboard, calls: seq<Native>, g: Generation, bytes: Bytes, mark: Bytes)
    requires pb.Valid() && Calls(pb.timeline) == calls + Verified(g, bytes, mark)
    requires pb.truthful ==> pb.world.count == g
    ensures pb.truthful ==> pb.world == World(g, true, Some(bytes), Some(mark))
  {
    VerifiedView(calls, g, bytes, mark);
    if pb.truthful {
      CountTellsOwnership(pb.start, pb.timeline);
    }
  }

  /** A writer that cannot have the fence at once touches nothing. */
  method Publish(pb: Pasteboard, bytes: Bytes, mark: Bytes, gate: ClipboardGate, busy: bool)
      returns (r: WriteResult, ghost taken: Generation, ghost a: Answers)
    requires Linked(pb, gate)
    modifies pb, gate
    ensures Linked(pb, gate)
    ensures busy ==> r == Refused(Busy) && pb.timeline == old(pb.timeline) && gate.ops == old(gate.ops)
    ensures !busy ==> gate.ops == old(gate.ops) + [Recorded(taken)]
    ensures !busy ==> r == Outcome(gate.ops, Asked(a, taken, bytes, mark), taken)
    ensures !busy ==>
      Calls(pb.timeline) == Calls(old(pb.timeline)) + WholeWrite(gate.ops, a, taken, bytes, mark)
    ensures r.Receipt? && pb.truthful ==> pb.world == World(taken, true, Some(bytes), Some(mark))
  {
    if busy {
      return Refused(Busy), 0, Answers(0, false, false, 0, false, false, 0);
    }
    r, taken, a := PublishFenced(pb, bytes, mark, gate);
  }

  // ---------------------------------------------------------------- capture

  function Accepted(generations: seq<Generation>): set<Generation> {
    set g | g in generations && InRange(g)
  }

  predicate AllBelow(generations: set<Generation>, bound: Generation) {
    forall g :: g in generations ==> g < bound
  }

  /** The capture-side fence: every registered write generation and all before
      it are dropped (`MacCaptureFence`). */
  class CaptureFence {
    var through: Option<Generation>
    ghost var registered: set<Generation>

    ghost predicate Valid()
      reads this
    {
      && (forall g :: g in registered ==> InRange(g) && through.Some? && g <= through.value)
      && (through.Some? ==> through.value in registered)
    }

    constructor ()
      ensures Valid() && registered == {}
    {
      through, registered := None, {};
    }

    method Register(generation: Generation) returns (ok: bool)
      requires Valid()
      modifies this
      ensures Valid() && (ok <==> InRange(generation))
      ensures registered == old(registered) + if ok then {generation} else {}
    {
      if generation == 0 || generation > MAX_COUNT {
        return false;
      }
      through := Some(if through.Some? && through.value > generation then through.value else generation);
      registered := registered + {generation};
      ok := true;
    }

    /** Registrations that other threads make meanwhile. */
    method Others(generations: seq<Generation>)
      requires Valid()
      modifies this
      ensures Valid() && registered == old(registered) + Accepted(generations)
    {
      for i := 0 to |generations|
        invariant Valid() && registered == old(registered) + Accepted(generations[..i])
      {
        var _ := Register(generations[i]);
        assert generations[..i + 1] == generations[..i] + [generations[i]];
      }
      assert generations[..|generations|] == generations;
    }

    method Allows(generation: Generation) returns (ok: bool)
      requires Valid()
      ensures ok <==> InRange(generation) && AllBelow(registered, generation)
    {
      ok := generation != 0 && generation <= MAX_COUNT && (through.None? || generation > through.value);
    }
  }

  /** A generation the fence admits is none the writer took, and on a truthful
      pasteboard somebody else owns it. */
  lemma {:induction false} AdmittedIsForeign(pb: Pasteboard, gate: ClipboardGate, g: Generation)
    requires Linked(pb, gate) && !TakenAtOrAbove(gate.ops, g)
    ensures Declared(g) !in Calls(pb.timeline)
    ensures pb.truthful && pb.world.count == g ==> !pb.world.ours
  {
    if pb.truthful {
      CountTellsOwnership(pb.start, pb.timeline);
      SeenWasDeclared(Calls(pb.timeline));
    }
    FencedKnowsTaken(Calls(pb.timeline), gate.ops, g);
  }

  /** And in every run on a healthy pasteboard the fence admits the current count
      exactly while somebody else owns it: no write or sample ever shuts out a
      later foreign ownership. */
  lemma {:induction false} ForeignIsAdmitted(pb: Pasteboard, gate: ClipboardGate)
    requires Linked(pb, gate) && Healthy(pb)
    ensures Admitted(gate.ops, pb.world.count) <==> !pb.world.ours
  {
    var count := pb.world.count;
    CountTellsOwnership(pb.start, pb.timeline);
    if TakenAtOrAbove(gate.ops, count) {
      var i :| 0 <= i < |gate.ops| && gate.ops[i].Recorded? && count <= gate.ops[i].g;
      FencedKnowsTaken(Calls(pb.timeline), gate.ops, gate.ops[i].g);
      TakenIsSeen(pb.start, pb.timeline, gate.ops[i].g);
    } else {
      AdmittedIsForeign(pb, gate, count);
    }
  }

  /** A current count shown to the fence, and the fence's verdict on it. */
  method Admit(pb: Pasteboard, gate: ClipboardGate) returns (g: Generation, ok: bool)
    requires Linked(pb, gate)
    modifies pb, gate
    ensures Linked(pb, gate) && gate.ops == old(gate.ops) + [Observed(g)]
    ensures Calls(pb.timeline) == Calls(old(pb.timeline)) + [CountRead(g)]
    ensures ok <==> Admitted(gate.ops, g)
    ensures pb.truthful ==> pb.world.count == g && (ok ==> !pb.world.ours)
    ensures Healthy(pb) ==> (ok <==> !pb.world.ours)
  {
    g := pb.Count();
    ok := gate.Observe(g);
    GuardsObserved(Calls(old(pb.timeline)), g, old(gate.ops));
    if pb.truthful {
      CurrentIsUnbroken(old(gate.ops), Observed(g));
    }
    if ok {
      ok := gate.Allows(g);
    }
    if ok {
      AdmittedIsForeign(pb, gate, g);
    }
    if Healthy(pb) {
      ForeignIsAdmitted(pb, gate);
    }
  }

  /** The data read, unless the capture fence forbids it, and another look at the
      count. */
  function Reading(sampled: Option<bool>, again: Generation): seq<Native> {
    (if sampled.Some? then [Sampled(sampled.value)] else []) + [CountRead(again)]
  }

  lemma {:induction false} ReadingStepwise(calls: seq<Native>, sampled: Option<bool>, again: Generation)
    ensures calls + Reading(sampled, again)
      == (if sampled.Some? then calls + [Sampled(sampled.value)] else calls) + [CountRead(again)]
  {
  }

  method Sample(pb: Pasteboard, gate: ClipboardGate) returns (data: Option<Bytes>)
    requires Linked(pb, gate)
    modifies pb
    ensures Linked(pb, gate) && Calls(pb.timeline) == Calls(old(pb.timeline)) + [Sampled(data.Some?)]
    ensures pb.sampledOurs == pb.world.ours && pb.world.count >= old(pb.world.count)
    ensures pb.world.count == old(pb.world.count) ==> pb.world == old(pb.world)
  {
    data := pb.Sample();
    StillGuarded(Calls(old(pb.timeline)), Sampled(data.Some?), gate.ops);
  }

  lemma {:induction false} ReadingJudged(
      calls: seq<Native>, g: Generation, sampled: Option<bool>, again: Generation)
    ensures calls + [CountRead(g)] + Reading(sampled, again) == calls + ([CountRead(g)] + Reading(sampled, again))
    ensures var made := [CountRead(g)] + Reading(sampled, again);
      && (CountsHold(made, g) <==> again == g) && (SamplesHold(made) <==> sampled != Some(false))
      && (again == g && sampled == Some(true) ==> made == [CountRead(g), Sampled(true), CountRead(g)])
  {
    var made := [CountRead(g)] + Reading(sampled, again);
    assert made[0] == CountRead(g) && made[|made| - 1] == CountRead(again);
    assert sampled.Some? ==> made[1] == Sampled(sampled.value);
  }

  method ReadData(pb: Pasteboard, gate: ClipboardGate, fence: CaptureFence, g: Generation, meanwhile: seq<Generation>)
      returns (data: Option<Bytes>, same: bool, allowed: bool, ghost sampled: Option<bool>, ghost again: Generation)
    requires Linked(pb, gate) && fence.Valid() && InRange(g)
    modifies pb, fence
    ensures Linked(pb, gate) && fence.Valid() && fence.registered == old(fence.registered) + Accepted(meanwhile)
    ensures sampled == if AllBelow(old(fence.registered), g) then Some(data.Some?) else None
    ensures Calls(pb.timeline) == Calls(old(pb.timeline)) + Reading(sampled, again) && (same <==> again == g)
    ensures allowed <==> AllBelow(old(fence.registered), g) && AllBelow(Accepted(meanwhile), g)
    ensures data.Some? ==> sampled.Some?
    ensures pb.truthful ==> pb.world.count == again
    ensures pb.truthful && old(pb.world.count) == again ==>
      pb.world == old(pb.world) && (sampled.Some? ==> pb.sampledOurs == pb.world.ours)
  {
    data, sampled := None, None;
    allowed := fence.Allows(g);
    if allowed {
      data := Sample(pb, gate);
      sampled := Some(data.Some?);
    }
    fence.Others(meanwhile);
    same, again := StillOwned(pb, gate, g);
    ReadingStepwise(Calls(old(pb.timeline)), sampled, again);
    allowed := fence.Allows(g);
  }

  class ImageReader {
    var last: Option<Generation>

    constructor ()
      ensures last == None
    {
      last := None;
    }

    /** One sample per generation, whatever becomes of it. */
    method Consume(generation: Generation) returns (unseen: bool)
      modifies this
      ensures unseen <==> old(last) != Some(generation)
      ensures last == Some(generation)
    {
      if last == Some(generation) {
        return false;
      }
      last := Some(generation);
      unseen := true;
    }

    /** One capture attempt. It releases a sample exactly when every check passed
        and every answer was right, and what it releases is one unbroken foreign
        ownership: never a generation the writer has taken, and on a truthful
        pasteboard never data read while the writer owned it. */
    method SampleInner(pb: Pasteboard, gate: ClipboardGate, fence: CaptureFence,
        busy: bool, privacyBefore: bool, privacyAfter: bool, meanwhile: seq<Generation>, echoed: bool)
        returns (r: Option<Generation>, ghost g: Generation, ghost made: seq<Native>)
      requires Linked(pb, gate) && fence.Valid()
      modifies this, pb, gate, fence
      ensures Linked(pb, gate) && fence.Valid()
      ensures busy ==> r.None? && last == old(last) && pb.timeline == old(pb.timeline) && gate.ops == old(gate.ops)
      ensures !busy ==> gate.ops == old(gate.ops) + [Observed(g)]
      ensures !busy ==> Calls(pb.timeline) == Calls(old(pb.timeline)) + made
      ensures !busy ==> last == if Admitted(gate.ops, g) then Some(g) else old(last)
      ensures r.Some? <==>
        && !busy && Admitted(gate.ops, g) && old(last) != Some(g)
        && privacyBefore && privacyAfter && !echoed
        && AllBelow(old(fence.registered), g) && AllBelow(Accepted(meanwhile), g)
        && CountsHold(made, g) && SamplesHold(made)
      ensures r.Some? ==> r == Some(g) && made == [CountRead(g), Sampled(true), CountRead(g)]
      ensures r.Some? ==> Declared(g) !in Calls(pb.timeline)
      ensures r.Some? && pb.truthful ==> !pb.sampledOurs && !pb.world.ours && pb.world.count == g
    {
      if busy {
        return None, 0, [];
      }
      r := None;
      ghost var calls := Calls(pb.timeline);
      var generation, admitted := Admit(pb, gate);
      g, made := generation, [CountRead(generation)];
      if !admitted {
        return;
      }
      var unseen := Consume(generation);
      if !unseen || !privacyBefore {
        return;
      }
      var data, same, allowed;
      ghost var sampled, again;
      data, same, allowed, sampled, again := ReadData(pb, gate, fence, generation, meanwhile);
      made := [CountRead(g)] + Reading(sampled, again);
      ReadingJudged(calls, g, sampled, again);
      if !same || !privacyAfter || !allowed || data.None? || echoed {
        return;
      }
      AdmittedIsForeign(pb, gate, generation);
      r := Some(generation);
    }
  }
}
