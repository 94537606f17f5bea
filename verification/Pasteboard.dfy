/** The macOS pasteboard as its users see it (the Pasteboard seam of
    input-emulation/src/clipboard_macos.rs): any native call may fail or answer
    anything, and other programs may take it over at any moment. A truthful
    pasteboard counts every change of ownership. */
module Pasteboard {
  import opened Wrappers
  import opened ClipboardGate

  type Bytes = seq<nat>

  datatype Native =
    | Foreign
    | Declared(g: Generation)
    | CountRead(g: Generation)
    | DataSet(marker: bool, bytes: Bytes, ok: bool)
    | Matched(marker: bool, bytes: Bytes, ok: bool)
    | Sampled(present: bool)

  datatype World = World(count: Generation, ours: bool, payload: Option<Bytes>, marker: Option<Bytes>)

  function Written(w: World, marker: bool, bytes: Bytes): World {
    if marker then w.(marker := Some(bytes)) else w.(payload := Some(bytes))
  }

  function Next(w: World, event: Native): World {
    match event
    case Foreign => World(w.count + 1, false, None, None)
    case Declared(_) => World(w.count + 1, true, None, None)
    case DataSet(marker, bytes, ok) => if ok then Written(w, marker, bytes) else w
    case _ => w
  }

  /** Answers a pasteboard that counts ownership changes can give. */
  predicate Fits(w: World, event: Native) {
    match event
    case Foreign => true
    case Declared(g) => g == w.count + 1
    case CountRead(g) => g == w.count
    case DataSet(_, _, ok) => ok ==> w.ours
    case Matched(marker, bytes, ok) => ok && w.ours ==> (if marker then w.marker else w.payload) == Some(bytes)
    case Sampled(_) => true
  }

  function WorldAfter(start: Generation, timeline: seq<Native>): World {
    if timeline == [] then World(start, false, None, None)
    else Next(WorldAfter(start, timeline[..|timeline| - 1]), timeline[|timeline| - 1])
  }

  predicate Truthful(start: Generation, timeline: seq<Native>) {
    timeline == []
    || (Truthful(start, timeline[..|timeline| - 1])
        && Fits(WorldAfter(start, timeline[..|timeline| - 1]), timeline[|timeline| - 1]))
  }

  lemma {:induction false} OneMore(start: Generation, timeline: seq<Native>, event: Native)
    ensures WorldAfter(start, timeline + [event]) == Next(WorldAfter(start, timeline), event)
    ensures Truthful(start, timeline + [event])
      == (Truthful(start, timeline) && Fits(WorldAfter(start, timeline), event))
    ensures Calls(timeline + [event]) == Calls(timeline) + if event.Foreign? then [] else [event]
  {
    assert (timeline + [event])[..|timeline|] == timeline;
  }

  // ------------------------------------------------- what one process can know

  /** Its own calls and their answers. */
  function Calls(timeline: seq<Native>): seq<Native> {
    if timeline == [] then []
    else
      Calls(timeline[..|timeline| - 1])
      + if timeline[|timeline| - 1].Foreign? then [] else [timeline[|timeline| - 1]]
  }

  /** The last ownership it took, and what it wrote since. */
  datatype View = View(g: Generation, payload: Option<Bytes>, marker: Option<Bytes>)

  function SeenAfter(v: Option<View>, call: Native): Option<View> {
    match call
    case Declared(g) => Some(View(g, None, None))
    case DataSet(marker, bytes, ok) =>
      if !ok || v.None? then v
      else Some(if marker then v.value.(marker := Some(bytes)) else v.value.(payload := Some(bytes)))
    case _ => v
  }

  function Seen(calls: seq<Native>): Option<View> {
    if calls == [] then None else SeenAfter(Seen(calls[..|calls| - 1]), calls[|calls| - 1])
  }

  lemma {:induction false} SeenOneMore(calls: seq<Native>, call: Native)
    ensures Seen(calls + [call]) == SeenAfter(Seen(calls), call)
  {
    assert (calls + [call])[..|calls|] == calls;
  }

  lemma {:induction false} SeenWasDeclared(calls: seq<Native>)
    ensures Seen(calls).Some? ==> Declared(Seen(calls).value.g) in calls
  {
    if calls != [] {
      SeenWasDeclared(calls[..|calls| - 1]);
      assert calls == calls[..|calls| - 1] + [calls[|calls| - 1]];
    }
  }

  /** On a truthful pasteboard the count says whether ownership survived: while
      it equals the count of the last ownership taken, nobody else has owned the
      pasteboard since, and it holds what was written since. */
  lemma {:induction false} CountTellsOwnership(start: Generation, timeline: seq<Native>)
    requires Truthful(start, timeline)
    ensures var w, v := WorldAfter(start, timeline), Seen(Calls(timeline));
      && (w.ours ==> v == Some(View(w.count, w.payload, w.marker)))
      && (v.Some? ==> v.value.g <= w.count && (v.value.g == w.count ==> w.ours))
  {
    if timeline != [] {
      var front, last := timeline[..|timeline| - 1], timeline[|timeline| - 1];
      CountTellsOwnership(start, front);
      if last.Foreign? {
        assert Calls(timeline) == Calls(front);
      } else {
        SeenOneMore(Calls(front), last);
      }
    }
  }

  /** On a truthful pasteboard the last ownership taken is the greatest. */
  lemma {:induction false} TakenIsSeen(start: Generation, timeline: seq<Native>, g: Generation)
    requires Truthful(start, timeline) && Declared(g) in Calls(timeline)
    ensures Seen(Calls(timeline)).Some? && g <= Seen(Calls(timeline)).value.g
  {
    if timeline != [] {
      var front, last := timeline[..|timeline| - 1], timeline[|timeline| - 1];
      CountTellsOwnership(start, front);
      if Declared(g) in Calls(front) {
        TakenIsSeen(start, front, g);
      } else {
        assert last == Declared(g);
      }
      if last.Foreign? {
        assert Calls(timeline) == Calls(front);
      } else {
        SeenOneMore(Calls(front), last);
      }
    }
  }

  /** Counts never go back, and a later ownership has a greater count. */
  lemma {:induction false} CountsGrow(start: Generation, timeline: seq<Native>, more: seq<Native>)
    ensures WorldAfter(start, timeline).count <= WorldAfter(start, timeline + more).count
    ensures (exists i :: 0 <= i < |more| && (more[i].Foreign? || more[i].Declared?)) ==>
      WorldAfter(start, timeline).count < WorldAfter(start, timeline + more).count
    decreases |more|
  {
    if more == [] {
      assert timeline + more == timeline;
    } else {
      var front := more[..|more| - 1];
      CountsGrow(start, timeline, front);
      assert timeline + more == timeline + front + [more[|more| - 1]];
      OneMore(start, timeline + front, more[|more| - 1]);
      if i :| 0 <= i < |more| && (more[i].Foreign? || more[i].Declared?) {
        assert i < |front| ==> front[i] == more[i];
      }
    }
  }

  lemma {:induction false} TruthfulPrefix(start: Generation, timeline: seq<Native>, i: nat)
    requires Truthful(start, timeline) && i <= |timeline|
    ensures Truthful(start, timeline[..i])
    ensures i < |timeline| ==> Fits(WorldAfter(start, timeline[..i]), timeline[i])
    decreases |timeline|
  {
    if i < |timeline| {
      var front := timeline[..|timeline| - 1];
      if i < |front| {
        TruthfulPrefix(start, front, i);
        assert front[..i] == timeline[..i];
      }
    } else {
      assert timeline[..i] == timeline;
    }
  }

  /** On a truthful pasteboard the writer can only take generations still to
      come: one that was sampled before is never taken afterwards. */
  lemma {:induction false} LaterOwnershipIsGreater(start: Generation, timeline: seq<Native>, i: nat, j: nat)
    requires Truthful(start, timeline) && i <= j < |timeline| && timeline[j].Declared?
    ensures timeline[j].g > WorldAfter(start, timeline[..i]).count
  {
    TruthfulPrefix(start, timeline, j);
    CountsGrow(start, timeline[..i], timeline[i..j]);
    assert timeline[..i] + timeline[i..j] == timeline[..j];
  }

  /** A marker follows its payload: nothing looks complete before it is. */
  predicate PayloadFirst(calls: seq<Native>) {
    calls == []
    || (PayloadFirst(calls[..|calls| - 1]) && CompletesPayload(calls[..|calls| - 1], calls[|calls| - 1]))
  }

  predicate CompletesPayload(calls: seq<Native>, call: Native) {
    call.DataSet? && call.marker && call.ok ==> Seen(calls).Some? && Seen(calls).value.payload.Some?
  }

  lemma {:induction false} PayloadFirstOneMore(calls: seq<Native>, call: Native)
    requires PayloadFirst(calls) && CompletesPayload(calls, call)
    ensures PayloadFirst(calls + [call])
  {
    assert (calls + [call])[..|calls|] == calls;
  }

  /** What the pasteboard shows of the writer is never a marker without payload. */
  lemma {:induction false} MarkerNeverStandsAlone(start: Generation, timeline: seq<Native>)
    requires Truthful(start, timeline) && PayloadFirst(Calls(timeline))
    ensures var w := WorldAfter(start, timeline); w.ours && w.marker.Some? ==> w.payload.Some?
  {
    CountTellsOwnership(start, timeline);
    SeenMarkerHasPayload(Calls(timeline));
  }

  lemma {:induction false} SeenMarkerHasPayload(calls: seq<Native>)
    requires PayloadFirst(calls)
    ensures Seen(calls).Some? && Seen(calls).value.marker.Some? ==> Seen(calls).value.payload.Some?
  {
    if calls != [] {
      SeenMarkerHasPayload(calls[..|calls| - 1]);
    }
  }

  /** The ownerships taken, in order. */
  function Taken(calls: seq<Native>): seq<Generation> {
    if calls == [] then []
    else Taken(calls[..|calls| - 1]) + if calls[|calls| - 1].Declared? then [calls[|calls| - 1].g] else []
  }

  lemma {:induction false} TakenAre(calls: seq<Native>, g: Generation)
    ensures g in Taken(calls) <==> Declared(g) in calls
  {
    if calls != [] {
      TakenAre(calls[..|calls| - 1], g);
      assert calls == calls[..|calls| - 1] + [calls[|calls| - 1]];
    }
  }

  /** The fence was told of exactly the ownerships the writer took. */
  predicate Fenced(calls: seq<Native>, ops: seq<Op>) {
    Taken(calls) == Recordings(ops)
  }

  lemma {:induction false} FencedKnowsTaken(calls: seq<Native>, ops: seq<Op>, g: Generation)
    requires Fenced(calls, ops)
    ensures Declared(g) in calls <==> Recorded(g) in ops
    ensures Declared(g) in calls ==> TakenAtOrAbove(ops, g)
  {
    TakenAre(calls, g);
    RecordingsAre(ops, g);
  }

  lemma {:induction false} FencedOneMore(calls: seq<Native>, call: Native, ops: seq<Op>, op: Op)
    requires Fenced(calls, ops) && (call.Declared? ==> op == Recorded(call.g)) && (op.Recorded? ==> call.Declared?)
    ensures Fenced(calls + [call], ops + [op])
    ensures !call.Declared? ==> Fenced(calls + [call], ops)
  {
    assert (calls + [call])[..|calls|] == calls && (ops + [op])[..|ops|] == ops;
  }

  class Pasteboard {
    const truthful: bool
    const start: Generation
    var world: World
    ghost var timeline: seq<Native>
    /** Whether the writer owned the pasteboard at the last data read. */
    ghost var sampledOurs: bool

    ghost predicate Valid()
      reads this
    {
      world == WorldAfter(start, timeline) && (truthful ==> Truthful(start, timeline))
    }

    constructor (truthful: bool, start: Generation)
      ensures Valid() && timeline == [] && this.truthful == truthful && this.start == start
    {
      this.truthful, this.start := truthful, start;
      world := World(start, false, None, None);
      timeline, sampledOurs := [], false;
    }

    /** Any number of other programs take the pasteboard over. */
    method Others()
      requires Valid()
      modifies this`world, this`timeline
      ensures Valid() && Calls(timeline) == Calls(old(timeline))
      ensures world.count >= old(world).count
      ensures world.count == old(world).count ==> world == old(world)
    {
      var n: nat := *;
      while n > 0
        invariant Valid() && Calls(timeline) == Calls(old(timeline))
        invariant world.count >= old(world).count
        invariant world.count == old(world).count ==> world == old(world)
      {
        OneMore(start, timeline, Foreign);
        world, timeline := Next(world, Foreign), timeline + [Foreign];
        n := n - 1;
      }
    }

    method Answer(event: Native)
      requires Valid() && !event.Foreign? && (truthful ==> Fits(world, event))
      modifies this`world, this`timeline
      ensures Valid() && Calls(timeline) == Calls(old(timeline)) + [event] && world == Next(old(world), event)
    {
      OneMore(start, timeline, event);
      world, timeline := Next(world, event), timeline + [event];
    }

    method Declare() returns (g: Generation)
      requires Valid()
      modifies this`world, this`timeline
      ensures Valid() && Calls(timeline) == Calls(old(timeline)) + [Declared(g)]
      ensures world.count > old(world).count && (truthful ==> g == world.count)
    {
      Others();
      g := *;
      if truthful {
        g := world.count + 1;
      }
      Answer(Declared(g));
    }

    method Count() returns (g: Generation)
      requires Valid()
      modifies this`world, this`timeline
      ensures Valid() && Calls(timeline) == Calls(old(timeline)) + [CountRead(g)]
      ensures truthful ==> g == world.count
      ensures world.count >= old(world).count
      ensures world.count == old(world).count ==> world == old(world)
    {
      Others();
      g := *;
      if truthful {
        g := world.count;
      }
      Answer(CountRead(g));
    }

    /** Data may be set only under an ownership that is already fenced. */
    method SetData(marker: bool, bytes: Bytes, ghost fence: ClipboardGate) returns (ok: bool)
      requires Valid() && Fenced(Calls(timeline), fence.ops)
      modifies this`world, this`timeline
      ensures Valid() && Calls(timeline) == Calls(old(timeline)) + [DataSet(marker, bytes, ok)]
      ensures world.count >= old(world).count
    {
      Others();
      ok := *;
      if truthful {
        ok := ok && world.ours;
      }
      Answer(DataSet(marker, bytes, ok));
    }

    method Matches(marker: bool, bytes: Bytes) returns (ok: bool)
      requires Valid()
      modifies this`world, this`timeline
      ensures Valid() && Calls(timeline) == Calls(old(timeline)) + [Matched(marker, bytes, ok)]
      ensures world.count >= old(world).count
    {
      Others();
      ok := *;
      if truthful && world.ours {
        ok := ok && (if marker then world.marker else world.payload) == Some(bytes);
      }
      Answer(Matched(marker, bytes, ok));
    }

    method Sample() returns (data: Option<Bytes>)
      requires Valid()
      modifies this`world, this`timeline, this`sampledOurs
      ensures Valid() && Calls(timeline) == Calls(old(timeline)) + [Sampled(data.Some?)]
      ensures sampledOurs == world.ours
      ensures world.count >= old(world).count
      ensures world.count == old(world).count ==> world == old(world)
    {
      Others();
      data := *;
      Answer(Sampled(data.Some?));
      sampledOurs := world.ours;
    }
  }
}
