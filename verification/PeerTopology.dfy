/** What the capture knows of one peer's displays (input-capture/src/lib.rs):
    versioned layout snapshots, legacy bounds, and the confirmation a layout
    needs after every Begin. */
module PeerTopology {
  import opened Wrappers
  import opened SerialNumbers

  datatype Size = Size(w: nat, h: nat)

  /** A display layout; `contour` stands for its rectangles, and an empty layout
      has no size. */
  datatype Layout = Layout(contour: nat, size: Option<Size>)

  /** A receiver process and its wrapping topology counter. */
  datatype Version = Version(epoch: nat, generation: Serial)

  datatype Topology = Topology(
    layout: Option<Layout>, version: Option<Version>, confirmed: bool, bounds: Option<Size>)

  const UNKNOWN := Topology(None, None, false, None)

  predicate GenerationIsNewer(current: Serial, candidate: Serial) {
    candidate != current && Minus(candidate, current) < HALF
  }

  /** Epochs are not ordered: any other one is taken. */
  predicate IsNewer(current: Version, candidate: Version) {
    candidate.epoch != current.epoch || GenerationIsNewer(current.generation, candidate.generation)
  }

  /** An empty, contradictory or reordered snapshot is ignored. */
  predicate Accepts(t: Topology, version: Version, layout: Layout) {
    layout.size.Some? &&
    (t.version.None?
     || (version == t.version.value && t.layout == Some(layout))
     || (version != t.version.value && IsNewer(t.version.value, version)))
  }

  function OnLayout(t: Topology, version: Version, layout: Layout): Topology {
    if Accepts(t, version, layout) then Topology(Some(layout), Some(version), true, layout.size) else t
  }

  /** The layout that cursor modelling may use. */
  function Visible(t: Topology): Option<Layout> {
    if t.confirmed && t.bounds.Some? && t.layout.Some? && t.layout.value.size == t.bounds then t.layout else None
  }

  function OnBounds(t: Topology, size: Size): Topology {
    if Visible(t).Some? && Visible(t).value.size != Some(size) then t else t.(bounds := Some(size))
  }

  /** Geometry belongs to the previous connection; the layout is kept hidden. */
  function OnBegin(t: Topology): Topology {
    t.(confirmed := false, bounds := None)
  }

  datatype Message =
    | LayoutMsg(version: Version, layout: Layout)
    | BoundsMsg(size: Size)
    | BeginMsg
    | ClearMsg

  function Receive(t: Topology, m: Message): Topology {
    match m
    case LayoutMsg(version, layout) => OnLayout(t, version, layout)
    case BoundsMsg(size) => OnBounds(t, size)
    case BeginMsg => OnBegin(t)
    case ClearMsg => UNKNOWN
  }

  function ReceiveAll(t: Topology, ms: seq<Message>): Topology {
    if ms == [] then t else Receive(ReceiveAll(t, ms[..|ms| - 1]), ms[|ms| - 1])
  }

  // -------------------------------------------------------------- visibility

  /** A confirmed position has its layout, version and matching bounds. */
  predicate Consistent(t: Topology) {
    && (t.confirmed ==> t.layout.Some? && t.version.Some? && t.bounds.Some? && t.bounds == t.layout.value.size)
    && (t.layout.Some? <==> t.version.Some?)
    && (t.layout.Some? ==> t.layout.value.size.Some?)
  }

  lemma {:induction false} EveryRunConsistent(ms: seq<Message>)
    ensures Consistent(ReceiveAll(UNKNOWN, ms))
  {
    if ms != [] {
      EveryRunConsistent(ms[..|ms| - 1]);
    }
  }

  lemma {:induction false} ConsistentOnward(t: Topology, ms: seq<Message>)
    requires Consistent(t)
    ensures Consistent(ReceiveAll(t, ms))
  {
    if ms != [] {
      ConsistentOnward(t, ms[..|ms| - 1]);
    }
  }

  function WithoutBounds(ms: seq<Message>): seq<Message> {
    if ms == [] then []
    else WithoutBounds(ms[..|ms| - 1]) + if ms[|ms| - 1].BoundsMsg? then [] else [ms[|ms| - 1]]
  }

  /** Alike but for what bounds say while no layout is confirmed. */
  predicate SameLayouts(t: Topology, u: Topology) {
    t.layout == u.layout && t.version == u.version && t.confirmed == u.confirmed && Visible(t) == Visible(u)
  }

  lemma {:induction false} BoundsKeepLayouts(t: Topology, size: Size)
    requires Consistent(t)
    ensures SameLayouts(OnBounds(t, size), t)
  {
  }

  lemma {:induction false} OthersKeepAlike(t: Topology, u: Topology, m: Message)
    requires Consistent(t) && Consistent(u) && SameLayouts(t, u) && !m.BoundsMsg?
    ensures SameLayouts(Receive(t, m), Receive(u, m))
  {
  }

  /** Bounds can neither hide, replace nor reactivate a layout: leaving all of
      them out of a run changes nothing about layouts. */
  lemma {:induction false} BoundsNeverMatter(t: Topology, ms: seq<Message>)
    requires Consistent(t)
    ensures SameLayouts(ReceiveAll(t, ms), ReceiveAll(t, WithoutBounds(ms)))
  {
    if ms != [] {
      var front, last := ms[..|ms| - 1], ms[|ms| - 1];
      BoundsNeverMatter(t, front);
      ConsistentOnward(t, front);
      ConsistentOnward(t, WithoutBounds(front));
      if last.BoundsMsg? {
        assert WithoutBounds(ms) == WithoutBounds(front);
        BoundsKeepLayouts(ReceiveAll(t, front), last.size);
      } else {
        assert WithoutBounds(ms)[..|WithoutBounds(ms)| - 1] == WithoutBounds(front);
        OthersKeepAlike(ReceiveAll(t, front), ReceiveAll(t, WithoutBounds(front)), last);
      }
    }
  }

  /** The size last reported since the last Begin. */
  function LatestBounds(ms: seq<Message>): Option<Size> {
    if ms == [] then None
    else match ms[|ms| - 1]
      case BoundsMsg(size) => Some(size)
      case BeginMsg => None
      case ClearMsg => None
      case LayoutMsg(_, _) => LatestBounds(ms[..|ms| - 1])
  }

  /** A peer that only ever reports sizes is known by the latest one. */
  lemma {:induction false} LegacyBoundsAreLatest(ms: seq<Message>)
    requires forall i :: 0 <= i < |ms| ==> !ms[i].LayoutMsg?
    ensures ReceiveAll(UNKNOWN, ms) == Topology(None, None, false, LatestBounds(ms))
  {
    if ms != [] {
      LegacyBoundsAreLatest(ms[..|ms| - 1]);
    }
  }

  /** Some message of the run was a layout accepted when it came. */
  ghost predicate AcceptedOne(t: Topology, ms: seq<Message>) {
    exists i :: 0 <= i < |ms| && AcceptedAt(t, ms, i)
  }

  predicate AcceptedAt(t: Topology, ms: seq<Message>, i: nat)
    requires i < |ms|
  {
    ms[i].LayoutMsg? && Accepts(ReceiveAll(t, ms[..i]), ms[i].version, ms[i].layout)
  }

  lemma {:induction false} AcceptedOneMore(t: Topology, ms: seq<Message>, m: Message)
    ensures AcceptedOne(t, ms + [m]) <==>
      AcceptedOne(t, ms) || (m.LayoutMsg? && Accepts(ReceiveAll(t, ms), m.version, m.layout))
  {
    var more := ms + [m];
    assert forall i :: 0 <= i < |ms| ==> more[i] == ms[i] && more[..i] == ms[..i];
    assert more[..|ms|] == ms;
    if AcceptedOne(t, ms) {
      var i :| 0 <= i < |ms| && AcceptedAt(t, ms, i);
      assert AcceptedAt(t, more, i);
    }
    if m.LayoutMsg? && Accepts(ReceiveAll(t, ms), m.version, m.layout) {
      assert AcceptedAt(t, more, |ms|);
    }
    if AcceptedOne(t, more) {
      var i :| 0 <= i < |more| && AcceptedAt(t, more, i);
      assert i < |ms| ==> AcceptedAt(t, ms, i);
    }
  }

  /** After a Begin, whatever was known before, a layout is visible exactly once
      one has been accepted since. */
  lemma {:induction false} HiddenUntilAccepted(t: Topology, ms: seq<Message>)
    requires Consistent(t)
    requires forall i :: 0 <= i < |ms| ==> ms[i].LayoutMsg? || ms[i].BoundsMsg?
    ensures Visible(ReceiveAll(OnBegin(t), ms)).Some? <==> AcceptedOne(OnBegin(t), ms)
  {
    if ms != [] {
      var front, last := ms[..|ms| - 1], ms[|ms| - 1];
      HiddenUntilAccepted(t, front);
      ConsistentOnward(OnBegin(t), front);
      AcceptedOneMore(OnBegin(t), front, last);
      assert ms == front + [last];
    }
  }

  /** The snapshot kept hidden over a Begin returns when it is published again,
      and no other one can pass for the same version. */
  lemma {:induction false} RepublishedLayoutReturns(t: Topology, other: Layout)
    requires Consistent(t) && t.layout.Some? && other != t.layout.value
    ensures var hidden := OnBegin(t);
      && Visible(hidden).None?
      && Visible(OnLayout(hidden, t.version.value, t.layout.value)) == t.layout
      && OnLayout(hidden, t.version.value, other) == hidden
  {
  }

  // ------------------------------------------------------------- convergence

  /** What arrives from one receiver process: snapshots by their true count, and
      anything else but a forgetting of the peer. */
  datatype Frame = Snapshot(count: nat) | OtherBounds(size: Size) | OtherBegin

  function MessageOf(frame: Frame, epoch: nat, layoutOf: nat -> Layout): Message {
    match frame
    case Snapshot(count) => LayoutMsg(Version(epoch, Wrap(count)), layoutOf(count))
    case OtherBounds(size) => BoundsMsg(size)
    case OtherBegin => BeginMsg
  }

  function Messages(frames: seq<Frame>, epoch: nat, layoutOf: nat -> Layout): seq<Message> {
    if frames == [] then []
    else Messages(frames[..|frames| - 1], epoch, layoutOf) + [MessageOf(frames[|frames| - 1], epoch, layoutOf)]
  }

  function Greatest(frames: seq<Frame>): Option<nat> {
    if frames == [] then None
    else
      var front, last := Greatest(frames[..|frames| - 1]), frames[|frames| - 1];
      if !last.Snapshot? || (front.Some? && front.value >= last.count) then front else Some(last.count)
  }

  lemma {:induction false} GreatestIsGreatest(frames: seq<Frame>)
    ensures forall i :: 0 <= i < |frames| && frames[i].Snapshot? ==>
      Greatest(frames).Some? && frames[i].count <= Greatest(frames).value
    ensures Greatest(frames).Some? ==> Snapshot(Greatest(frames).value) in frames
  {
    if frames != [] {
      GreatestIsGreatest(frames[..|frames| - 1]);
      assert frames == frames[..|frames| - 1] + [frames[|frames| - 1]];
    }
  }

  ghost predicate Within(frames: seq<Frame>, base: nat) {
    forall i :: 0 <= i < |frames| && frames[i].Snapshot? ==> base <= frames[i].count < base + HALF
  }

  /** However snapshots of one process are reordered, repeated or lost on the
      way, and wherever their counter wraps, the stored layout is that of the
      greatest count received. */
  lemma {:induction false} DeliveriesConverge(
      t: Topology, frames: seq<Frame>, base: nat, epoch: nat, layoutOf: nat -> Layout)
    requires Within(frames, base) && forall count :: layoutOf(count).size.Some?
    requires t.version.None? || t.version.value.epoch != epoch
    ensures var u := ReceiveAll(t, Messages(frames, epoch, layoutOf));
      match Greatest(frames)
      case None => u.version == t.version && u.layout == t.layout
      case Some(count) => u.version == Some(Version(epoch, Wrap(count))) && u.layout == Some(layoutOf(count))
    decreases |frames|
  {
    if frames != [] {
      var front, last := frames[..|frames| - 1], frames[|frames| - 1];
      DeliveriesConverge(t, front, base, epoch, layoutOf);
      var ms := Messages(frames, epoch, layoutOf);
      assert ms[..|ms| - 1] == Messages(front, epoch, layoutOf);
      if last.Snapshot? && Greatest(front).Some? {
        GreatestIsGreatest(front);
        var count := Greatest(front).value;
        assert base <= count < base + HALF by {
          assert Snapshot(count) in front;
        }
        NewerIsTrulyNewer(count, last.count);
      }
    }
  }

  lemma {:induction false} NewerIsTrulyNewer(current: nat, candidate: nat)
    requires current < candidate + HALF && candidate < current + HALF
    ensures GenerationIsNewer(Wrap(current), Wrap(candidate)) <==> current < candidate
    ensures Wrap(current) == Wrap(candidate) <==> current == candidate
  {
    MinusIsDifference(candidate, current);
  }
}
