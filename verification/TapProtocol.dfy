/** Every interleaving of the callback thread, the producer task and the other
    senders of its channel (input-capture/src/macos.rs), and what they keep. */
module TapProtocol {
  import opened Wrappers
  import opened Positions
  import opened TapRecovery

  /** Between taking an event off the channel and completing its recovery the
      producer gives up the lock twice. `Polling` is its periodic geometry check,
      which wants the lock too. */
  datatype Producer =
    | Idle
    | Polling
    | Holding(event: ProducerEvent)
    | Publishing(generation: Generation, pos: Position)
    | Finishing(generation: Generation)

  /** `crossing` is an edge whose Grab the callback is still sending, with the
      lock in its hands; `notice` is a disabled-tap notification whose send is
      still blocked, the lock already given up.
      `owed` and `released` record, for the latest closing of the gate, whether
      a capture or a queued Grab was outstanding and how often AutoRelease was
      published since. */
  datatype System = System(
    shared: Shared,
    crossing: Option<Position>,
    notice: Option<ProducerEvent>,
    queue: seq<ProducerEvent>,
    producer: Producer,
    events: seq<CaptureEvent>,
    owed: bool,
    released: nat)

  datatype Action =
    | Cross(to: Position)
    | SendGrab
    | LoseTap
    | SendNotice
    | Enqueue(event: ProducerEvent)
    | Receive
    | HandleHeld(hidden: bool)
    | Publish
    | Finish
    | Tick
    | Poll

  const INITIAL := System(Shared(None, 0, None), None, None, [], Idle, [], false, 0)

  predicate Enabled(s: System, a: Action) {
    match a
    case Cross(_) => s.crossing.None? && s.notice.None? && s.shared.pending.None? && s.shared.current.None?
    case SendGrab => s.crossing.Some? && |s.queue| < CHANNEL_CAPACITY
    case LoseTap => s.crossing.None? && s.notice.None?
    case SendNotice => s.notice.Some? && |s.queue| < CHANNEL_CAPACITY
    case Enqueue(event) => !event.Grab? && !event.EventTapDisabled? && |s.queue| < CHANNEL_CAPACITY
    case Receive => s.producer.Idle? && s.queue != []
    case HandleHeld(_) => s.producer.Holding? && s.crossing.None?
    case Publish => s.producer.Publishing?
    case Finish => s.producer.Finishing? && s.crossing.None?
    case Tick => s.producer.Idle?
    case Poll => s.producer.Polling? && s.crossing.None?
  }

  function Do(s: System, a: Action): System
    requires Enabled(s, a)
  {
    match a
    case Cross(pos) => s.(crossing := Some(pos))
    case SendGrab =>
      s.(crossing := None, queue := s.queue + [Grab(s.crossing.value)], events := s.events + [Begin(s.crossing.value)])
    case LoseTap =>
      var shared := Disable(s.shared);
      var closing := s.shared.pending.None?;
      s.(shared := shared, notice := Some(EventTapDisabled(shared.generation)),
         owed := if closing then s.shared.current.Some? || HasGrab(Pipe(s)) else s.owed,
         released := if closing then 0 else s.released)
    case SendNotice => s.(queue := s.queue + [s.notice.value], notice := None)
    case Enqueue(event) => s.(queue := s.queue + [event])
    case Receive => s.(queue := s.queue[1..], producer := Holding(s.queue[0]))
    case HandleHeld(hidden) =>
      var (shared, release) := Handle(s.shared, s.producer.event, hidden);
      s.(shared := shared,
         producer := match s.producer.event
           case EventTapDisabled(g) => (if release.Some? then Publishing(g, release.value) else Finishing(g))
           case _ => Idle)
    case Publish =>
      s.(events := s.events + [AutoRelease(s.producer.pos)], released := s.released + 1,
         producer := Finishing(s.producer.generation))
    case Finish => s.(shared := CompleteRecovery(s.shared, s.producer.generation), producer := Idle)
    case Tick => s.(producer := Polling)
    case Poll => s.(producer := Idle)
  }

  // ------------------------------------------------ what is still in flight

  function Self(event: ProducerEvent): seq<ProducerEvent> {
    if event.Grab? || event.EventTapDisabled? then [event] else []
  }

  /** The Grabs and disabled-tap notifications of a stretch of the channel. */
  function Relevant(events: seq<ProducerEvent>): seq<ProducerEvent> {
    if events == [] then []
    else Self(events[0]) + Relevant(events[1..])
  }

  /** The relevant events no handler has run for yet, oldest first. */
  function Pipe(s: System): seq<ProducerEvent> {
    (if s.producer.Holding? then Self(s.producer.event) else [])
    + Relevant(s.queue)
    + if s.notice.Some? then [s.notice.value] else []
  }

  predicate HasGrab(pipe: seq<ProducerEvent>) {
    exists i :: 0 <= i < |pipe| && pipe[i].Grab?
  }

  /** The generation whose notification was handled but not completed. */
  function Handled(s: System): seq<Generation> {
    if s.producer.Publishing? || s.producer.Finishing? then [s.producer.generation] else []
  }

  lemma {:induction false} RelevantAppend(a: seq<ProducerEvent>, b: seq<ProducerEvent>)
    ensures Relevant(a + b) == Relevant(a) + Relevant(b)
    decreases |a|
  {
    if a == [] {
      assert a + b == b;
    } else {
      assert (a + b)[1..] == a[1..] + b;
      RelevantAppend(a[1..], b);
      assert Relevant(a + b) == Self(a[0]) + Relevant(a[1..] + b);
    }
  }

  lemma {:induction false} RelevantBound(a: seq<ProducerEvent>)
    ensures |Relevant(a)| <= |a|
    ensures forall i :: 0 <= i < |Relevant(a)| ==> Relevant(a)[i].Grab? || Relevant(a)[i].EventTapDisabled?
    decreases |a|
  {
    if a != [] {
      RelevantBound(a[1..]);
    }
  }

  function PipeAfter(s: System, a: Action): seq<ProducerEvent>
    requires Enabled(s, a)
  {
    if a.SendGrab? then Pipe(s) + [Grab(s.crossing.value)]
    else if a.LoseTap? then Pipe(s) + [EventTapDisabled(Disable(s.shared).generation)]
    else if a.HandleHeld? && Self(s.producer.event) != [] && Pipe(s) != [] then Pipe(s)[1..]
    else Pipe(s)
  }

  lemma {:induction false} PipeIsBounded(s: System)
    requires |s.queue| <= CHANNEL_CAPACITY
    ensures |Pipe(s)| + |Handled(s)| <= CHANNEL_CAPACITY + 2
    ensures s.producer.Holding? && Self(s.producer.event) != [] ==> Pipe(s) != [] && Pipe(s)[0] == s.producer.event
  {
    RelevantBound(s.queue);
  }

  lemma {:induction false} EnqueueMovesPipe(s: System, a: Action, event: ProducerEvent)
    requires Enabled(s, a)
    requires (a.SendGrab? && event == Grab(s.crossing.value) && s.notice.None?) || a == Enqueue(event)
          || (a.SendNotice? && s.notice == Some(event) && event.EventTapDisabled?)
    ensures Pipe(Do(s, a)) == PipeAfter(s, a)
  {
    RelevantAppend(s.queue, [event]);
    assert Relevant([event]) == Self(event) + Relevant([]);
  }

  lemma {:induction false} ReceiveMovesPipe(s: System)
    requires Enabled(s, Receive)
    ensures Pipe(Do(s, Receive)) == Pipe(s)
  {
    assert Relevant(s.queue) == Self(s.queue[0]) + Relevant(s.queue[1..]);
  }

  /** Only crossing and losing the tap put an event in, at the end of the pipe,
      and only handling takes one out, at its front. */
  lemma {:induction false} PipeMoves(s: System, a: Action)
    requires Enabled(s, a) && |s.queue| <= CHANNEL_CAPACITY && (s.notice.Some? ==> s.notice.value.EventTapDisabled?)
    requires s.crossing.Some? ==> s.notice.None?
    ensures Pipe(Do(s, a)) == PipeAfter(s, a)
    ensures |Pipe(s)| + |Handled(s)| <= CHANNEL_CAPACITY + 2
    ensures s.producer.Holding? && Self(s.producer.event) != [] ==> Pipe(s) != [] && Pipe(s)[0] == s.producer.event
  {
    PipeIsBounded(s);
    match a
    case SendGrab => EnqueueMovesPipe(s, a, Grab(s.crossing.value));
    case SendNotice => EnqueueMovesPipe(s, a, s.notice.value);
    case Enqueue(event) => EnqueueMovesPipe(s, a, event);
    case Receive => ReceiveMovesPipe(s);
    case _ =>
  }

  // ------------------------------------------------------------ generations

  /** The generation issued `n` notifications before `g`; zero is skipped. */
  function Back(g: Generation, n: nat): int {
    if n < g then g - n else g - n + (GENERATIONS - 1)
  }

  lemma {:induction false} BackOfNext(g: Generation, n: nat)
    requires g >= 1 && n <= CHANNEL_CAPACITY + 2
    ensures Back(NextGeneration(g), n + 1) == Back(g, n)
    ensures NextGeneration(g) >= 1
  {
  }

  /** The channel is far too small for a generation in flight to be reused. */
  lemma {:induction false} OnlyNewestIsNewest(g: Generation, n: nat)
    requires g >= 1 && n <= CHANNEL_CAPACITY + 2
    ensures Back(g, n) == g <==> n == 0
  {
  }

  // ------------------------------------------------------------ the invariant

  /** The edges whose Begin was emitted after the last AutoRelease. */
  function Unreleased(events: seq<CaptureEvent>): set<Position>
    decreases |events|
  {
    if events == [] then {}
    else match events[|events| - 1]
      case Begin(pos) => Unreleased(events[..|events| - 1]) + {pos}
      case AutoRelease(_) => {}
  }

  predicate Shape(s: System) {
    && |s.queue| <= CHANNEL_CAPACITY
    && (s.notice.Some? ==> s.notice.value.EventTapDisabled?)
    && (s.crossing.Some? ==> s.notice.None? && s.shared.pending.None? && s.shared.current.None?)
    && var pipe := Pipe(s);
       forall i :: 0 <= i < |pipe| ==> pipe[i].Grab? || pipe[i].EventTapDisabled?
  }

  /** The gate is open: nothing of a recovery is in flight and the last closed
      interval published exactly what it owed. */
  predicate OpenInv(s: System) {
    var pipe := Pipe(s);
    && Handled(s) == []
    && (forall i :: 0 <= i < |pipe| ==> pipe[i].Grab?)
    && s.released == (if s.owed then 1 else 0)
  }

  /** Notifications come after every Grab, and are the newest ones in order. */
  predicate NewestLast(pipe: seq<ProducerEvent>, newest: Generation) {
    && (forall i, j :: 0 <= i < j < |pipe| && pipe[j].Grab? ==> pipe[i].Grab?)
    && (forall i :: 0 <= i < |pipe| && pipe[i].EventTapDisabled? ==>
          pipe[i].generation == Back(newest, |pipe| - 1 - i))
  }

  lemma {:induction false} NewestStaysLast(pipe: seq<ProducerEvent>, newest: Generation)
    requires pipe != [] && NewestLast(pipe, newest)
    ensures NewestLast(pipe[1..], newest)
    ensures pipe[0].EventTapDisabled? ==> !HasGrab(pipe[1..])
  {
    var pipe1 := pipe[1..];
    assert forall i :: 0 <= i < |pipe1| ==> pipe1[i] == pipe[i + 1];
  }

  /** The gate is closed: nobody owns the capture, the notifications in flight
      are the newest ones in order and behind every Grab, and an AutoRelease is
      claimed at most once, and by the time the newest was handled if owed. */
  predicate ClosedInv(s: System, r: Recovery) {
    var pipe := Pipe(s);
    var handled := Handled(s);
    && s.shared.current.None? && r.generation == s.shared.generation >= 1
    && NewestLast(pipe, r.generation)
    && (handled == [] ==> pipe != [] && pipe[|pipe| - 1].EventTapDisabled?)
    && (handled != [] ==> handled[0] == Back(r.generation, |pipe|) && !HasGrab(pipe))
    && (s.owed <==> r.interrupted.Some? || HasGrab(pipe))
    && (r.claimed ==> r.interrupted.Some?)
    && s.released + (if s.producer.Publishing? then 1 else 0) == (if r.claimed then 1 else 0)
    && (handled != [] && pipe == [] && s.owed ==> r.claimed)
  }

  /** Everything that can still lead to an AutoRelease has an unreleased Begin. */
  predicate WireInv(s: System) {
    var pipe := Pipe(s);
    var unreleased := Unreleased(s.events);
    && (s.shared.current.Some? ==> s.shared.current.value in unreleased)
    && (forall i :: 0 <= i < |pipe| && pipe[i].Grab? ==> pipe[i].pos in unreleased)
    && (s.shared.pending.Some? && s.shared.pending.value.interrupted.Some? && !s.shared.pending.value.claimed ==>
          s.shared.pending.value.interrupted.value in unreleased)
    && (s.producer.Publishing? ==> s.producer.pos in unreleased)
  }

  predicate Inv(s: System) {
    && Shape(s) && WireInv(s)
    && (if s.shared.pending.Some? then ClosedInv(s, s.shared.pending.value) else OpenInv(s))
  }

  lemma {:induction false} InitialInv()
    ensures Inv(INITIAL)
  {
  }

  lemma {:induction false} UnreleasedAppend(events: seq<CaptureEvent>, event: CaptureEvent)
    ensures Unreleased(events + [event]) ==
      match event case Begin(pos) => Unreleased(events) + {pos} case AutoRelease(_) => {}
  {
    assert (events + [event])[..|events|] == events;
  }

  lemma {:induction false} SendGrabKeepsInv(s: System)
    requires Inv(s) && Enabled(s, SendGrab)
    ensures Inv(Do(s, SendGrab))
  {
    PipeMoves(s, SendGrab);
    UnreleasedAppend(s.events, Begin(s.crossing.value));
  }

  lemma {:induction false} LoseTapPipe(s: System)
    requires Inv(s) && Enabled(s, LoseTap)
    ensures var pipe, pipe1 := Pipe(s), Pipe(Do(s, LoseTap));
      && pipe1 == pipe + [EventTapDisabled(NextGeneration(s.shared.generation))]
      && (HasGrab(pipe1) <==> HasGrab(pipe)) && |pipe| <= CHANNEL_CAPACITY + 2
  {
    PipeMoves(s, LoseTap);
    var pipe, pipe1 := Pipe(s), Pipe(Do(s, LoseTap));
    assert forall i :: 0 <= i < |pipe| ==> pipe1[i] == pipe[i];
  }

  lemma {:induction false} LoseTapKeepsWire(s: System)
    requires Inv(s) && Enabled(s, LoseTap)
    ensures Shape(Do(s, LoseTap)) && WireInv(Do(s, LoseTap))
  {
    LoseTapPipe(s);
    PipeMoves(s, LoseTap);
  }

  lemma {:induction false} LoseTapCloses(s: System)
    requires Inv(s) && Enabled(s, LoseTap)
    ensures var s1 := Do(s, LoseTap); s1.shared.pending.Some? && ClosedInv(s1, s1.shared.pending.value)
  {
    LoseTapPipe(s);
    var g, next := s.shared.generation, NextGeneration(s.shared.generation);
    if g >= 1 {
      forall n: nat | n <= CHANNEL_CAPACITY + 2 ensures Back(next, n + 1) == Back(g, n) {
        BackOfNext(g, n);
      }
    }
    OnlyNewestIsNewest(next, 0);
  }

  lemma {:induction false} LoseTapKeepsInv(s: System)
    requires Inv(s) && Enabled(s, LoseTap)
    ensures Inv(Do(s, LoseTap))
  {
    LoseTapKeepsWire(s);
    LoseTapCloses(s);
  }

  /** A step that leaves the pipe and everything shared as it was. */
  lemma {:induction false} SamePipeKeepsInv(s: System, s1: System)
    requires Inv(s) && |s1.queue| <= CHANNEL_CAPACITY
    requires s1.notice.Some? ==> s1.notice.value.EventTapDisabled?
    requires s1.crossing.Some? ==> s1.notice.None? && s1.shared.pending.None? && s1.shared.current.None?
    requires Pipe(s1) == Pipe(s) && Handled(s1) == Handled(s)
    requires s1.shared == s.shared && s1.events == s.events && s1.owed == s.owed && s1.released == s.released
    requires s1.producer == s.producer || (!s.producer.Publishing? && !s1.producer.Publishing?)
    ensures Inv(s1)
  {
  }

  lemma {:induction false} MovesKeepInv(s: System, a: Action)
    requires Inv(s) && Enabled(s, a) && (a.Cross? || a.SendNotice? || a.Enqueue? || a.Receive? || a.Tick? || a.Poll?)
    ensures Inv(Do(s, a))
  {
    PipeMoves(s, a);
    SamePipeKeepsInv(s, Do(s, a));
  }

  lemma {:induction false} HandleGrabKeepsInv(s: System, hidden: bool)
    requires Inv(s) && Enabled(s, HandleHeld(hidden)) && s.producer.event.Grab?
    ensures Inv(Do(s, HandleHeld(hidden)))
  {
    PipeMoves(s, HandleHeld(hidden));
    var pipe, pipe1 := Pipe(s), Pipe(Do(s, HandleHeld(hidden)));
    assert pipe1 == pipe[1..] && pipe[0].Grab?;
    assert forall i :: 0 <= i < |pipe1| ==> pipe1[i] == pipe[i + 1];
  }

  /** A notification at the front: the gate is closed and no Grab is behind it. */
  lemma {:induction false} NoticeAtFront(s: System, hidden: bool)
    requires Inv(s) && Enabled(s, HandleHeld(hidden)) && s.producer.event.EventTapDisabled?
    ensures Pipe(s) != [] && Pipe(s)[0] == s.producer.event && !HasGrab(Pipe(s))
    ensures Pipe(Do(s, HandleHeld(hidden))) == Pipe(s)[1..] && s.shared.pending.Some?
    ensures |Pipe(s)| <= CHANNEL_CAPACITY + 2
  {
    PipeMoves(s, HandleHeld(hidden));
  }

  lemma {:induction false} HandleNoticeKeepsWire(s: System, hidden: bool)
    requires Inv(s) && Enabled(s, HandleHeld(hidden)) && s.producer.event.EventTapDisabled?
    ensures Shape(Do(s, HandleHeld(hidden))) && WireInv(Do(s, HandleHeld(hidden)))
  {
    NoticeAtFront(s, hidden);
    var pipe, pipe1 := Pipe(s), Pipe(Do(s, HandleHeld(hidden)));
    assert forall i :: 0 <= i < |pipe1| ==> pipe1[i] == pipe[i + 1];
  }

  lemma {:induction false} HandleNoticeMoves(s: System, hidden: bool) returns (s1: System, r: Recovery)
    requires Inv(s) && Enabled(s, HandleHeld(hidden)) && s.producer.event.EventTapDisabled?
    ensures s1 == Do(s, HandleHeld(hidden)) && s1.shared.pending == Some(r) && s1.shared.current.None?
    ensures r.generation == s1.shared.generation == s.shared.generation >= 1
    ensures Handled(s1) == [Back(r.generation, |Pipe(s1)|)] && !HasGrab(Pipe(s1)) && NewestLast(Pipe(s1), r.generation)
  {
    s1 := Do(s, HandleHeld(hidden));
    NoticeAtFront(s, hidden);
    r := s1.shared.pending.value;
    NewestStaysLast(Pipe(s), s.shared.generation);
  }

  lemma {:induction false} HandleNoticeKeepsClosed(s: System, hidden: bool)
    requires Inv(s) && Enabled(s, HandleHeld(hidden)) && s.producer.event.EventTapDisabled?
    ensures var s1 := Do(s, HandleHeld(hidden));
      s1.shared.pending.Some? && ClosedInv(s1, s1.shared.pending.value)
  {
    var s1, r := HandleNoticeMoves(s, hidden);
    NoticeAtFront(s, hidden);
    OnlyNewestIsNewest(s.shared.generation, |Pipe(s)| - 1);
  }

  lemma {:induction false} HandleNoticeKeepsInv(s: System, hidden: bool)
    requires Inv(s) && Enabled(s, HandleHeld(hidden)) && s.producer.event.EventTapDisabled?
    ensures Inv(Do(s, HandleHeld(hidden)))
  {
    HandleNoticeKeepsWire(s, hidden);
    HandleNoticeKeepsClosed(s, hidden);
  }

  lemma {:induction false} HandleKeepsInv(s: System, hidden: bool)
    requires Inv(s) && Enabled(s, HandleHeld(hidden))
    ensures Inv(Do(s, HandleHeld(hidden)))
  {
    if s.producer.event.Grab? {
      HandleGrabKeepsInv(s, hidden);
    } else if s.producer.event.EventTapDisabled? {
      HandleNoticeKeepsInv(s, hidden);
    } else {
      PipeMoves(s, HandleHeld(hidden));
    }
  }

  lemma {:induction false} PublishKeepsInv(s: System)
    requires Inv(s) && Enabled(s, Publish)
    ensures Inv(Do(s, Publish))
  {
    PipeMoves(s, Publish);
    UnreleasedAppend(s.events, AutoRelease(s.producer.pos));
  }

  lemma {:induction false} FinishKeepsInv(s: System)
    requires Inv(s) && Enabled(s, Finish)
    ensures Inv(Do(s, Finish))
  {
    PipeMoves(s, Finish);
    OnlyNewestIsNewest(s.shared.generation, |Pipe(s)|);
  }

  lemma {:induction false} EveryActionKeepsInv(s: System, a: Action)
    requires Inv(s) && Enabled(s, a)
    ensures Inv(Do(s, a))
  {
    match a
    case SendGrab => SendGrabKeepsInv(s);
    case LoseTap => LoseTapKeepsInv(s);
    case HandleHeld(hidden) => HandleKeepsInv(s, hidden);
    case Publish => PublishKeepsInv(s);
    case Finish => FinishKeepsInv(s);
    case _ => MovesKeepInv(s, a);
  }

  // ------------------------------------------------------------ the theorems

  predicate IsRun(actions: seq<Action>, run: seq<System>) {
    && |run| == |actions| + 1 && run[0] == INITIAL
    && forall n :: 0 <= n < |actions| ==> Enabled(run[n], actions[n]) && run[n + 1] == Do(run[n], actions[n])
  }

  lemma {:induction false} EveryRunKeepsInv(actions: seq<Action>, run: seq<System>, n: nat)
    requires IsRun(actions, run) && n <= |actions|
    ensures Inv(run[n])
  {
    if n == 0 {
      InitialInv();
    } else {
      EveryRunKeepsInv(actions, run, n - 1);
      EveryActionKeepsInv(run[n - 1], actions[n - 1]);
    }
  }

  /** In every interleaving: while a recovery is pending nobody owns the
      capture; completing a recovery reopens the gate exactly when it is the
      newest and no notification is in flight; and when the gate reopens, the
      closed interval has published one AutoRelease if a capture or a queued Grab
      was outstanding when it closed, and none otherwise. */
  lemma {:induction false} GateReopensOnceSettled(actions: seq<Action>, run: seq<System>, n: nat)
    requires IsRun(actions, run) && n <= |actions|
    ensures run[n].shared.pending.Some? ==> run[n].shared.current.None?
    ensures n < |actions| && actions[n].Finish? ==>
      && run[n].shared.pending.Some?
      && (run[n + 1].shared.pending.None? <==> run[n].producer.generation == run[n].shared.generation)
      && (run[n + 1].shared.pending.None? <==> Pipe(run[n]) == [])
    ensures run[n].shared.pending.None? ==> run[n].released == if run[n].owed then 1 else 0
    ensures run[n].released <= 1
  {
    EveryRunKeepsInv(actions, run, n);
    PipeIsBounded(run[n]);
    if run[n].shared.pending.Some? {
      OnlyNewestIsNewest(run[n].shared.generation, |Pipe(run[n])|);
    }
  }

  /** On the wire: an AutoRelease for an edge is published only if that edge's
      Begin was published after the previous AutoRelease, so no Begin is ever
      released twice. */
  lemma {:induction false} AutoReleaseAnswersBegin(actions: seq<Action>, run: seq<System>, n: nat)
    requires IsRun(actions, run) && n < |actions| && actions[n].Publish?
    ensures run[n].producer.pos in Unreleased(run[n].events)
    ensures run[n + 1].events == run[n].events + [AutoRelease(run[n].producer.pos)]
  {
    EveryRunKeepsInv(actions, run, n);
  }

  // -------------------------------------------------- one closed interval

  /** The tap is lost at step `n` with the gate open, and step `k` is the first
      to reopen it. */
  predicate ClosedFrom(actions: seq<Action>, run: seq<System>, n: nat, k: nat) {
    && IsRun(actions, run) && n < k < |actions|
    && actions[n].LoseTap? && run[n].shared.pending.None?
    && forall i :: n < i <= k ==> run[i].shared.pending.Some?
  }

  /** What the closing owes an AutoRelease to. */
  predicate Outstanding(s: System) {
    s.shared.current.Some? || HasGrab(Pipe(s))
  }

  predicate OnlyAutoReleases(events: seq<CaptureEvent>, from: nat) {
    forall i :: from <= i < |events| ==> events[i].AutoRelease?
  }

  /** While the gate is closed nothing but AutoReleases reaches the wire, and
      `released` counts them. */
  predicate Counted(s0: System, s: System) {
    && s0.events <= s.events && OnlyAutoReleases(s.events, |s0.events|)
    && |s.events| == |s0.events| + s.released
    && s.owed == Outstanding(s0)
  }

  lemma {:induction false} StepCounts(s0: System, s: System, a: Action)
    requires Inv(s) && Enabled(s, a) && s.shared.pending.Some? && Counted(s0, s)
    ensures Counted(s0, Do(s, a))
  {
  }

  lemma {:induction false} ClosingCounts(s: System)
    requires Enabled(s, LoseTap) && s.shared.pending.None?
    ensures Counted(s, Do(s, LoseTap))
  {
  }

  lemma {:induction false} ClosingStep(actions: seq<Action>, run: seq<System>, n: nat)
    requires IsRun(actions, run) && n < |actions| && actions[n].LoseTap? && run[n].shared.pending.None?
    ensures Counted(run[n], run[n + 1])
  {
    ClosingCounts(run[n]);
  }

  lemma {:induction false} ClosedStep(actions: seq<Action>, run: seq<System>, s0: System, i: nat)
    requires IsRun(actions, run) && i < |actions| && run[i].shared.pending.Some? && Counted(s0, run[i])
    ensures Counted(s0, run[i + 1])
  {
    EveryRunKeepsInv(actions, run, i);
    StepCounts(s0, run[i], actions[i]);
  }

  lemma {:induction false} IntervalCounts(actions: seq<Action>, run: seq<System>, n: nat, k: nat, i: nat)
    requires ClosedFrom(actions, run, n, k) && n < i <= k + 1
    ensures Counted(run[n], run[i])
    decreases i
  {
    if i > n + 1 {
      IntervalCounts(actions, run, n, k, i - 1);
      ClosedStep(actions, run, run[n], i - 1);
    } else {
      ClosingStep(actions, run, n);
    }
  }

  lemma {:induction false} UnreleasedAfter(events: seq<CaptureEvent>, from: nat)
    requires from <= |events| <= from + 1 && OnlyAutoReleases(events, from)
    ensures Unreleased(events) == {} <==> |events| == from + 1 || Unreleased(events[..from]) == {}
  {
    assert |events| == from ==> events[..from] == events;
  }

  /** A closed interval puts exactly one AutoRelease on the wire if a capture or
      a queued Grab was outstanding when the tap was lost, and nothing otherwise.
      So Begins stay unanswered exactly if there was one and nothing was
      outstanding. */
  lemma {:induction false} IntervalAnswersOutstanding(actions: seq<Action>, run: seq<System>, n: nat, k: nat)
    requires ClosedFrom(actions, run, n, k) && run[k + 1].shared.pending.None?
    ensures run[n].events <= run[k + 1].events && OnlyAutoReleases(run[k + 1].events, |run[n].events|)
    ensures |run[k + 1].events| == |run[n].events| + if Outstanding(run[n]) then 1 else 0
    ensures Unreleased(run[k + 1].events) == {} <==> Outstanding(run[n]) || Unreleased(run[n].events) == {}
  {
    IntervalCounts(actions, run, n, k, k + 1);
    EveryRunKeepsInv(actions, run, k + 1);
    UnreleasedAfter(run[k + 1].events, |run[n].events|);
    assert run[k + 1].events[..|run[n].events|] == run[n].events;
  }

  // ----------------------------------------------------------- concrete runs

  /** A run and one more step. */
  lemma {:induction false} Extend(actions: seq<Action>, run: seq<System>, a: Action)
      returns (actions1: seq<Action>, run1: seq<System>)
    requires IsRun(actions, run) && Enabled(run[|actions|], a)
    ensures actions1 == actions + [a] && run1 == run + [Do(run[|actions|], a)] && IsRun(actions1, run1)
    ensures run1[|actions1|] == Do(run[|actions|], a)
  {
    actions1, run1 := actions + [a], run + [Do(run[|actions|], a)];
  }

  /** Everything at rest, with these events on the wire. */
  function AtRest(generation: Generation, events: seq<CaptureEvent>): System {
    System(Shared(None, generation, None), None, None, [], Idle, events, false, 0)
  }

  lemma {:induction false} HideFails(pos: Position) returns (actions: seq<Action>, run: seq<System>)
    ensures IsRun(actions, run) && |actions| == 4 && actions[3] == HandleHeld(false)
    ensures run[4] == AtRest(0, [Begin(pos)])
  {
    actions, run := Extend([], [INITIAL], Cross(pos));
    actions, run := Extend(actions, run, SendGrab);
    assert [] + [Grab(pos)] == [Grab(pos)] && [] + [Begin(pos)] == [Begin(pos)];
    actions, run := Extend(actions, run, Receive);
    actions, run := Extend(actions, run, HandleHeld(false));
  }

  /** The same with the gate closed for its first interval. */
  function AtRestClosed(notice: Option<ProducerEvent>, queue: seq<ProducerEvent>, producer: Producer,
      events: seq<CaptureEvent>): System {
    System(Shared(None, 1, Some(Recovery(1, None, false))), None, notice, queue, producer, events, false, 0)
  }

  lemma {:induction false} TapLostAtRestSteps(events: seq<CaptureEvent>)
    ensures Enabled(AtRest(0, events), LoseTap) && !Outstanding(AtRest(0, events))
    ensures Do(AtRest(0, events), LoseTap) == AtRestClosed(Some(EventTapDisabled(1)), [], Idle, events)
    ensures Enabled(AtRestClosed(None, [], Holding(EventTapDisabled(1)), events), HandleHeld(false))
    ensures Do(AtRestClosed(None, [], Holding(EventTapDisabled(1)), events), HandleHeld(false))
      == AtRestClosed(None, [], Finishing(1), events)
    ensures Enabled(AtRestClosed(None, [], Finishing(1), events), Finish)
    ensures Do(AtRestClosed(None, [], Finishing(1), events), Finish) == AtRest(1, events)
  {
    assert Pipe(AtRest(0, events)) == [];
  }

  lemma {:induction false} TapLostAtRest(actions: seq<Action>, run: seq<System>, events: seq<CaptureEvent>)
      returns (actions1: seq<Action>, run1: seq<System>)
    requires IsRun(actions, run) && run[|actions|] == AtRest(0, events)
    ensures IsRun(actions1, run1) && actions1 == actions + [LoseTap, SendNotice, Receive, HandleHeld(false), Finish]
    ensures run <= run1 && ClosedFrom(actions1, run1, |actions|, |actions| + 4)
    ensures run1[|actions1|] == AtRest(1, events) && !Outstanding(run[|actions|])
  {
    TapLostAtRestSteps(events);
    var notice := EventTapDisabled(1);
    var a1, r1 := Extend(actions, run, LoseTap);
    var a2, r2 := Extend(a1, r1, SendNotice);
    assert r2[|a2|] == AtRestClosed(None, [notice], Idle, events);
    var a3, r3 := Extend(a2, r2, Receive);
    assert r3[|a3|] == AtRestClosed(None, [], Holding(notice), events);
    var a4, r4 := Extend(a3, r3, HandleHeld(false));
    actions1, run1 := Extend(a4, r4, Finish);
    PendingFrom(actions1, run1, |actions|);
  }

  lemma {:induction false} PendingFrom(actions: seq<Action>, run: seq<System>, n: nat)
    requires IsRun(actions, run) && |actions| == n + 5 && actions[n].LoseTap? && run[n].shared.pending.None?
    requires run[n + 1].shared.pending.Some? && run[n + 2].shared.pending.Some?
    requires run[n + 3].shared.pending.Some? && run[n + 4].shared.pending.Some?
    ensures ClosedFrom(actions, run, n, n + 4)
  {
  }

  /** If hiding the cursor fails, the Grab leaves no owner; a tap lost after that
      closes the gate with nothing outstanding, and the Begin stays unanswered
      when it reopens. */
  lemma {:induction false} FailedHideLeavesBeginOpen(pos: Position)
      returns (actions: seq<Action>, run: seq<System>)
    ensures IsRun(actions, run) && |actions| == 9 && actions[3] == HandleHeld(false)
    ensures ClosedFrom(actions, run, 4, 8) && !Outstanding(run[4])
    ensures run[9].shared.pending.None? && run[9].events == [Begin(pos)]
    ensures Unreleased(run[9].events) == {pos}
  {
    var a4, r4 := HideFails(pos);
    actions, run := TapLostAtRest(a4, r4, [Begin(pos)]);
    UnreleasedAppend([], Begin(pos));
    assert [] + [Begin(pos)] == [Begin(pos)];
  }

  // ------------------------------------------------------- a blocked crossing

  /** The callback waits for a free slot with the lock in its hands, and the
      only task that could free one is past the channel and wants the lock. */
  predicate Stuck(s: System) {
    s.crossing.Some? && |s.queue| == CHANNEL_CAPACITY && !s.producer.Idle?
  }

  /** From then on no step of any thread sends the Grab, takes an event off the
      channel or takes the lock. */
  lemma {:induction false} StuckStays(actions: seq<Action>, run: seq<System>, n: nat, k: nat)
    requires IsRun(actions, run) && n <= k <= |actions| && Stuck(run[n])
    ensures Stuck(run[k]) && run[k].queue == run[n].queue && run[k].crossing == run[n].crossing
    ensures run[k].shared == run[n].shared
    decreases k
  {
    if n < k {
      StuckStays(actions, run, n, k - 1);
    }
  }

  /** Some continuation of the run is done with the crossing. */
  ghost predicate CrossingCanEnd(actions: seq<Action>, run: seq<System>) {
    exists actions1: seq<Action>, run1: seq<System> ::
      IsRun(actions1, run1) && actions <= actions1 && run <= run1 && run1[|actions1|].crossing.None?
  }

  /** Unless it is stuck, a crossing sends its Grab at once, or after one event is
      taken off the channel. */
  lemma {:induction false} CrossingEnds(actions: seq<Action>, run: seq<System>)
      returns (actions1: seq<Action>, run1: seq<System>)
    requires IsRun(actions, run) && run[|actions|].crossing.Some? && !Stuck(run[|actions|])
    ensures IsRun(actions1, run1) && actions <= actions1 && run <= run1 && |actions1| <= |actions| + 2
    ensures run1[|actions1|].crossing.None? && Grab(run[|actions|].crossing.value) in run1[|actions1|].queue
  {
    EveryRunKeepsInv(actions, run, |actions|);
    actions1, run1 := actions, run;
    if |run[|actions|].queue| == CHANNEL_CAPACITY {
      actions1, run1 := Extend(actions1, run1, Receive);
    }
    actions1, run1 := Extend(actions1, run1, SendGrab);
  }

  /** So a crossing can still end exactly if it is not stuck. */
  lemma {:induction false} CrossingEndsUnlessStuck(actions: seq<Action>, run: seq<System>)
    requires IsRun(actions, run) && run[|actions|].crossing.Some?
    ensures CrossingCanEnd(actions, run) <==> !Stuck(run[|actions|])
  {
    if Stuck(run[|actions|]) {
      forall actions1: seq<Action>, run1: seq<System> | IsRun(actions1, run1) && actions <= actions1 && run <= run1
        ensures run1[|actions1|].crossing.Some?
      {
        assert run1[|actions|] == run[|actions|];
        StuckStays(actions1, run1, |actions|, |actions1|);
      }
    } else {
      var actions1, run1 := CrossingEnds(actions, run);
    }
  }

  lemma {:induction false} FillChannel(n: nat) returns (actions: seq<Action>, run: seq<System>)
    requires n <= CHANNEL_CAPACITY
    ensures IsRun(actions, run)
    ensures var s := run[|actions|];
      && |s.queue| == n && s.producer.Polling? && s.crossing.None? && s.notice.None?
      && s.shared == INITIAL.shared
  {
    if n == 0 {
      actions, run := Extend([], [INITIAL], Tick);
    } else {
      actions, run := FillChannel(n - 1);
      actions, run := Extend(actions, run, Enqueue(Unrelated));
    }
  }

  /** And it can come to that: a full channel, a crossing, and the producer at
      its periodic check. */
  lemma {:induction false} StuckIsReached(pos: Position) returns (actions: seq<Action>, run: seq<System>)
    ensures IsRun(actions, run) && Stuck(run[|actions|])
  {
    actions, run := FillChannel(CHANNEL_CAPACITY);
    actions, run := Extend(actions, run, Cross(pos));
  }
}
