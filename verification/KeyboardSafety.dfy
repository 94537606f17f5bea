/** Theorems about every run of the keyboard injector against every sink. */
module KeyboardSafety {
  import opened Wrappers
  import opened ModifierFlags
  import opened KeyboardState
  import opened KeyboardRuns

  datatype Op =
    | SyncOp(aggregate: Kinds, known: Sides, localFlags: Flags)
    | ConfirmOp
    | RetryOp
    | KeyDownOp(key: KeyCode)
    | KeyUpOp(key: KeyCode)
    | CapsTapOp(key: KeyCode)
    | ReleaseAllOp

  function Apply(sink: Sink, m: State, op: Op): State {
    match op
    case SyncOp(aggregate, known, localFlags) => Sync(sink, m, aggregate, known, localFlags).0
    case ConfirmOp => ConfirmReleases(sink, m).0
    case RetryOp => Retry(sink, m).0
    case KeyDownOp(key) => KeyDown(sink, m, key)
    case KeyUpOp(key) => KeyUp(sink, m, key).0
    case CapsTapOp(key) => CapsTap(sink, m, key).0
    case ReleaseAllOp => ReleaseAll(sink, m)
  }

  /** `run[n]` is the state after the first `n` calls. */
  predicate IsRun(sink: Sink, ops: seq<Op>, run: seq<State>) {
    && |run| == |ops| + 1 && run[0] == Fresh(sink)
    && forall n :: 0 <= n < |ops| ==> run[n + 1] == Apply(sink, run[n], ops[n])
  }

  /** A side was confirmed by a reading taken behind the release fence, or by a
      sink that cannot be read. */
  predicate Confirmed(sink: Sink, m: State, side: ModifierSide) {
    var reading := sink.readback(m.readings);
    reading.None? || (m.fenceSent && ShowsReleased(reading.value, side))
  }

  /** One call, whatever the sink answers. */
  predicate Step(sink: Sink, m: State, op: Op, m1: State) {
    && Inv(m1)
    && m.attempts <= m1.attempts
    // No ordinary or Caps press is posted on a degraded path.
    && (m.degraded ==> NoPress(m.attempts, m1.attempts))
    // The path changes only from a clean state and never back.
    && (m.path.CgEvent? ==> m1.path.CgEvent?)
    && (m.path != m1.path ==> m.path.Nx? && m1.pressed == {} && m1.held == {} && m1.pending == {} && !m1.degraded)
    && (m.degraded && !m1.degraded ==> m.path != m1.path)
    // A pending side is pressed again, confirmed, or still pending.
    && (forall side :: side in m.pending && side !in m1.pending ==> side in m1.held || Confirmed(sink, m, side))
    // Only an accepted retry sends the fence, and no release gets in front of it.
    && (m1.fenceSent ==> m1.pending <= m.pending && (m.fenceSent || AcceptedRetry(sink, m, op)))
  }

  predicate AcceptedRetry(sink: Sink, m: State, op: Op) {
    op.RetryOp? && m.pending != {} && Retry(sink, m).1
  }

  lemma {:induction false} FinishSteps(sink: Sink, m: State, op: Op, m1: State, m2: State)
    requires SoFar(m, m1) && m2 == Finish(sink, m1)
    ensures Step(sink, m, op, m2)
  {
  }

  lemma {:induction false} KeyDownSteps(sink: Sink, m: State, key: KeyCode)
    requires Inv(m)
    ensures Step(sink, m, KeyDownOp(key), KeyDown(sink, m, key))
  {
    KeyDownKeepsInv(sink, m, key);
    PostIsHeard(sink, m, Key(key, true, m.postFlags));
  }

  lemma {:induction false} KeyUpSteps(sink: Sink, m: State, key: KeyCode)
    requires Inv(m)
    ensures Step(sink, m, KeyUpOp(key), KeyUp(sink, m, key).0)
  {
    KeyUpKeepsInv(sink, m, key);
    ReleaseIsHeard(sink, m, m.path, Key(key, false, m.postFlags));
  }

  lemma {:induction false} CapsTapSteps(sink: Sink, m: State, key: KeyCode)
    requires Inv(m)
    ensures Step(sink, m, CapsTapOp(key), CapsTap(sink, m, key).0)
  {
    CapsTapKeepsInv(sink, m, key);
    var down, up := Key(key, true, m.postFlags), Key(key, false, m.postFlags);
    PostIsHeard(sink, m, down);
    ReleaseIsHeard(sink, Post(sink, m, down).0, m.path, up);
  }

  lemma {:induction false} SnapshotSteps(sink: Sink, m: State, op: Op)
    requires Inv(m) && op.SyncOp?
    ensures Step(sink, m, op, Apply(sink, m, op))
  {
    var m1, accepted := SyncKeepsInv(sink, m, op.aggregate, op.known, op.localFlags);
    FinishSteps(sink, m, op, m1, Apply(sink, m, op));
  }

  lemma {:induction false} RetrySteps(sink: Sink, m: State)
    requires Inv(m)
    ensures Step(sink, m, RetryOp, Apply(sink, m, RetryOp))
  {
    RetryKeepsInv(sink, m);
  }

  lemma {:induction false} ReleaseAllSteps(sink: Sink, m: State)
    requires Inv(m)
    ensures Step(sink, m, ReleaseAllOp, Apply(sink, m, ReleaseAllOp))
  {
    var m1 := ReleaseAllKeepsInv(sink, m);
    FinishSteps(sink, m, ReleaseAllOp, m1, Apply(sink, m, ReleaseAllOp));
  }

  lemma {:induction false} EveryCallSteps(sink: Sink, m: State, op: Op)
    requires Inv(m)
    ensures Step(sink, m, op, Apply(sink, m, op))
  {
    match op
    case SyncOp(_, _, _) => SnapshotSteps(sink, m, op);
    case ConfirmOp => FinishSteps(sink, m, op, m, Apply(sink, m, op));
    case RetryOp => RetrySteps(sink, m);
    case KeyDownOp(key) => KeyDownSteps(sink, m, key);
    case KeyUpOp(key) => KeyUpSteps(sink, m, key);
    case CapsTapOp(key) => CapsTapSteps(sink, m, key);
    case ReleaseAllOp => ReleaseAllSteps(sink, m);
  }

  predicate SafeRun(sink: Sink, ops: seq<Op>, run: seq<State>) {
    && |run| == |ops| + 1 && Inv(run[0]) && !run[0].fenceSent
    && forall n :: 0 <= n < |ops| ==> Step(sink, run[n], ops[n], run[n + 1])
  }

  /** In every run: the held sides are exactly those macOS last saw pressed and
      the remote flags describe them, held and pending sides are disjoint, every
      ordinary key macOS last saw down is recorded, only the first path can be
      degraded; and each call makes only the changes `Step` allows. */
  lemma {:induction false} EveryRunIsSafe(sink: Sink, ops: seq<Op>, run: seq<State>)
    requires IsRun(sink, ops, run)
    ensures SafeRun(sink, ops, run)
    ensures forall n :: 0 <= n <= |ops| ==> Inv(run[n])
  {
    PrefixIsSafe(sink, ops, run, |ops|);
  }

  lemma {:induction false} CallSteps(sink: Sink, m: State, op: Op, m1: State)
    requires Inv(m) && m1 == Apply(sink, m, op)
    ensures Step(sink, m, op, m1)
  {
    EveryCallSteps(sink, m, op);
  }

  lemma {:induction false} PrefixIsSafe(sink: Sink, ops: seq<Op>, run: seq<State>, n: nat)
    requires IsRun(sink, ops, run) && n <= |ops|
    ensures Inv(run[n]) && !run[0].fenceSent
    ensures forall k :: 0 <= k < n ==> Inv(run[k]) && Step(sink, run[k], ops[k], run[k + 1])
  {
    if n == 0 {
      FreshIsSafe(sink);
    } else {
      PrefixIsSafe(sink, ops, run, n - 1);
      CallSteps(sink, run[n - 1], ops[n - 1], run[n]);
    }
  }

  lemma {:induction false} FreshIsSafe(sink: Sink)
    ensures Inv(Fresh(sink)) && !Fresh(sink).fenceSent
  {
  }

  lemma {:induction false} FallbackStays(sink: Sink, ops: seq<Op>, run: seq<State>, i: nat, j: nat)
    requires SafeRun(sink, ops, run) && i <= j <= |ops| && run[i].path.CgEvent?
    ensures run[j].path.CgEvent?
    decreases j
  {
    if i < j {
      FallbackStays(sink, ops, run, i, j - 1);
      assert Step(sink, run[j - 1], ops[j - 1], run[j]);
    }
  }

  /** The path changes at most once in a run. */
  lemma {:induction false} PathChangesOnce(sink: Sink, ops: seq<Op>, run: seq<State>, i: nat, j: nat)
    requires IsRun(sink, ops, run) && i <= j <= |ops| && run[i].path.CgEvent?
    ensures run[j].path.CgEvent? && !run[j].degraded
  {
    EveryRunIsSafe(sink, ops, run);
    FallbackStays(sink, ops, run, i, j);
    assert Inv(run[j]);
  }

  /** Since the accepted retry at call `r`, every side pending now has been
      pending all along: its release came before the fence. */
  predicate FencedSince(sink: Sink, ops: seq<Op>, run: seq<State>, r: nat, n: nat)
    requires n < |run| && |run| == |ops| + 1
  {
    r < n && AcceptedRetry(sink, run[r], ops[r]) && PendingSince(run, r, n)
  }

  predicate PendingSince(run: seq<State>, r: nat, n: nat)
    requires n < |run|
  {
    forall k :: r <= k <= n ==> run[n].pending <= run[k].pending
  }

  lemma {:induction false} PendingOneMore(run: seq<State>, r: nat, n: nat)
    requires 0 < n < |run| && run[n].pending <= run[n - 1].pending
    ensures r < n && PendingSince(run, r, n - 1) ==> PendingSince(run, r, n)
    ensures PendingSince(run, n - 1, n)
  {
  }

  lemma {:induction false} FenceStep(sink: Sink, m: State, op: Op, m1: State)
    requires Step(sink, m, op, m1) && m1.fenceSent
    ensures m1.pending <= m.pending && (m.fenceSent || AcceptedRetry(sink, m, op))
  {
  }

  lemma {:induction false} FencedOneMore(sink: Sink, ops: seq<Op>, run: seq<State>, r: nat, n: nat)
    requires 0 < n < |run| && |run| == |ops| + 1
    requires FencedSince(sink, ops, run, r, n - 1) && run[n].pending <= run[n - 1].pending
    ensures FencedSince(sink, ops, run, r, n)
  {
    PendingOneMore(run, r, n);
  }

  lemma {:induction false} FenceAt(sink: Sink, ops: seq<Op>, run: seq<State>, n: nat)
    requires SafeRun(sink, ops, run) && n <= |ops| && run[n].fenceSent
    ensures 0 < n && run[n].pending <= run[n - 1].pending
    ensures run[n - 1].fenceSent || FencedSince(sink, ops, run, n - 1, n)
  {
    FenceStep(sink, run[n - 1], ops[n - 1], run[n]);
    PendingOneMore(run, n - 1, n);
  }

  lemma {:induction false} FenceFollowsReleases(sink: Sink, ops: seq<Op>, run: seq<State>, n: nat) returns (r: nat)
    requires SafeRun(sink, ops, run) && n <= |ops| && run[n].fenceSent
    ensures FencedSince(sink, ops, run, r, n)
    decreases n
  {
    FenceAt(sink, ops, run, n);
    r := n - 1;
    if run[n - 1].fenceSent {
      r := FenceFollowsReleases(sink, ops, run, n - 1);
      FencedOneMore(sink, ops, run, r, n);
    }
  }

  lemma {:induction false} PendingStep(sink: Sink, ops: seq<Op>, run: seq<State>, n: nat, side: ModifierSide)
      returns (r: nat)
    requires SafeRun(sink, ops, run) && n < |ops| && sink.readback(run[n].readings).Some?
    requires side in run[n].pending && side !in run[n + 1].pending && side !in run[n + 1].held
    ensures FencedSince(sink, ops, run, r, n)
    ensures ShowsReleased(sink.readback(run[n].readings).value, side)
  {
    assert Step(sink, run[n], ops[n], run[n + 1]);
    r := FenceFollowsReleases(sink, ops, run, n);
  }

  lemma {:induction false} RetryCallFences(sink: Sink, m: State, op: Op, m1: State, side: ModifierSide)
    requires Inv(m) && m1 == Apply(sink, m, op) && AcceptedRetry(sink, m, op) && side in m.pending
    ensures Fenced(m1.attempts, |m.attempts|, RetryPosts(sink, m), side)
  {
    RetryFences(sink, m, side);
  }

  /** With a readable sink, a side stops being pending only if macOS accepted
      pressing it again, or if a retry put an accepted fallback-path event behind
      its release and a later reading showed it clear. */
  lemma {:induction false} PendingLeavesOnlyConfirmed(
      sink: Sink, ops: seq<Op>, run: seq<State>, n: nat, side: ModifierSide) returns (r: nat)
    requires IsRun(sink, ops, run) && n < |ops| && sink.readback(run[n].readings).Some?
    requires side in run[n].pending && side !in run[n + 1].pending
    ensures side in run[n + 1].held * ToldBy(run[n + 1].attempts).raised ||
      (&& FencedSince(sink, ops, run, r, n)
       && Fenced(run[r + 1].attempts, |run[r].attempts|, RetryPosts(sink, run[r]), side)
       && ShowsReleased(sink.readback(run[n].readings).value, side))
  {
    r := 0;
    EveryRunIsSafe(sink, ops, run);
    assert Inv(run[n + 1]);
    if side !in run[n + 1].held {
      r := PendingStep(sink, ops, run, n, side);
      assert side in run[r].pending && Inv(run[r]);
      RetryCallFences(sink, run[r], ops[r], run[r + 1], side);
    }
  }

  // ------------------------------------------------------- fence convergence

  /** The sink accepts the retry and its next reading is what was posted. */
  predicate Cooperates(sink: Sink, m: State) {
    && Retry(sink, m).1
    && sink.readback(Retry(sink, m).0.readings) == Some(Retry(sink, m).0.postFlags)
  }

  /** From any consistent state a retry that is accepted and read back as
      posted lets the next confirmation empty the pending set. */
  lemma {:induction false} FenceConverges(sink: Sink, m: State)
    requires Inv(m) && m.pending != {} && Cooperates(sink, m)
    ensures ConfirmReleases(sink, Retry(sink, m).0).1
  {
    var m1 := Retry(sink, m).0;
    RetryKeepsInv(sink, m);
    var side :| side in m.pending;
    RetryFences(sink, m, side);
    forall side | side in m.pending ensures ShowsReleased(m1.postFlags, side) {
      RetryClearsBits(m, sink.readback(m.readings).GetOr(m.localFlags), side);
    }
    assert Confirm(sink, m1).pending == {};
  }

  /** A sink that cannot be read is believed: one confirmation clears everything. */
  lemma {:induction false} UnreadableSinkIsBelieved(sink: Sink, m: State)
    requires sink.readback(m.readings).None?
    ensures ConfirmReleases(sink, m).1 && ConfirmReleases(sink, m).0.pending == {}
    ensures ConfirmReleases(sink, m).0.held == m.held && ConfirmReleases(sink, m).0.attempts == m.attempts
  {
    FinishIsSilent(sink, m);
  }

  /** Waiting keeps the invariant, stops after at most `retries` rounds of two
      readings, and reports success exactly when nothing is pending any more. */
  lemma {:induction false} WaitEnds(sink: Sink, m: State, retries: nat)
    requires Inv(m) && m.pending != {}
    ensures var (m1, result) := WaitRetrying(sink, m, retries);
      && Inv(m1) && (result.Cleared? <==> m1.pending == {})
      && m1.readings <= m.readings + 2 * retries
    decreases retries
  {
    if retries > 0 {
      EveryCallSteps(sink, m, RetryOp);
      RetryKeepsInv(sink, m);
      RetryReadsOnce(sink, m);
      var (m1, sent) := Retry(sink, m);
      if sent {
        EveryCallSteps(sink, m1, ConfirmOp);
        ConfirmReadsOnce(sink, m1);
        if !ConfirmReleases(sink, m1).1 {
          WaitEnds(sink, ConfirmReleases(sink, m1).0, retries - 1);
        }
      }
    }
  }

  lemma {:induction false} RetryReadsOnce(sink: Sink, m: State)
    requires Inv(m)
    ensures Retry(sink, m).0.readings <= m.readings + 1
  {
    if m.pending != {} {
      var r := RetryAtOnce(sink, m);
      RetrySidesFence(sink, m);
    }
  }

  lemma {:induction false} ConfirmReadsOnce(sink: Sink, m: State)
    ensures ConfirmReleases(sink, m).0.readings <= m.readings + 1
  {
  }

  /** One round of waiting: an accepted retry and the confirmation after it. */
  predicate Round(sink: Sink, m: State, m1: State) {
    Retry(sink, m).1 && m1 == ConfirmReleases(sink, Retry(sink, m).0).0
  }

  predicate RoundAt(sink: Sink, run: seq<State>, i: nat)
    requires i + 1 < |run|
  {
    Round(sink, run[i], run[i + 1])
  }

  predicate Rounds(sink: Sink, run: seq<State>) {
    forall i :: 0 <= i < |run| - 1 ==> RoundAt(sink, run, i)
  }

  lemma {:induction false} RoundKeepsInv(sink: Sink, run: seq<State>, i: nat)
    requires i + 1 < |run| && Inv(run[i]) && Rounds(sink, run)
    ensures Inv(run[i + 1])
  {
    assert RoundAt(sink, run, i);
    EveryCallSteps(sink, run[i], RetryOp);
    EveryCallSteps(sink, Retry(sink, run[i]).0, ConfirmOp);
  }

  lemma {:induction false} RoundsKeepInv(sink: Sink, run: seq<State>, i: nat)
    requires i < |run| && Inv(run[0]) && Rounds(sink, run)
    ensures Inv(run[i])
  {
    if i > 0 {
      RoundsKeepInv(sink, run, i - 1);
      RoundKeepsInv(sink, run, i - 1);
    }
  }

  predicate EndsCleared(sink: Sink, m: State, retries: nat) {
    WaitRetrying(sink, m, retries).1.Cleared? && WaitRetrying(sink, m, retries).0.pending == {}
  }

  lemma {:induction false} RoundAtLeads(sink: Sink, run: seq<State>, i: nat, retries: nat)
    requires retries > 0 && i + 1 < |run| && Rounds(sink, run)
    requires run[i + 1].pending == {} || EndsCleared(sink, run[i + 1], retries - 1)
    ensures EndsCleared(sink, run[i], retries)
  {
    assert RoundAt(sink, run, i);
  }

  lemma {:induction false} RoundsLead(sink: Sink, run: seq<State>, i: nat, retries: nat)
    requires Rounds(sink, run) && i + 1 < |run| <= retries + i + 1 && run[|run| - 1].pending == {}
    ensures EndsCleared(sink, run[i], retries)
    decreases |run| - i
  {
    if i + 2 < |run| {
      RoundsLead(sink, run, i + 1, retries - 1);
    }
    RoundAtLeads(sink, run, i, retries);
  }

  lemma {:induction false} CooperationClears(sink: Sink, m: State) returns (m1: State)
    requires Inv(m) && m.pending != {} && Cooperates(sink, m)
    ensures Round(sink, m, m1) && m1.pending == {}
  {
    m1 := ConfirmReleases(sink, Retry(sink, m).0).0;
    FenceConverges(sink, m);
  }

  lemma {:induction false} OneMoreRound(sink: Sink, run: seq<State>, m: State)
    requires run != [] && Rounds(sink, run) && Round(sink, run[|run| - 1], m)
    ensures Rounds(sink, run + [m])
  {
    forall i | 0 <= i < |run| ensures RoundAt(sink, run + [m], i) {
      assert i < |run| - 1 ==> RoundAt(sink, run, i);
    }
  }

  /** Waiting succeeds if the sink cooperates with any of its twenty retries,
      whatever the accepted rounds before that one showed. */
  lemma {:induction false} WaitSucceeds(sink: Sink, m: State, run: seq<State>)
    requires Inv(m) && 0 < |run| <= 20 && run[0] == ConfirmReleases(sink, m).0 && Rounds(sink, run)
    requires var last := run[|run| - 1]; last.pending != {} ==> Cooperates(sink, last)
    ensures Wait(sink, m, 20).1.Cleared?
    ensures Wait(sink, m, 20).0.pending == {}
  {
    var last := run[|run| - 1];
    EveryCallSteps(sink, m, ConfirmOp);
    if last.pending != {} {
      RoundsKeepInv(sink, run, |run| - 1);
      var m1 := CooperationClears(sink, last);
      OneMoreRound(sink, run, m1);
      RoundsLead(sink, run + [m1], 0, 20);
    } else if |run| > 1 {
      RoundsLead(sink, run, 0, 20);
    }
  }

  predicate EndsAs(sink: Sink, m: State, retries: nat, result: WaitResult) {
    WaitRetrying(sink, m, retries).1 == result
  }

  /** How waiting ends from the `j`-th state on, with `left` retries after the last. */
  predicate EndsFrom(sink: Sink, run: seq<State>, left: nat, result: WaitResult, j: nat)
    requires j < |run|
  {
    EndsAs(sink, run[j], left + |run| - 1 - j, result)
  }

  /** After a round that did not clear, waiting ends as it does from there. */
  lemma {:induction false} RoundGoesOn(sink: Sink, run: seq<State>, left: nat, result: WaitResult, j: nat)
    requires j + 1 < |run| && Rounds(sink, run) && run[j + 1].pending != {}
    requires EndsFrom(sink, run, left, result, j + 1)
    ensures EndsFrom(sink, run, left, result, j)
  {
    assert RoundAt(sink, run, j);
  }

  lemma {:induction false} Backwards(ends: seq<bool>, j: nat)
    requires j < |ends| && ends[|ends| - 1] && forall i :: 0 < i < |ends| && ends[i] ==> ends[i - 1]
    ensures ends[j]
    decreases |ends| - j
  {
    if j + 1 < |ends| {
      Backwards(ends, j + 1);
      assert ends[(j + 1) - 1];
    }
  }

  /** Rounds that do not clear end as the last of them does. */
  lemma {:induction false} RoundsGoOn(sink: Sink, run: seq<State>, left: nat, result: WaitResult)
    requires run != [] && Rounds(sink, run) && EndsAs(sink, run[|run| - 1], left, result)
    requires forall j :: 0 < j < |run| ==> run[j].pending != {}
    ensures EndsAs(sink, run[0], left + |run| - 1, result)
  {
    var ends := seq(|run|, j requires 0 <= j < |run| => EndsFrom(sink, run, left, result, j));
    forall i | 0 < i < |ends| && ends[i] ensures ends[i - 1] {
      RoundGoesOn(sink, run, left, result, i - 1);
    }
    Backwards(ends, 0);
    assert ends[0] == EndsFrom(sink, run, left, result, 0);
  }

  /** Waiting times out where no retry is left, */
  lemma {:induction false} OutOfRetries(sink: Sink, m: State)
    ensures EndsAs(sink, m, 0, TimedOut)
  {
  }

  /** and fails at the first retry that is refused. */
  lemma {:induction false} RefusedRetry(sink: Sink, m: State, left: nat)
    requires left > 0 && !Retry(sink, m).1
    ensures EndsAs(sink, m, left, Failed)
  {
  }

  // --------------------------------------------------------- one snapshot

  function PlannedAttempt(path: Path, locallyHeld: Flags, step: PlanStep, accepted: bool): Attempt {
    Attempt(path, Modifiers(step.side.KeyCode(), locallyHeld + FlagsFor(step.next)), accepted)
  }

  function PlannedAttempts(path: Path, locallyHeld: Flags, plan: seq<PlanStep>): seq<Attempt> {
    seq(|plan|, i requires 0 <= i < |plan| => PlannedAttempt(path, locallyHeld, plan[i], true))
  }

  lemma {:induction false} SyncStepLogs(sink: Sink, m: State, locallyHeld: Flags, step: PlanStep)
    ensures var (m1, accepted) := SyncStep(sink, m, locallyHeld, step);
      && m1.attempts == m.attempts + [PlannedAttempt(m.path, locallyHeld, step, accepted)]
      && m1.path == m.path && m1.held == (if accepted then step.next else m.held)
      && (accepted ==> m1.postFlags == locallyHeld + FlagsFor(step.next)) && m1.localFlags == m.localFlags
      && m1.fenceSent == (m.fenceSent && (accepted ==> step.side in step.next))
  {
  }

  /** No step releases a side. */
  predicate OnlyPresses(plan: seq<PlanStep>) {
    forall i :: 0 <= i < |plan| ==> plan[i].side in plan[i].next
  }

  /** `n` accepted steps, and the rejected one if the plan was cut short. */
  function PrefixLog(path: Path, locallyHeld: Flags, plan: seq<PlanStep>, n: nat): seq<Attempt>
    requires n <= |plan|
  {
    PlannedAttempts(path, locallyHeld, plan[..n])
    + if n == |plan| then [] else [PlannedAttempt(path, locallyHeld, plan[n], false)]
  }

  lemma {:induction false} PrefixLogJoins(
      attempts: seq<Attempt>, path: Path, locallyHeld: Flags, plan: seq<PlanStep>, k: nat)
    requires k < |plan|
    ensures attempts + [PlannedAttempt(path, locallyHeld, plan[0], true)] + PrefixLog(path, locallyHeld, plan[1..], k)
         == attempts + PrefixLog(path, locallyHeld, plan, k + 1)
  {
    assert plan[..k + 1] == [plan[0]] + plan[1..][..k];
    assert PrefixLog(path, locallyHeld, plan, k + 1)
      == [PlannedAttempt(path, locallyHeld, plan[0], true)] + PrefixLog(path, locallyHeld, plan[1..], k);
  }

  lemma {:induction false} OnlyPressesStep(plan: seq<PlanStep>, k: nat)
    requires k < |plan|
    ensures OnlyPresses(plan[..k + 1]) <==> plan[0].side in plan[0].next && OnlyPresses(plan[1..][..k])
  {
    assert forall i :: 0 <= i < k ==> plan[1..][..k][i] == plan[..k + 1][i + 1];
  }

  lemma {:induction false} SyncStepsFence(sink: Sink, m: State, locallyHeld: Flags, plan: seq<PlanStep>)
      returns (n: nat)
    ensures var (m1, accepted) := SyncSteps(sink, m, locallyHeld, plan);
      && n <= |plan| && |m1.attempts| == |m.attempts| + n + (if accepted then 0 else 1) && (accepted <==> n == |plan|)
      && m1.fenceSent == (m.fenceSent && OnlyPresses(plan[..n]))
    decreases |plan|
  {
    n := 0;
    if plan != [] {
      SyncStepLogs(sink, m, locallyHeld, plan[0]);
      var r := SyncStep(sink, m, locallyHeld, plan[0]);
      if r.1 {
        var k := SyncStepsFence(sink, r.0, locallyHeld, plan[1..]);
        n := k + 1;
        OnlyPressesStep(plan, k);
      }
    }
  }

  /** How many of the next `steps` injections are accepted before one is refused. */
  function Taken(sink: Sink, from: nat, steps: nat): (n: nat)
    ensures n <= steps
    decreases steps
  {
    if steps == 0 || !sink.accepts(from) then 0 else 1 + Taken(sink, from + 1, steps - 1)
  }

  lemma {:induction false} SyncStepsLog(sink: Sink, m: State, locallyHeld: Flags, plan: seq<PlanStep>)
      returns (n: nat)
    ensures var (m1, accepted) := SyncSteps(sink, m, locallyHeld, plan);
      && n == Taken(sink, |m.attempts|, |plan|) && (accepted <==> n == |plan|)
      && m1.attempts == m.attempts + PrefixLog(m.path, locallyHeld, plan, n)
    decreases |plan|
  {
    n := 0;
    if plan != [] {
      SyncStepLogs(sink, m, locallyHeld, plan[0]);
      var r := SyncStep(sink, m, locallyHeld, plan[0]);
      if r.1 {
        var k := SyncStepsLog(sink, r.0, locallyHeld, plan[1..]);
        n := k + 1;
        PrefixLogJoins(m.attempts, m.path, locallyHeld, plan, k);
      }
    }
  }

  lemma {:induction false} SyncStepsHold(sink: Sink, m: State, locallyHeld: Flags, plan: seq<PlanStep>)
      returns (n: nat)
    ensures var (m1, accepted) := SyncSteps(sink, m, locallyHeld, plan);
      && n == Taken(sink, |m.attempts|, |plan|)
      && m1.held == EndOf(m.held, plan[..n])
      && m1.postFlags == (if n == 0 then m.postFlags else locallyHeld + FlagsFor(m1.held))
      && m1.localFlags == m.localFlags
    decreases |plan|
  {
    n := 0;
    if plan != [] {
      SyncStepLogs(sink, m, locallyHeld, plan[0]);
      var r := SyncStep(sink, m, locallyHeld, plan[0]);
      if r.1 {
        var k := SyncStepsHold(sink, r.0, locallyHeld, plan[1..]);
        n := k + 1;
        assert plan[..k + 1] == [plan[0]] + plan[1..][..k];
      }
    }
  }

  lemma {:induction false} FinishIsSilent(sink: Sink, m: State)
    ensures var m1 := Finish(sink, m);
      && m1.attempts == m.attempts && m1.held == m.held && m1.postFlags == m.postFlags
      && m1.pressed == m.pressed && m1.localFlags == m.localFlags && m1.fenceSent == m.fenceSent
  {
  }

  /** A snapshot posts a prefix of the plan: all of it if it reports success,
      otherwise exactly the accepted steps and then the rejected one. The held sides
      are those after the last accepted step. */
  lemma {:induction false} FailedSyncLeavesPrefix(
      sink: Sink, m: State, aggregate: Kinds, known: Sides, localFlags: Flags) returns (n: nat)
    ensures var plan := Transitions(m.held, DesiredSides(aggregate, known));
      var (m1, accepted) := Sync(sink, m, aggregate, known, localFlags);
      && n <= |plan| && (accepted <==> n == |plan|)
      && m1.held == EndOf(m.held, plan[..n])
      && m1.postFlags == (if n == 0 then m.postFlags else Baseline(m, localFlags) + FlagsFor(m1.held))
      && m1.attempts == m.attempts + PrefixLog(m.path, Baseline(m, localFlags), plan, n)
      && m1.localFlags == localFlags
  {
    var m0 := m.(localFlags := localFlags);
    var plan := Transitions(m.held, DesiredSides(aggregate, known));
    n := SyncStepsLog(sink, m0, Baseline(m, localFlags), plan);
    var k := SyncStepsHold(sink, m0, Baseline(m, localFlags), plan);
    FinishIsSilent(sink, SyncSteps(sink, m0, Baseline(m, localFlags), plan).0);
  }

  /** A fence in force stays so unless one of the accepted steps released a side. */
  lemma {:induction false} SyncKeepsFence(
      sink: Sink, m: State, aggregate: Kinds, known: Sides, localFlags: Flags) returns (n: nat)
    ensures var plan := Transitions(m.held, DesiredSides(aggregate, known));
      var (m1, accepted) := Sync(sink, m, aggregate, known, localFlags);
      && n <= |plan| && |m1.attempts| == |m.attempts| + n + (if accepted then 0 else 1)
      && m1.fenceSent == (m.fenceSent && OnlyPresses(plan[..n]))
  {
    var m0 := m.(localFlags := localFlags);
    var plan := Transitions(m.held, DesiredSides(aggregate, known));
    n := SyncStepsFence(sink, m0, Baseline(m, localFlags), plan);
    FinishIsSilent(sink, SyncSteps(sink, m0, Baseline(m, localFlags), plan).0);
  }

  /** Repeating an accepted snapshot posts nothing, whatever the local flags. */
  lemma {:induction false} RepeatedSyncIsSilent(
      sink: Sink, m: State, aggregate: Kinds, known: Sides, localFlags: Flags, later: Flags)
    requires Sync(sink, m, aggregate, known, localFlags).1
    ensures var m1 := Sync(sink, m, aggregate, known, localFlags).0;
      && m1.held == DesiredSides(aggregate, known)
      && Sync(sink, m1, aggregate, known, later).0.attempts == m1.attempts
      && Sync(sink, m1, aggregate, known, later).1
  {
    var desired := DesiredSides(aggregate, known);
    var n := FailedSyncLeavesPrefix(sink, m, aggregate, known, localFlags);
    var plan := Transitions(m.held, desired);
    assert plan[..n] == plan;
    PlanIsMinimal(m.held, desired);
    var m1 := Sync(sink, m, aggregate, known, localFlags).0;
    PlanIsMinimal(m1.held, desired);
    var k := FailedSyncLeavesPrefix(sink, m1, aggregate, known, later);
  }

  lemma {:induction false} FlagsUnion(a: Sides, b: Sides)
    ensures FlagsFor(a) + FlagsFor(b) == FlagsFor(a + b)
  {
  }

  lemma {:induction false} BaselineIsLocal(m: State, local: Sides)
    requires Inv(m)
    ensures Baseline(m, FlagsFor(local + m.held + m.pending)) == FlagsFor(local - m.held - m.pending)
  {
    FlagsUnion(m.held, m.pending);
    assert local + m.held + m.pending == local + (m.held + m.pending);
    assert local - m.held - m.pending == local - (m.held + m.pending);
    FlagAlgebra(local, m.held + m.pending);
  }

  lemma {:induction false} ReleasingAll(held: Sides)
    requires held != {}
    ensures DesiredSides({}, {}) == {} && FlagsFor({}) == {}
    ensures |Transitions(held, {})| > 0 && EndOf(held, Transitions(held, {})) == {}
  {
    PlanIsMinimal(held, {});
    assert held - {} == held;
  }

  /** Releasing every remote side in one batch, from an observation of local
      plus remote sides, publishes exactly the local sides' flags at the end. */
  lemma {:induction false} BatchReleasePublishesLocal(sink: Sink, m: State, local: Sides)
    requires Inv(m) && m.held != {}
    requires Sync(sink, m, {}, {}, FlagsFor(local + m.held + m.pending)).1
    ensures Sync(sink, m, {}, {}, FlagsFor(local + m.held + m.pending)).0.postFlags
         == FlagsFor(local - m.held - m.pending)
  {
    var observed := FlagsFor(local + m.held + m.pending);
    ReleasingAll(m.held);
    var n := FailedSyncLeavesPrefix(sink, m, {}, {}, observed);
    assert Transitions(m.held, {})[..n] == Transitions(m.held, {});
    BaselineIsLocal(m, local);
  }

  // ----------------------------------------------------------- release all

  /** The tree set's order: every recorded key once, smallest first. */
  lemma {:induction false} AscendingIsTheSet(keys: set<KeyCode>, from: nat)
    requires from <= 0x1_0000
    ensures var order := AscendingFrom(keys, from);
      && (forall key: KeyCode :: key in order <==> key in keys && from <= key)
      && (forall i, j :: 0 <= i < j < |order| ==> order[i] < order[j])
    decreases 0x1_0000 - from
  {
    if from < 0x1_0000 {
      AscendingIsTheSet(keys, from + 1);
      var rest := AscendingFrom(keys, from + 1);
      assert forall j :: 0 <= j < |rest| ==> rest[j] in rest;
    }
  }

  // -------------------------------------------------------- single keys

  /** A down is recorded exactly when macOS accepted it; on a degraded path it
      is only counted. */
  lemma {:induction false} KeyDownRecordsOnlyAccepted(sink: Sink, m: State, key: KeyCode)
    ensures var m1 := KeyDown(sink, m, key);
      && (m.degraded ==> m1 == m.(dropped := m.dropped + 1))
      && (!m.degraded ==>
            |m1.attempts| == |m.attempts| + 1
            && m1.attempts[|m.attempts|].injection == Key(key, true, m.postFlags)
            && m1.pressed == (if m1.attempts[|m.attempts|].accepted then m.pressed + {key} else m.pressed)
            && (m1.attempts[|m.attempts|].accepted ==> key in ToldBy(m1.attempts).down))
  {
    PostIsHeard(sink, m, Key(key, true, m.postFlags));
  }

  predicate Settles(op: Op) {
    op.SyncOp? || op.ConfirmOp? || op.KeyUpOp? || op.ReleaseAllOp?
  }

  /** After every call that can empty the record, a path that failed is kept only
      while something injected is still on record. */
  lemma {:induction false} FailedPathIsLeftWhenClean(sink: Sink, m: State, op: Op)
    requires Inv(m) && Settles(op)
    ensures var m1 := Apply(sink, m, op);
      m1.degraded ==> m1.pressed != {} || m1.held != {} || m1.pending != {}
  {
    EveryCallSteps(sink, m, op);
    var m1 := Apply(sink, m, op);
    var before := WasSettled(sink, m, op);
    assert m1 == Settle(before);
  }

  lemma {:induction false} WasSettled(sink: Sink, m: State, op: Op) returns (before: State)
    requires Settles(op)
    ensures Apply(sink, m, op) == Settle(before)
  {
    match op
    case SyncOp(aggregate, known, localFlags) =>
      var m1 := m.(localFlags := localFlags);
      before := Confirm(sink,
        SyncSteps(sink, m1, Baseline(m1, localFlags), Transitions(m1.held, DesiredSides(aggregate, known))).0);
    case ConfirmOp => before := Confirm(sink, m);
    case KeyUpOp(key) =>
      var r := Release(sink, m, m.path, Key(key, false, m.postFlags));
      before := if r.1 then r.0.(pressed := r.0.pressed - {key}) else r.0;
    case ReleaseAllOp =>
      before := Confirm(sink, ReleaseHeld(sink, ReleaseKeys(sink, m, m.path, AscendingFrom(m.pressed, 0)), m.path));
  }

  /** The flags of a pointer event show every side the remote holds, no side still
      waiting for its release to be confirmed, and any other side exactly if the
      fresh observation does. */
  lemma {:induction false} PointerFlagsAreCurrent(m: State, observed: Flags, side: ModifierSide)
    requires Inv(m)
    ensures RetryFlags(m, observed) <= MANAGED
    ensures side in m.pending ==> ShowsReleased(RetryFlags(m, observed), side)
    ensures side !in m.pending ==>
      (side.DeviceBit() in RetryFlags(m, observed) <==> side in m.held || side.DeviceBit() in observed)
  {
    LocallyHeldBits(observed, m.remoteFlags + FlagsFor(m.pending), side);
    FlagsForBits(m.held, side);
    FlagsForBits(m.pending, side);
    if side in m.pending {
      RetryClearsBits(m, observed, side);
    }
  }
}
