# Input sharing: a verified model of held input, captured pointers and peer geometry

Mousehop shares one keyboard and pointer between machines. Its hard question is
always the same: does the software's record of what is held, what is captured
and what the peer looks like stay right over every run, whatever the operating
system refuses, loses, repeats or reorders? This project models the components
that answer it and proves the answers.

Each component is modelled twice. The objects that Mousehop updates in place
are classes whose methods change the same fields step by step; each method is
tied to a specification function or states its new state outright. Whole runs
are then proved about: every sink, backend, portal and pasteboard is an
adversary that may accept, refuse, fail or answer anything.

| files | component |
|---|---|
| `ModifierFlags`, `KeyboardState`, `KeyboardInjector`, `KeyboardRuns`, `KeyboardSafety`, `KeyboardReleases` | the macOS keyboard injector: modifier plans, pending releases and their fence, the one-way change of injection path |
| `ModifierTracker` | the remote's physical and aggregate modifiers that feed it |
| `InputLedger`, `LedgerHistory`, `InputEmulation` | per-handle ledgers over a backend that may refuse any call, and the cleanup gate |
| `TapRecovery`, `TapProtocol`, `TapOwnership` | recovery of the macOS event tap: callback thread, producer task, FIFO channel, generations |
| `PortalBarriers`, `PortalSession`, `PortalConfigurations`, `PortalRuns`, `PortalCapture` | the portal capture task: select arms, suspended hand-overs, barrier identifiers |
| `PeerTopology`, `WallPress`, `InputCapture` | the capture wrapper's peer model: layout versions, wall-press release, deferred motion, handles |
| `ZoomGesture` | pinch magnification turned into wheel notches |
| `ClipboardGate`, `Pasteboard`, `ClipboardTransfer` | the pasteboard ownership fence, the receipt protocol, and sampling behind the fence |
| `DibDecoder`, `DibEncoder` | clipboard bitmaps and a reference encoder |
| `UnicodeText` | Windows clipboard text: UTF-16 to bounded UTF-8 |
| `FileUrl` | local file URLs |
| `Wrappers`, `Positions`, `Sequences`, `SerialNumbers` | shared vocabulary |

Conventions. Bit fields (modifier sides, kinds, flag words, snapshot masks) are
sets of one-bits, so `|` is `+`, `&` is `*` and `& !` is `-`. `f64` accumulators
are reals, and a value that is not finite is `None`. Errors are `Option`, result
datatypes or booleans. A native call is a nondeterministic choice, or an oracle
indexed by how many calls were made before; its answers are universally
quantified in every theorem. A ghost log keeps what was handed out, and
properties are judged by that log alone (`ToldBy`, `TriedSince`, `HeldBy`,
`OnRecord`, `TookAndKept`, `HearAll`), not by the record whose correctness is at
stake.
A pasteboard is healthy if it counts every change of ownership, from a valid count
on, and has not run out of counts.

## What turned out not to hold

- A portal session can lose an AutoRelease. The active position is forgotten
  before the portal release is awaited, and the AutoRelease is sent after it; if
  the EIS stream ends in between, the suspended arm is dropped and nothing is
  sent, so the next session begins a second capture. `HandoverLost` is the exact
  condition (`AgreesUnlessHandoverLost`); `LostHandoverBeginsTwice` is a run from
  the start of the capture task that begins twice with nothing in between.
- A portal activation that names no barrier is mapped to the nearest current one,
  so only activations that do name a barrier are safe against stale deliveries
  (`StaleActivationBeginsNothing`, `BeginsExactlyWhenMapped`). Nearest is measured
  to the barrier's line, not to its piece of it: a cursor at one barrier begins a
  capture there exactly if the first barrier whose line is within a pixel of it
  has the same position (`UnnamedBeginsOnFirstLine`); `CornerBeginsAtTop` is a run
  that leaves through the right edge and begins a capture at the top.
- A Begin while a wall-press release is armed leaves it armed without any
  pressure; exactly then does "armed" stop meaning "pressed"
  (`BeginWhileArmedKeepsArmed`); `ArmedWithoutPressure` is the run from rest.
- The tap protocol releases captures and queued Grabs, not every Begin. Begins
  stay unanswered over a closed interval exactly if there was one and neither a
  capture nor a queued Grab was outstanding when the tap was lost
  (`IntervalAnswersOutstanding`); that happens if hiding the cursor fails
  (`FailedHideLeavesBeginOpen` is the run).
- The tap callback sends a crossing's Grab with the state lock in its hands. If the
  channel is full while the producer is past the channel and wants that lock,
  neither ever moves again (`StuckStays`); in every other state the Grab goes out,
  at once or after one event is taken off the channel
  (`CrossingEnds`, `CrossingEndsUnlessStuck`). `StuckIsReached` is the run.
- An AltGr-only snapshot forgets a known Option side although Option is still
  down, and the injector is asked to hold the left one
  (`KnownSideLostOnlyUnderMod5`, `AltGrSnapshotMigratesToLeftOption`).

## Model

| member | source | states |
|---|---|---|
| ModifierFlags.ComputeFlags | input-emulation/src/macos_keyboard.rs:409-417 | the flag word of a side set |
| ModifierFlags.ObservedModifierFlags | input-emulation/src/macos_keyboard.rs:426-434 | key-bitmap evidence sets only general bits: it never invents a side, and no native flag is lost |
| ModifierFlags.FlagsForBits | input-emulation/src/macos_keyboard.rs:305-330 | a device bit shows exactly its side, a general bit either side of its kind; only managed bits are written |
| ModifierFlags.SideWords | input-emulation/src/macos_keyboard.rs:304-328 | the flag word and key code of each single side, as literal bits |
| ModifierFlags.LocallyHeldBits | input-emulation/src/macos_keyboard.rs:482-492 | which device and general bits survive removing the remote's flags from an observation |
| ModifierFlags.FlagAlgebra | input-emulation/src/macos_keyboard.rs:482-492 | from an observation of local plus remote sides, removing the remote flags leaves exactly the flags of the distinguishable local sides |
| ModifierFlags.RetryFlagsShowReleased | input-emulation/src/macos_keyboard.rs:840-866 | the flags a retry posts show every pending side as released, whatever was observed |
| ModifierFlags.ReleaseIsShownExactly | input-emulation/src/macos_keyboard.rs:817-838 | an observation shows a side released exactly if its own bit is clear and either its sibling shows or no key of its kind is down |
| ModifierFlags.ComputeDesiredSides | input-emulation/src/macos_keyboard.rs:444-461 | the two passes compute the wanted sides |
| ModifierFlags.DesiredSidesMatchAggregate | input-emulation/src/macos_keyboard.rs:436-461 | exactly the depressed kinds are wanted, known sides are kept, and an invented side is a left one of a kind with no known side |
| ModifierFlags.ComputeTransitions | input-emulation/src/macos_keyboard.rs:500-519 | the two loops compute the transition plan |
| ModifierFlags.PlanIsMinimal | input-emulation/src/macos_keyboard.rs:494-519 | one side per step, releases before presses, no side of both sets touched, ends at the desired set, as long as the symmetric difference |
| ModifierTracker.ModifierTracker.UpdateModifiers | input-emulation/src/macos.rs:1330-1351 | a key event moves one side and its kind's mask follows the sides that remain |
| ModifierTracker.ModifierTracker.SetModifiers | input-emulation/src/macos.rs:1399-1430 | a snapshot replaces the aggregate and keeps a known side exactly while its mask bit is set |
| ModifierTracker.ModifierTracker.ToggleCapsLock | input-emulation/src/macos.rs:1393-1397 | the lock bit flips, nothing else |
| ModifierTracker.EveryIdentifiedSideIsWanted | input-emulation/src/macos.rs:1358-1386 | the tracker asks the injector for every identified side and exactly the aggregate's kinds |
| ModifierTracker.KnownSideLostOnlyUnderMod5 | input-emulation/src/macos.rs:1399-1430 | a known side of a depressed kind is lost exactly for Option reported through Mod5 alone |
| ModifierTracker.AltGrSnapshotMigratesToLeftOption | input-emulation/src/macos.rs:1399-1430 | the concrete case: right Option becomes left Option |
| KeyboardInjector.KeyboardInjector.SyncModifiers | input-emulation/src/macos_keyboard.rs:753-796 | one batch over a single baseline, stopped at the first refusal, then confirmation and settling |
| KeyboardInjector.KeyboardInjector.PointerEventFlags | input-emulation/src/macos_keyboard.rs:799-806 | managed bits are recomputed, all others of the 64-bit word inherited |
| KeyboardInjector.KeyboardInjector.ConfirmModifierReleases | input-emulation/src/macos_keyboard.rs:810-838 | without readback pending releases clear at once, with it only behind the fence and when shown clear |
| KeyboardInjector.KeyboardInjector.RetryModifierReleases | input-emulation/src/macos_keyboard.rs:840-866 | re-posts every pending release and fences it through the fallback path |
| KeyboardInjector.KeyboardInjector.KeyDown | input-emulation/src/macos_keyboard.rs:920-945 | a press is posted and recorded, or dropped on a degraded path |
| KeyboardInjector.KeyboardInjector.KeyUp | input-emulation/src/macos_keyboard.rs:947-963 | a release is retried once on the other path and forgotten only if accepted |
| KeyboardInjector.KeyboardInjector.CapsTap | input-emulation/src/macos_keyboard.rs:967-997 | a tap whose up fails is recorded for cleanup |
| KeyboardInjector.KeyboardInjector.ReleaseAll | input-emulation/src/macos_keyboard.rs:1000-1046 | keys, then sides past every failure, and the residue left over; what that amounts to is stated by the KeyboardReleases rows |
| KeyboardInjector.KeyboardInjector.Post | input-emulation/src/macos_keyboard.rs:1049-1076 | a refused post on the first path degrades it |
| KeyboardInjector.KeyboardInjector.Release | input-emulation/src/macos_keyboard.rs:1101-1160 | a release refused on the first path is tried once on the fallback |
| KeyboardInjector.KeyboardInjector.Settle | input-emulation/src/macos_keyboard.rs:1163-1178 | the path changes only from a clean state |
| KeyboardInjector.KeyboardInjector.WaitModifierReleases | input-emulation/src/macos_keyboard.rs:575-589 | confirm, then at most twenty rounds of retry and confirmation |
| KeyboardSafety.EveryCallSteps | input-emulation/src/macos_keyboard.rs:753-1178 | every call, for every sink answer: invariant kept, no press on a degraded path, path changes only from a clean state and never back, a pending side leaves only by a re-press or a confirmation, a fence only by an accepted retry |
| KeyboardSafety.EveryRunIsSafe | input-emulation/src/macos_keyboard.rs:680-1178 | in every run the held sides are exactly those macOS last saw pressed, remote flags describe them, held and pending are disjoint, every key last seen down is recorded |
| KeyboardSafety.PathChangesOnce | input-emulation/src/macos_keyboard.rs:1163-1178 | once on the fallback path, always on it and never degraded |
| KeyboardSafety.FenceFollowsReleases | input-emulation/src/macos_keyboard.rs:817-866 | a fence in force goes back to one accepted retry, and every side pending now was pending ever since |
| KeyboardSafety.PendingLeavesOnlyConfirmed | input-emulation/src/macos_keyboard.rs:817-866 | with a readable sink a side stops being pending only by an accepted re-press, or behind an accepted fence event of its own followed by a reading that shows it clear |
| KeyboardSafety.FenceConverges | input-emulation/src/macos_keyboard.rs:817-866 | from any consistent state an accepted retry that reads back as posted lets the next confirmation empty the pending set |
| KeyboardSafety.UnreadableSinkIsBelieved | input-emulation/src/macos_keyboard.rs:817-838 | without readback one confirmation clears every pending release |
| KeyboardSafety.WaitEnds | input-emulation/src/macos_keyboard.rs:575-589 | waiting stops within its rounds of two readings, keeps the invariant, and reports success exactly when nothing is pending |
| KeyboardSafety.WaitSucceeds | input-emulation/src/macos_keyboard.rs:575-589 | if the sink cooperates with any of the twenty retries, after whatever accepted rounds, waiting succeeds |
| KeyboardSafety.RoundsGoOn | input-emulation/src/macos_keyboard.rs:575-589 | rounds that leave something pending end as the last of them does |
| KeyboardSafety.OutOfRetries | input-emulation/src/macos_keyboard.rs:575-589 | once no retry is left, waiting times out |
| KeyboardSafety.RefusedRetry | input-emulation/src/macos_keyboard.rs:575-589 | and it fails at the first refused retry |
| KeyboardSafety.FailedSyncLeavesPrefix | input-emulation/src/macos_keyboard.rs:759-795 | a snapshot posts a prefix of the plan and then the refused step; held sides, posted flags and local flags are those of the accepted prefix |
| KeyboardSafety.SyncKeepsFence | input-emulation/src/macos_keyboard.rs:759-795 | a fence stays in force over a snapshot exactly if none of its accepted steps released a side |
| KeyboardSafety.RepeatedSyncIsSilent | input-emulation/src/macos_keyboard.rs:759-795 | repeating an accepted snapshot posts nothing |
| KeyboardSafety.BatchReleasePublishesLocal | input-emulation/src/macos_keyboard.rs:759-791 | releasing every remote side in one batch ends with exactly the local sides' flags |
| KeyboardSafety.AscendingIsTheSet | input-emulation/src/macos_keyboard.rs:1003-1004 | recorded keys are released once each, in order |
| KeyboardSafety.KeyDownRecordsOnlyAccepted | input-emulation/src/macos_keyboard.rs:920-945 | a down is recorded exactly when accepted; degraded, it is only counted |
| KeyboardSafety.FailedPathIsLeftWhenClean | input-emulation/src/macos_keyboard.rs:1163-1178 | a failed path is kept only while something injected is on record |
| KeyboardSafety.PointerFlagsAreCurrent | input-emulation/src/macos_keyboard.rs:799-806 | pointer events show held remote sides, no pending side, and local sides as freshly observed |
| KeyboardReleases.ReleaseTries | input-emulation/src/macos_keyboard.rs:1101-1160 | a release hands its event to the path asked for, and once more to the fallback exactly if the first path refused it; it reports the last answer |
| KeyboardReleases.KeyUpTries | input-emulation/src/macos_keyboard.rs:947-963 | an up is handed over whether or not the key is on record, and the key is forgotten exactly if it was accepted |
| KeyboardReleases.CapsTapTries | input-emulation/src/macos_keyboard.rs:967-997 | a tap is dropped on a degraded path; an accepted down is always followed by the up, and the key is recorded exactly if every try of that up was refused |
| KeyboardReleases.ReleaseAllTries | input-emulation/src/macos_keyboard.rs:1000-1046 | cleanup hands the sink a release of exactly every recorded key, held side and residue; each stays on record exactly if no such event was accepted, and a side that went awaits confirmation |
| KeyboardReleases.ReleaseAllEmpties | input-emulation/src/macos_keyboard.rs:1000-1046 | a sink that accepts everything from there on has nothing down afterwards, by its own log, and nothing is on record |
| KeyboardReleases.ReleaseAllSays | input-emulation/src/macos_keyboard.rs:1003-1040 | cleanup hands over nothing but those ups, and side releases that show the local flags and the sides still to go |
| KeyboardReleases.ReleaseAllPosts | input-emulation/src/macos_keyboard.rs:1016-1040 | the flags on record afterwards are those of the last accepted modifier event |
| KeyboardReleases.ConfirmClearsExactly | input-emulation/src/macos_keyboard.rs:817-838 | a confirmation clears exactly the confirmed sides and posts nothing |
| KeyboardReleases.RetryGivesUpOnlyRefused | input-emulation/src/macos_keyboard.rs:840-866 | a retry hands something over and gives up only at an event that was refused |
| KeyboardReleases.EveryRefusalDegrades | input-emulation/src/macos_keyboard.rs:1049-1178 | after any call, a refusal on the first path has degraded it, unless the call ended clean and on the fallback |
| InputLedger.SnapshotDropsOnlyCleared | input-emulation/src/lib.rs:584-611 | tracking a snapshot drops only keys the snapshot declares up |
| InputLedger.SnapshotIsTracked | input-emulation/src/lib.rs:584-611 | after a snapshot exactly the shown kinds have a recorded side, recorded sides are kept, other keys untouched |
| InputLedger.EventKeepsCover | input-emulation/src/lib.rs:321-365 | one event, accepted or not, keeps the record covering what the backend was told, and no press is forwarded for a key it was told is down |
| InputLedger.PressesAreSeparated | input-emulation/src/lib.rs:564-578 | between two accepted presses of a key lies an accepted release or clearing snapshot |
| InputLedger.ForwardedEventKeeps | input-emulation/src/lib.rs:321-365 | forwarding through an open gate keeps every judgement of the call log and other handles untouched |
| InputLedger.CleanupEventKeeps | input-emulation/src/lib.rs:476-531 | so does every cleanup event |
| LedgerHistory.RecordIsExact | input-emulation/src/lib.rs:321-365 | the record that the call log gives a handle holds a key exactly if an accepted or failed press, a refused release or a tracked snapshot put it there, with no accepted release or clearing snapshot since |
| LedgerHistory.ButtonRecordIsExact | input-emulation/src/lib.rs:334-352 | the same of buttons |
| LedgerHistory.PlainRecordIsHeld | input-emulation/src/lib.rs:321-352 | while nothing was refused and no snapshot seen, the record is what the backend was last told |
| LedgerHistory.RecordCoversHeld | input-emulation/src/lib.rs:321-365 | whatever was refused, the record covers what the backend was told |
| LedgerHistory.SnapshotTracks | input-emulation/src/lib.rs:584-611 | a tracked snapshot, key by key: what it clears goes, what it shows gets a left side unless the right one is on record |
| LedgerHistory.SendsWhatIsWanted | input-emulation/src/lib.rs:564-578 | a press is forwarded exactly if the log has its key off record, a release exactly if it has it on record, everything else always |
| InputEmulation.InputEmulation.TrackSnapshotModifiers | input-emulation/src/lib.rs:584-611 | the loop over modifier groups tracks a snapshot |
| InputEmulation.InputEmulation.ForwardKey | input-emulation/src/lib.rs:322-333 | duplicate keys are not sent; a failed press or release stays recorded, an accepted release is forgotten |
| InputEmulation.InputEmulation.ForwardButton | input-emulation/src/lib.rs:334-352 | a button is recorded before it is sent and forgotten after an accepted release |
| InputEmulation.InputEmulation.ForwardModifiers | input-emulation/src/lib.rs:353-364 | a refused snapshot restores the record |
| InputEmulation.InputEmulation.ReleaseKeys | input-emulation/src/lib.rs:476-531 | repeat stops and aggregate modifiers reset before any key-up; a key or button is forgotten exactly when its release was accepted; success exactly when everything was; other handles untouched |
| InputEmulation.InputEmulation.Destroy | input-emulation/src/lib.rs:390-403 | a handle is removed only after the backend accepted its whole cleanup, else it awaits cleanup |
| InputEmulation.InputEmulation.RetryCleanup | input-emulation/src/lib.rs:407-415 | succeeds exactly when no handle awaits cleanup any more |
| InputEmulation.InputEmulation.Consume | input-emulation/src/lib.rs:248-367 | nothing is forwarded while a cleanup is outstanding; dead handles are ignored; the clipboard passes by the gate; behind the gate the one call made, or none, is a function of the log before; the record stays the one the log gives |
| InputEmulation.InputEmulation.Create | input-emulation/src/lib.rs:378-386 | a new handle starts with nothing held on its side of the backend |
| InputEmulation.InputEmulation.Terminate | input-emulation/src/lib.rs:417-424 | every handle is tried; what is left awaits cleanup, and nothing is held on the others |
| InputEmulation.InputEmulation.WarpCursor | input-emulation/src/lib.rs:442-445 | no warp while a cleanup is outstanding |
| InputEmulation.InputEmulation.RecoveryBarrier | input-emulation/src/lib.rs:541-554 | a certified barrier is an accepted quiesce followed by an accepted cleanup, and leaves nothing held |
| InputEmulation.InputEmulation.HasPressedKeys | input-emulation/src/lib.rs:556-560 | true exactly if the log has some key on record; no recorded key means the backend holds none |
| TapRecovery.CaptureState.EventTapDisabledTransition | input-capture/src/macos.rs:292-315 | ownership is dropped; the interrupted edge and any claim carry over to the new generation |
| TapRecovery.CaptureState.DeferGrabDuringRecovery | input-capture/src/macos.rs:325-338 | a queued Grab met by a closed gate becomes the interrupted edge, if there is none |
| TapRecovery.CaptureState.ClaimAutoRelease | input-capture/src/macos.rs:340-358 | only the newest unclaimed recovery with an interrupted edge claims the AutoRelease |
| TapRecovery.CaptureState.Complete | input-capture/src/macos.rs:317-323 | only the newest generation reopens the gate |
| TapRecovery.CaptureState.HandleProducerEvent | input-capture/src/macos.rs:506-654 | one producer event under the lock; whom it makes the owner is stated by TapOwnership.OwnerTookAndKept |
| TapProtocol.EveryActionKeepsInv | input-capture/src/macos.rs:1441-1493 | every step of every thread keeps the protocol invariant |
| TapProtocol.EveryRunKeepsInv | input-capture/src/macos.rs:1979-2089 | so does every interleaving |
| TapProtocol.OnlyNewestIsNewest | input-capture/src/macos.rs:292-315 | a wrapping generation in flight is never mistaken for the newest |
| TapProtocol.GateReopensOnceSettled | input-capture/src/macos.rs:2076-2089 | pending recovery means no owner; the gate reopens exactly for the newest generation, and a closed interval has published one AutoRelease if a capture or queued Grab was outstanding, none otherwise |
| TapProtocol.AutoReleaseAnswersBegin | input-capture/src/macos.rs:588-654 | every AutoRelease answers a Begin that no earlier AutoRelease answered |
| TapProtocol.IntervalAnswersOutstanding | input-capture/src/macos.rs:1441-1493 | from the loss of the tap to the reopening of the gate exactly one AutoRelease is published if a capture or a queued Grab was outstanding, nothing otherwise, and no Begin stays unanswered exactly if one was outstanding or none was open |
| TapProtocol.FailedHideLeavesBeginOpen | input-capture/src/macos.rs:543-556 | the run from the start in which hiding the cursor fails, the tap is lost with nothing outstanding, and the Begin stays unanswered |
| TapOwnership.OwnerTookAndKept | input-capture/src/macos.rs:506-654 | in every interleaving an edge owns the capture exactly if its Grab was handled with the gate open, nobody owning and the cursor hidden, and no Release, Destroy of it or loss of the tap came since |
| TapOwnership.IntervalReleasesOwed | input-capture/src/macos.rs:292-358 | a closed interval publishes the AutoRelease of exactly the edge that owned when the tap was lost, else of the first queued Grab, else none |
| TapOwnership.OwnerIsReleased | input-capture/src/macos.rs:543-654 | the run from the start that owns an edge with an empty pipe, loses the tap and publishes that edge's AutoRelease |
| TapProtocol.StuckStays | input-capture/src/macos.rs:1437-1572 | a crossing blocked on a full channel while the producer wants the lock stays blocked in every continuation |
| TapProtocol.CrossingEnds | input-capture/src/macos.rs:1565-1572 | a crossing that is not stuck has its Grab on the channel at once or after one event is taken off it |
| TapProtocol.CrossingEndsUnlessStuck | input-capture/src/macos.rs:1437-1572 | the exact condition: some continuation of the run is done with a crossing exactly if it is not stuck |
| TapProtocol.StuckIsReached | input-capture/src/macos.rs:2036-2095 | the run that gets there |
| PortalBarriers.SelectBarriers | input-capture/src/libei.rs:204-233 | one barrier with a fresh consecutive identifier per usable piece, or an abort when identifiers run out |
| PortalBarriers.PlanCovers | input-capture/src/libei.rs:212-230 | exactly the pieces of configured edges longer than one point become barriers |
| PortalBarriers.NumberedNumbers | input-capture/src/libei.rs:212-230 | each barrier carries its own identifier, and the identifier maps to its edge |
| PortalBarriers.FindCorrespondingClient | input-capture/src/libei.rs:871-881 | the barrier whose line is at the least truncated distance |
| PortalBarriers.NearestIsFirstLeast | input-capture/src/libei.rs:871-881 | ties go to the first |
| PortalBarriers.HeightIsOff | input-capture/src/libei.rs:883-896 | the triangle's area over its base is the distance from the barrier's line, truncated to zero exactly within a pixel |
| PortalBarriers.FirstLineWins | input-capture/src/libei.rs:871-881 | a cursor within a pixel of some barrier's line stands for the first such barrier |
| PortalBarriers.ZoneOrderIsTrueOrder | input-capture/src/libei.rs:331-333 | wrapped zone serials compare like the counters behind them |
| PortalConfigurations.BarrierSpansPiece | input-capture/src/libei.rs:136-164 | a barrier lies on the line between the pixels inside and beyond its edge and covers exactly its piece |
| PortalSession.ClientUpdateIsSetUpdate | input-capture/src/libei.rs:307-319 | an update changes exactly its edge, keeps edges unrepeated, and is refused exactly when it changes nothing |
| PortalConfigurations.ConfigureBuilds | input-capture/src/libei.rs:204-305 | an answered configuration with identifiers left has exactly one barrier per usable piece of a configured edge, each with a fresh identifier mapped to its edge; otherwise the task ends |
| PortalConfigurations.ConnectBuilds | input-capture/src/libei.rs:442-549 | so does the first configuration of a session |
| PortalConfigurations.ZonesHeeded | input-capture/src/libei.rs:331-349 | a zone signal counts exactly if it is the session's own and not older than the zones configured |
| PortalConfigurations.UpdatesHeeded | input-capture/src/libei.rs:307-319 | a client update counts exactly if it changes the edges |
| PortalConfigurations.ChangeRebuilds | input-capture/src/libei.rs:699-777 | a change that counts and completes ends with every old identifier dead and the barriers rebuilt in full for the edges after it, whether or not a capture was active; on GNOME unconnected |
| PortalConfigurations.RefusedChangeStops | input-capture/src/libei.rs:699-777 | a refused release ends the task with the outer layer told |
| PortalConfigurations.TornConfigurationUsesIds | input-capture/src/libei.rs:699-792 | a configuration torn by the end of the stream leaves no barrier and has used up its identifiers |
| PortalConfigurations.ReleaseKeepsBarriers | input-capture/src/libei.rs:655-670 | a requested release touches nothing but the capture |
| PortalConfigurations.RefusedReleaseStops | input-capture/src/libei.rs:655-670 | a refused one ends the task, unacknowledged |
| PortalConfigurations.ActivationKeepsBarriers | input-capture/src/libei.rs:601-654 | an activation changes at most the capture; of another session, or during a capture, it does nothing |
| PortalConfigurations.SessionsEnd | input-capture/src/libei.rs:671-789 | the end of a session leaves only its edges and the next identifier |
| PortalConfigurations.SuspendedArmsEndTheSession | input-capture/src/libei.rs:592-792 | an arm dropped while suspended ends the session, keeps the edges it changed, begins and acknowledges nothing |
| PortalConfigurations.TasksEnd | input-capture/src/libei.rs:461-549 | cancellation and a closed channel end the task for good |
| PortalConfigurations.WaitingTask | input-capture/src/libei.rs:461-516 | a task without edges takes updates and acknowledges releases, and does not connect |
| PortalCapture.PortalCapture.ApplyUpdate | input-capture/src/libei.rs:307-319 | the update in place |
| PortalCapture.PortalCapture.ConfigureBarriers | input-capture/src/libei.rs:235-305 | the configuration replaces barriers, map, next identifier and zone set together, or ends the capture task |
| PortalCapture.PortalCapture.TakeActive | input-capture/src/libei.rs:810-823 | taking the active capture also clears the position input is delivered for |
| PortalCapture.PortalCapture.EmitForcedAutoRelease | input-capture/src/libei.rs:794-808 | one AutoRelease for an interrupted position, none otherwise |
| PortalCapture.PortalCapture.OnActivated | input-capture/src/libei.rs:601-654 | the activation arm |
| PortalCapture.PortalCapture.OnReleaseRequest | input-capture/src/libei.rs:655-670 | the release arm; a request is acknowledged only after the portal call |
| PortalCapture.PortalCapture.OnSessionNotified | input-capture/src/libei.rs:671-685 | the recreation arm |
| PortalCapture.PortalCapture.OnCancelled | input-capture/src/libei.rs:686-698 | the termination arm |
| PortalCapture.PortalCapture.OnReconfigure | input-capture/src/libei.rs:699-777 | release, report, rebuild, with each suspension point |
| PortalCapture.PortalCapture.OnEisExited | input-capture/src/libei.rs:781-789 | the event stream ended: the position being delivered for is auto-released |
| PortalCapture.PortalCapture.DoSessionArm | input-capture/src/libei.rs:599-790 | one arm of the session loop |
| PortalCapture.PortalCapture.DoWaitingArm | input-capture/src/libei.rs:461-516 | without a client edge the capture task waits unconnected |
| PortalCapture.PortalCapture.DoCapture | input-capture/src/libei.rs:442-549 | the whole capture task over everything it is delivered; without a lost hand-over no second capture begins unreleased |
| PortalRuns.AgreesUnlessHandoverLost | input-capture/src/libei.rs:592-792 | a step keeps capture task and outer layer in agreement exactly if no hand-over is lost in it |
| PortalRuns.EveryRunSeparatesBegins | input-capture/src/libei.rs:592-792 | a requested release or an AutoRelease lies between any two Begins, in every run without a lost hand-over |
| PortalRuns.InterruptionAutoReleasesOnce | input-capture/src/libei.rs:671-808 | an interruption emits exactly one AutoRelease for the active position, none for none, and nothing exactly if the hand-over is lost |
| PortalRuns.StoppingTellsOnlyOnChange | input-capture/src/libei.rs:655-777 | ending the capture task auto-releases an active capture exactly on a zone or client change |
| PortalRuns.AcknowledgedOnlyWhenReleased | input-capture/src/libei.rs:655-670 | a request is acknowledged exactly if nothing was captured or the portal release completed |
| PortalRuns.IdsNeverReturn | input-capture/src/libei.rs:204-233 | across all reconfigurations and sessions two configurations are the same or share no identifier |
| PortalRuns.StaleActivationBeginsNothing | input-capture/src/libei.rs:634-638 | an activation naming a barrier of an earlier configuration begins nothing |
| PortalRuns.BeginsExactlyWhenMapped | input-capture/src/libei.rs:605-638 | exactly which activations begin a capture, and for which position |
| PortalRuns.UnnamedBeginsOnFirstLine | input-capture/src/libei.rs:611-638 | an unnamed activation at a barrier begins for the first barrier whose line it is on, so for its own exactly if the positions agree |
| PortalRuns.CornerBeginsAtTop | input-capture/src/libei.rs:871-896 | the run that leaves through the right edge and begins at the top |
| PortalRuns.LostHandoverBeginsTwice | input-capture/src/libei.rs:699-823 | a run from the start that loses one hand-over and emits two Begins with nothing between |
| SerialNumbers.MinusIsDifference | input-capture/src/lib.rs:322-324 | less than half a circle apart, wrapped difference tells true difference |
| PeerTopology.EveryRunConsistent | input-capture/src/lib.rs:572-752 | in every run a confirmed layout has its version and matching bounds |
| PeerTopology.BoundsNeverMatter | input-capture/src/lib.rs:572-590 | leaving all Bounds messages out of a run changes nothing about layouts or their visibility |
| PeerTopology.LegacyBoundsAreLatest | input-capture/src/lib.rs:572-590 | a peer that only reports sizes is known by the latest one |
| PeerTopology.HiddenUntilAccepted | input-capture/src/lib.rs:735-743 | after a Begin a layout is visible exactly once one was accepted since |
| PeerTopology.RepublishedLayoutReturns | input-capture/src/lib.rs:655-676 | the snapshot hidden by a Begin returns when published again; a contradictory one of the same version does not |
| PeerTopology.DeliveriesConverge | input-capture/src/lib.rs:644-675 | for one epoch within half a circle, any order, repetition and wraparound ends at the layout of the greatest generation received |
| InputCapture.InputCapture.SetPeerLayout | input-capture/src/lib.rs:644-730 | the versioned snapshot; a change or a return into force of the captured layout disarms the release |
| InputCapture.InputCapture.SetPeerBounds | input-capture/src/lib.rs:572-622 | legacy bounds never displace a layout in force; a cursor seeded late gets all motion since Begin |
| InputCapture.InputCapture.PeerLayout | input-capture/src/lib.rs:735-743 | the layout visible to cursor modelling |
| InputCapture.InputCapture.ClearPeerBounds | input-capture/src/lib.rs:747-752 | everything about the peer's geometry is forgotten |
| InputCapture.InputCapture.SetPeerSensitivity | input-capture/src/lib.rs:760-769 | values that are not finite and positive are ignored |
| InputCapture.InputCapture.SetReleaseThreshold | input-capture/src/lib.rs:545-558 | a change starts a fresh gesture; zero disarms |
| InputCapture.InputCapture.ResetWallPressState | input-capture/src/lib.rs:867-880 | nothing of the capture is left |
| InputCapture.InputCapture.TrackBegin | input-capture/src/lib.rs:990-1025 | a Begin hides the layout, forgets bounds and sensitivity, and takes the pressure off |
| InputCapture.InputCapture.TrackMotion | input-capture/src/lib.rs:1031-1147 | one scaled motion of the captured edge moves cursor, entry distance and pressure; the distance stays the cursor's own from the entry edge, and pressure grows by exactly what the unclamped cursor leaves through it |
| InputCapture.MotionStaysAligned | input-capture/src/lib.rs:294-303 | for every edge: a cursor as far from the entry edge as the model says stays so over a clamped motion, and its pressure grows exactly when the unclamped cursor is beyond that edge |
| InputCapture.MotionsStayAligned | input-capture/src/lib.rs:1031-1113 | so over any series of motions |
| InputCapture.InputCapture.Release | input-capture/src/lib.rs:487-515 | the backend is asked at most once per capture; the model is reset whatever it answers |
| InputCapture.InputCapture.Create | input-capture/src/lib.rs:440-451 | the backend is asked for an edge with its first handle |
| InputCapture.InputCapture.Destroy | input-capture/src/lib.rs:455-473 | and gives it up with its last |
| InputCapture.InputCapture.PollNext | input-capture/src/lib.rs:1221-1322 | deliveries are neither lost, repeated nor reordered; a due release reaches every handle of the captured edge once |
| WallPress.MotionIsConserved | input-capture/src/lib.rs:1031-1113 | in rectangular mode net travel is position minus near overshoot plus far overshoot, and the position is within the bounds known |
| WallPress.CaptureArmsAtThreshold | input-capture/src/lib.rs:1115-1147 | a capture arms exactly while its unbroken overshoot run amounts to the threshold |
| WallPress.ArmedExactlyAtThreshold | input-capture/src/lib.rs:1115-1147 | the same for any overshoots, with the pressure equal to the run |
| WallPress.ArmedExactlySince | input-capture/src/lib.rs:988-1147 | over every run of operations: armed exactly if some step armed it and nothing disarmed it since |
| WallPress.ArmedHasCapture | input-capture/src/lib.rs:545-558 | armed implies a positive threshold and an active capture, in every run |
| WallPress.ArmedMeansPressed | input-capture/src/lib.rs:988-1147 | unless a capture began while armed, armed means the pressure is up to the threshold |
| WallPress.BeginWhileArmedKeepsArmed | input-capture/src/lib.rs:990-1012 | a Begin while armed is exactly what breaks that |
| WallPress.ArmedWithoutPressure | input-capture/src/lib.rs:990-1147 | the run from rest that ends armed without pressure, its last step the only Begin while armed |
| ZoomGesture.ZoomGestureState.Accumulate | input-capture/src/macos.rs:901-928 | one sample pays out every notch it can and keeps the rest; travel is conserved |
| ZoomGesture.ZoomGestureState.PayOut | input-capture/src/macos.rs:907-927 | over reals the loop ends, and the rest stays below the next threshold |
| ZoomGesture.ZoomGestureState.AppendSample | input-capture/src/macos.rs:1063-1104 | what each phase queues; Ctrl downs and ups alternate over every phase sequence |
| ZoomGesture.AccumulatesUniquely | input-capture/src/macos.rs:888-928 | conservation and the bound on the rest determine the notches |
| ZoomGesture.NotchesPointTheWay | input-capture/src/macos.rs:901-928 | every notch of a sample is a wheel step of 120 in the direction of the net travel |
| ZoomGesture.NotchesArePaidFor | input-capture/src/macos.rs:861-928 | they are as many as the net travel pays for, at 0.08 each and 0.16 for an opening or reversing one |
| ZoomGesture.ReversalCostsCommit | input-capture/src/macos.rs:861-869 | a first or reversing notch takes the larger threshold on top of walking back what is pending |
| ZoomGesture.SilentExactlyBelowThreshold | input-capture/src/macos.rs:861-869 | a sample is silent exactly if the net travel is below the next cost |
| ClipboardGate.ClipboardGate.Observe | input-event/src/clipboard_gate.rs:52-66 | true exactly while no count was ever out of range or went backwards |
| ClipboardGate.ClipboardGate.RecordRemote | input-event/src/clipboard_gate.rs:69-78 | the same, for an ownership taken |
| ClipboardGate.ClipboardGate.Allows | input-event/src/clipboard_gate.rs:81-89 | the verdict, in terms of everything the fence was ever shown |
| ClipboardGate.ClipboardGate.TryPublish | input-event/src/clipboard_gate.rs:36-45 | contention discards the sample |
| ClipboardGate.AdmitsExactly | input-event/src/clipboard_gate.rs:50-89 | admitted exactly: in range, above every ownership ever taken, in a history without a broken count |
| ClipboardGate.RefusalIsFinal | input-event/src/clipboard_gate.rs:68-89 | what is refused stays refused |
| Pasteboard.CountTellsOwnership | input-emulation/src/clipboard_macos.rs:7-12 | on a truthful pasteboard an unchanged count means unbroken ownership and exactly what was written since |
| Pasteboard.LaterOwnershipIsGreater | input-emulation/src/clipboard_macos.rs:7-12 | a generation sampled before is never taken afterwards |
| Pasteboard.TakenIsSeen | input-emulation/src/clipboard_macos.rs:7-12 | the last ownership taken is the greatest |
| Pasteboard.MarkerNeverStandsAlone | input-emulation/src/clipboard_macos.rs:128-132 | no marker is ever seen without its payload |
| ClipboardTransfer.PublishFenced | input-emulation/src/clipboard_macos.rs:112-148 | exactly which calls are made and what their answers amount to: a receipt exactly if the fence is unbroken and every answer was right, each error exactly for its failure; the ownership taken stays fenced; a receipt means unbroken ownership and exactly the written content, and on a healthy pasteboard ownership is reported lost only if it was |
| ClipboardTransfer.Publish | input-emulation/src/clipboard_macos.rs:101-110 | the same with the fence in hand; without it nothing is touched |
| ClipboardTransfer.CaptureFence.Register | input-capture/src/clipboard.rs:82-90 | invalid counts are refused |
| ClipboardTransfer.CaptureFence.Allows | input-capture/src/clipboard.rs:93-97 | only counts above every registered write are admitted |
| ClipboardTransfer.ImageReader.Consume | input-capture/src/clipboard_image.rs:215-221 | at most one sample per generation |
| ClipboardTransfer.ImageReader.SampleInner | input-capture/src/clipboard_image.rs:109-174 | a sample is released exactly if the fence was free and admits the count, the count is new, privacy held before and after, no registered write is at or above it, data was there, the count stayed and it is no echo; then it is one unbroken foreign ownership that the fenced writer never took |
| ClipboardTransfer.AskedJudged | input-emulation/src/clipboard_macos.rs:119-147 | the order of the checks decides the outcome: a failed write before a moved count, a moved count before a failed readback |
| ClipboardTransfer.AdmittedIsForeign | input-capture/src/clipboard_image.rs:123-170 | an admitted generation was never taken by the writer, and somebody else owns it |
| ClipboardTransfer.ForeignIsAdmitted | input-capture/src/clipboard_image.rs:123-129 | in every run on a healthy pasteboard the fence is never quarantined and admits the current count exactly while somebody else owns it |
| ClipboardTransfer.Admit | input-capture/src/clipboard_image.rs:126-129 | the verdict on the current count is the one the whole history gives, and on a healthy pasteboard it is whether somebody else owns it |
| DibDecoder.DecodeDib | input-capture/src/clipboard_image.rs:450-528 | accepts exactly the supported headers with all their pixels present |
| DibDecoder.CopyRows | input-capture/src/clipboard_image.rs:504-527 | width times height times four bytes, row by row |
| DibDecoder.PixelInBounds | input-capture/src/clipboard_image.rs:504-526 | no pixel is read out of bounds |
| DibDecoder.SizesStaySmall | input-capture/src/clipboard_image.rs:504-511 | no size computed for an accepted header comes near a 32-bit limit |
| DibDecoder.DecodedPixels | input-capture/src/clipboard_image.rs:504-527 | each shown pixel is its stored BGR(A) source at the padded stride |
| DibDecoder.StrideInWords | input-capture/src/clipboard_image.rs:504-505 | rows are rounded up to four bytes |
| DibDecoder.RowsFollowHeight | input-capture/src/clipboard_image.rs:513-518 | a negative height stores the top row first and each next one stride further, a positive one the bottom row |
| DibDecoder.FlipsMirror | input-capture/src/clipboard_image.rs:513-518 | top-down and bottom-up headers give vertical mirror images |
| DibEncoder.DecodeInvertsEncode | input-capture/src/clipboard_image.rs:450-528 | decoding inverts the reference encoder for every supported variant and image, whatever fills padding and trailer |
| DibEncoder.HeaderParsesExactly | input-capture/src/clipboard_image.rs:450-503 | a header parses exactly if one of the supported variants describes it |
| DibEncoder.SizesFitExactly | input-capture/src/clipboard_image.rs:465-475 | the exact limits on width, height and their product |
| UnicodeText.DecodeUnicodeText | input-capture/src/clipboard_image.rs:418-444 | the whole decoder |
| UnicodeText.ReadUnits | input-capture/src/clipboard_image.rs:422-435 | units up to a mandatory terminator |
| UnicodeText.Reencode | input-capture/src/clipboard_image.rs:436-443 | characters are re-encoded until one does not fit |
| UnicodeText.ScalarsInvertUtf16 | input-capture/src/clipboard_image.rs:436-437 | decoding inverts UTF-16 encoding, and only its output decodes |
| UnicodeText.Utf8ReadsBack | input-capture/src/clipboard_image.rs:441-443 | the bytes produced are the text's UTF-8 |
| UnicodeText.TextExactly | input-capture/src/clipboard_image.rs:418-444 | text results exactly from even-length bytes that spell it with a terminator, if it is neither empty nor too long |
| FileUrl.PathComponents | input-capture/src/clipboard_mac_file.rs:9-48 | accepts exactly the local file URLs of valid components and yields them |
| FileUrl.PercentDecode | input-capture/src/clipboard_mac_file.rs:19-37 | the decoding loop |
| FileUrl.DigitIsHex | input-capture/src/clipboard_mac_file.rs:24-26 | a digit is hexadecimal, in either case |
| FileUrl.EscapesExactly | input-capture/src/clipboard_mac_file.rs:23-33 | an escape is a mark and two hexadecimal digits of anything but a separator |
| FileUrl.SplitParts | input-capture/src/clipboard_mac_file.rs:38-39 | splitting at separators |
| FileUrl.DecodeInvertsWrites | input-capture/src/clipboard_mac_file.rs:19-37 | decoding inverts every way of writing bytes, and nothing else decodes |
| FileUrl.SplitInvertsJoin | input-capture/src/clipboard_mac_file.rs:38-39 | splitting inverts joining |
| FileUrl.ParsesExactlyFileUrls | input-capture/src/clipboard_mac_file.rs:9-48 | a URL parses to a list of components exactly if they are valid and the URL writes them, with any percent-encoding and either local authority |
| FileUrl.ValidIsWalked | input-capture/src/clipboard_mac_file.rs:39-47 | accepted components are exactly those a walk leaves as they are, free of separators and zero bytes |
| FileUrl.LocalExactly | input-capture/src/clipboard_mac_file.rs:10-15 | no authority, or localhost in any mixture of cases |
| FileUrl.QueryIsRefused | input-capture/src/clipboard_mac_file.rs:16-19 | a query or fragment is refused wherever it stands in the path |

## Left out

- KeyboardInjector.KeyboardInjector.KeyDown: the count of dropped presses is unbounded here; the wrapping counter of the injector and its diagnostics are not modelled.
- KeyboardInjector.KeyboardInjector.WaitModifierReleases: the pause between retries is not represented; each retry and each confirmation is an immediate step.
- InputEmulation.InputEmulation.Consume: post-processing of motion and scroll events (sign, sensitivity, momentum filter) happens before the modelled part and never touches keys or buttons; the clipboard sink itself is not modelled.
- InputEmulation.InputEmulation.WarpCursor: the edge-aware variant shares the gate; its projection is not modelled.
- TapProtocol.EveryRunKeepsInv: showing and hiding the cursor is only an outcome of handling a Grab; screen lock and Accessibility checks are outside the protocol, of bounds polling only its wait for the lock is in it, and sending to the outer event channel never blocks.
- PortalCapture.PortalCapture.OnActivated: cursor normalisation and input events delivered while active are not represented; zone answers are taken as they come.
- PortalCapture.PortalCapture.DoCapture: the pause before a session is recreated is not represented; a closed session is taken to be gone whatever the portal answers to its closing.
- InputCapture.InputCapture.SetPeerLayout: contour projection and translation between origins are an oracle that places the cursor; `set_entry_alignment`, `restore_remote_model` and the host-side return warp rest on it and are not modelled.
- InputCapture.InputCapture.PollNext: the wrapper's pressed-key set and the wake-up of a stale last event are not modelled; the deadline is an input.
- ClipboardTransfer.PublishFenced: payload preparation, the marker's randomness and the guarded registration callback are not modelled. The unfenced writer `write_if_generation` (clipboard_macos.rs:212-241) takes ownership without recording it; here it is one of the other programs, and its generations are admitted.
- ClipboardTransfer.ImageReader.SampleInner: the retained echo hints are one answer, and privacy probes are two; format preference and decoding are a single native read whose failure is no data. `read_current` and `read_current_sync` (clipboard_image.rs:77-107, 181-194) consult neither fence and are not modelled.
- DibDecoder.DecodeDib: all refusals are one `None`, as the decoder returns one error for them; running out of memory is not represented.
- FileUrl.PathComponents: opening and checking the file behind the URL is not modelled.
- ZoomGesture.ZoomGestureState.PayOut: that the loop ends is proved over reals; in `f64` a finite magnification so large that subtracting a threshold does not change it keeps the loop going for ever.
- Floating-point rounding: accumulators, cursor positions and distances are reals.
- The echo hints kept after a write and the text poll loop's classification, scroll latching, the PNG codec, key repeat, the other capture and emulation backends, logging and diagnostics.
