# Input arbitration, stated and proved in Dafny

This project models the input-arbitration engine of a Windows input tool: a keyboard hook queues physical
movement edges, an engine arbitrates opposing keys (SOCD) and adds automatic counter-strafe brakes, a one-shot
timer service ends them, and an injection boundary delivers the result to a foreground window through a backend
that may refuse. Around it stand the movement physics that decide how long a brake lasts, the bhop request queue,
three seqlocks, and the configuration with its Safe Mode.

How the files fit together:

- **Specification functions on values** say what every operation computes: `Injection`, `Timers`, `Engine`,
  `Movement`, `RuntimeConfig`, `BhopQueue`, `Seqlock`, `WakeGate`, `HookLedger`. Everything the outside world
  decides (foreground checks, backend answers, timer admissions, the clock, the sign of the residual velocity, the
  brake duration) is an argument, so a theorem over "every run" is a theorem over every such behaviour.
- **Classes** are the objects of the program, updated in place: `InjectionBoundary`, `TimerService`,
  `InjectionBatch`, `EngineCore`, `VelocityTracker` and `SimulateStopDurationMs` in `Movement`, `RoutedQueue`,
  `KeyboardHook`, `BhopInjectionQueue`, `PublicationStore`, `ConfigStore` in `RuntimeConfig`. Each method is proved
  to compute its specification function.
- **Results** are lemmas about the specification functions over whole runs, in the remaining files.

The engine's main results, bottom up: the boundary's trace is safe over any calls (`InjectionSafety`); a timer is
delivered once and never early (`TimerSafety`); every engine step keeps one invariant in all three SOCD modes
(`EngineInvariant`, `EngineSafety`, `EngineUnrouted`, `EngineReconcile`), whence no key is ever stuck
(`EngineRuns`); opposing keys are never held together in FULL mode (`EngineExclusive`), with the exact condition
under which a single routed edge could break that (`EngineStale`); which keys a rebuild can be shown, and what
happens to each of these results after any others (`EngineMasks`, `EngineMaskRuns`); in a world where everything
succeeds the machine refines a one-line function of keys, last key and timers (`EngineRefinement`,
`EngineIdealRuns`, `SocdRefinement`), which gives brakes and overlaps their whole life, from the edge that arms them
to what their expiry leaves held (`BrakeLife`); an armed brake outlives every tap, and a rebuild exactly when its keys
do not call for the brake's end (`BrakeSafety`); a stale timer id changes nothing (`StaleTimers`); the hook's ledger
and the engine agree (`EnginePhysical`, `HookLedger`), and run together they leave no key stuck and hold no opposing
keys (`HookedEngine`).

Beside what must never happen stands what each operation does, stated without the functions that compute it. What a
call of the boundary does to every slot, to the accepted inputs and to its count is `InjectionEffects`; that a due
timer fires and its expiry reaches the key that awaits it, `TimerProgress` and `EngineProgress`; what the game holds
after each handler, in every state the invariant allows, `HandlerEffects`; when a brake is armed and when not,
`BrakeLife`; which steps arm and disarm timers at all, `TimerArming`; cleanup, suspension, unrouted edges, mode
changes, `EngineEffects`. `BrakeDuration` says which motion a brake simulates and which timer it becomes. In the same
spirit `BhopProgress` and `SpaceProgress` follow a request to the game and back, `SeqlockProgress` a store and an
undisturbed read, `WakeGate` a wake message, and `ConfigSafety` an applied configuration and the bounds of every
setting.

Two notions recur. A run is *disciplined* when unrouted movement edges reach only an axis that is not being
arbitrated (no axis state and no awaited timer) and every axis *survives* the keys that a rebuild is shown. Cleanup
and suspension stop the arbitration of both axes until a routed edge or a rebuild
(`EngineRuns.QuietUntilRouted`). Without that half of the discipline exclusivity fails:
`EngineStale.UndisciplinedRunHoldsBoth` is such a run.

Shown keys *fit* an axis that already has them; with the cleaner off also when a key is shown down or no held key is
left without a pending or timed release; with the cleaner on also unless both are shown down while the last pressed
key still awaits a timer. So any keys fit a quiet axis, and keys the engine has seen always fit
(`EngineReconcile.SeenOrQuietFits`). An axis survives keys that fit and, with the cleaner on, any keys while the
expiry awaited for its last pressed key has already left its timer slot. Surviving is the exact condition for stuck
keys and for the invariant behind them, fitting is the exact condition for exclusivity (`EngineMasks`) and for the
refinement (`EngineMaskRuns`). What the hook hands to a rebuild is `HookLedger`'s subject: it is what the engine's
edges left down unless something was lost (keys held at launch, a ring emptied by a reinstallation, a full ring), and
a rebuild restores the agreement. `HookedEngine` runs hook, ring and engine together, where no hypothesis about the
shown keys is left.

`dafny verify dfyconfig.toml` checks everything.

Where the code and its documentation differ, the model follows the code. Such places have their own lemma: the
maximum speed bounds the two-dimensional speed only for some physics (`MovementCap.MaxSpeedCapsIff` says exactly
which; the defaults are not among them); sanitising promises ordered stop bounds but Safe Mode, applied after the
ordering, can raise the minimum above the horizon (`ConfigSafety.StopBoundsOrderedIff` says exactly when); and a
rebuild shown keys that do not fit ends in both keys of an axis held (`EngineMaskRuns.MaskRunHoldsBoth`).

## Model

| member | source | states |
|---|---|---|
| InjectionBoundary.InjectionBoundary.RefreshReleaseOnly | src/core/injection.cpp:126-134 | release-only mode is on exactly when some slot has a pending release |
| InjectionBoundary.InjectionBoundary.ReleaseSlot | src/core/injection.cpp:136-153 | two attempts; the first accepted one clears the slot and is logged, otherwise the slot stays pending |
| InjectionBoundary.InjectionBoundary.UpForTarget | src/core/injection.cpp:155-175 | a release goes out only to the owner while it is active; otherwise a held slot becomes pending for its owner |
| InjectionBoundary.InjectionBoundary.DownForTarget | src/core/injection.cpp:258-275 | a press is refused in release-only mode or off target, is idempotent for the owner, and makes a slot of another owner pending |
| InjectionBoundary.InjectionBoundary.ReconcilePending | src/core/injection.cpp:378-389 | while the target is active, every slot pending for it is retried, in slot order, and the accepted ones are counted |
| InjectionBoundary.InjectionBoundary.ShutdownRelease | src/core/injection.cpp:428-445 | every held slot becomes pending for its owner before those of the active target are released |
| InjectionBoundary.InjectionBoundary.HeldMovement | src/core/injection.cpp:398-405 | the mask of held movement keys |
| InjectionBoundary.InjectionBoundary.PendingReleaseCount | src/core/injection.cpp:391-396 | the number of pending slots, non-zero exactly when some slot is pending |
| InjectionSafety.TraceSafety | src/core/injection.cpp:155-175 | over any calls, accepted inputs of a slot alternate starting with a down, and each up follows a down that went to the same foreground owner |
| InjectionSafety.BookkeepingSafety | src/core/injection.cpp:126-153 | over any calls, release-only holds iff some slot is pending, and pending implies held with the pending target equal to the owner |
| InjectionEffects.UpReleases | src/core/injection.cpp:155-175 | a release takes a held slot of the active target off it, logs one up and reports 1 iff one of two sends is accepted; any other held slot stays with its owner, pending |
| InjectionEffects.DownPresses | src/core/injection.cpp:258-275 | off target or while a release is owed nothing happens; else a free slot is taken and one down logged iff the send is accepted, an own slot is reported held, another owner's becomes pending |
| InjectionEffects.ReconcileReleases | src/core/injection.cpp:378-389 | a retry takes exactly the pending slots of the active target off it whose release is accepted, one up each, in slot order, counted; every other slot is left alone |
| InjectionEffects.ShutdownReleases | src/core/injection.cpp:428-445 | the last release takes exactly the held slots of the active target off it whose release is accepted, one up each, in slot order, counted; every other held slot is pending for its own owner |
| Timers.NearestIsLeast | src/core/timing.cpp:173-182 | the thread's scan finds an active slot with the least deadline, or there is none |
| TimerService.TimerService.ScheduleTimerUs | src/core/timing.cpp:414-459 | an admitted request replaces the key's slot under a fresh id; a refused one changes nothing and reports 0 |
| TimerService.TimerService.CancelTimer | src/core/timing.cpp:465-479 | the key's slot is disarmed |
| TimerService.TimerService.PickNearest | src/core/timing.cpp:173-182 | the thread remembers the nearest slot, whole |
| TimerService.TimerService.FirePicked | src/core/timing.cpp:236-268 | the slot fires only if it is still active under the picked id and due; it is disarmed as it fires |
| TimerService.TimerService.EnqueueFired | src/core/timing.cpp:310-313 | a fired timer is appended to the expiry queue |
| TimerService.TimerService.PopExpired | src/core/timing.cpp:338-347 | expiries are taken from the front |
| TimerSafety.DeliveredOnceAndNotEarly | src/core/timing.cpp:252-268 | over any run no id is delivered twice, none before the deadline it was scheduled with, and each on its own key |
| TimerSafety.CancelledNeverDelivered | src/core/timing.cpp:252-262 | an id cancelled or replaced while in its slot is never delivered, whatever the thread had already picked |
| TimerProgress.RoundFires | src/core/timing.cpp:173-313 | with nothing in flight, a scan, second look and hand-over deliver exactly one expiry, of an active slot with the least deadline, iff some slot is due |
| TimerProgress.EveryDueFires | src/core/timing.cpp:173-313 | as many rounds as there are slots queue every due timer and free its slot, and leave every other slot as it was |
| EngineProgress.DueTimerIsHandled | src/core/timing.cpp:338-349 | from every state of every disciplined run, a due timer that a key awaits reaches its handler within five rounds and a drain of at most six more expiries than were queued; then the key awaits nothing and is held only if it is physically down or its release is pending |
| InjectionBatch.InjectionBatch.Push | src/core/engine_internal.h:31 | an edge is appended below the capacity and dropped at it |
| InjectionBatch.InjectionBatch.Flush | src/core/engine_internal.h:36-44 | the edges reach the boundary in order, each with its own dispatch |
| EngineInvariant.FlushFollows | src/core/injection.cpp:258-275 | a delivered batch never leaves a key held that it did not ask for unless that key's release is pending |
| EngineCore.Engine.CancelSocdTransition | src/core/counterstrafe_controller.cpp:76-86 | a running overlap release is cancelled together with the expectation it set |
| EngineCore.Engine.ResolveAxis | src/core/counterstrafe_controller.cpp:88-167 | the axis takes the state of its physical keys with the edges, timers and priorities that entails; at most two edges fit the batch |
| EngineCore.Engine.EnterConflict | src/core/counterstrafe_controller.cpp:111-138 | both brakes end; the loser is released before the winner is pressed, or its release is timed |
| EngineCore.Engine.CancelStaleCounterStrafe | src/core/counterstrafe_controller.cpp:169-177 | the opposite key's timer is disarmed and a macro-held opposite key is released |
| EngineCore.Engine.AdmitBrake | src/core/counterstrafe_controller.cpp:299-313 | both timers of a brake are admitted, or none stays armed |
| EngineCore.Engine.ArmBrake | src/core/counterstrafe_controller.cpp:315-336 | the released key goes up now or on its own timer, the counter key goes down and is owned by the brake timer |
| EngineCore.Engine.AutoCounterStrafe | src/core/counterstrafe_controller.cpp:277-340 | a brake is armed only with both keys up, not suspended, on target, with a positive duration and both timers |
| EngineCore.Engine.CommitLogicalStateFromInjection | src/core/counterstrafe_controller.cpp:24-32 | the logical keys become the native ones plus what injection holds |
| EngineCore.Engine.TrackNativeMovement | src/core/counterstrafe_controller.cpp:51-61 | native keys are the physical ones while active and not suspended |
| EngineCore.Engine.FlushAndCommitLogicalState | src/core/counterstrafe_controller.cpp:63-66 | the batch is delivered and the outcome committed |
| EngineCore.Engine.HandleKeyDown | src/core/input_router.cpp:17-107 | the whole state after a key press, routed or not |
| EngineCore.Engine.HandleKeyUp | src/core/input_router.cpp:112-197 | the whole state after a key release, routed or not |
| EngineCore.Engine.ExpireTimer | src/core/timer_lifecycle.cpp:41-87 | an awaited expiry ends an overlap or a brake, restores the opposite key and recomputes the axis state |
| EngineCore.Engine.OnTimerExpired | src/core/timer_lifecycle.cpp:17-93 | the whole state after an expiry; a stale id changes nothing |
| EngineCore.Engine.DrainExpired | src/core/timing.cpp:338-349 | one turn of the expiry drain |
| EngineCore.Engine.Desired | src/core/state_reconciliation.cpp:66-89 | the wished keys are the physical ones less a suppressed loser, plus an armed brake on an idle axis |
| EngineCore.Engine.SettleKeys | src/core/state_reconciliation.cpp:90-100 | one pass, releases or presses, over the four keys in order |
| EngineCore.Engine.ReconcileLogicalStateFromPhysical | src/core/state_reconciliation.cpp:56-101 | both axes reconciled, in every mode; at most eight edges |
| EngineCore.Engine.RebuildState | src/core/state_reconciliation.cpp:103-154 | the whole state after a rebuild from a physical mask |
| EngineCore.Engine.ReconcileInternal | src/core/state_reconciliation.cpp:156-175 | cleanup of both axes and the four keys |
| EngineCore.Engine.ClearHeldKeys | src/core/state_reconciliation.cpp:42-53 | the whole state after a cleanup |
| EngineCore.Engine.ToggleSuspend | src/core/state_reconciliation.cpp:17-40 | the whole state after suspending or resuming, before the rebuild that follows a resume |
| EngineCore.Engine.ReconcilePendingOutput | src/core/counterstrafe_controller.cpp:68-74 | pending releases are retried and the outcome committed |
| EngineCore.Engine.ChangeMode | src/core/input_capture.cpp:153-163 | a mode change passes only with no physical key, nothing held and nothing pending |
| HandlerEffects.PressHolds | src/core/counterstrafe_controller.cpp:88-167 | cleaner on, any state the invariant allows, sends accepted: a routed press holds its key, and keeps hold of the opposite one iff that is physically down, was held, the mode is HUMANIZED and the overlap timer is admitted |
| HandlerEffects.ReleaseHolds | src/core/input_router.cpp:155-195 | likewise a routed release lets its key go unless a brake holds it; the opposite key, if down, is held again iff the two were in conflict; after the last key, what a fitting brake holds, or nothing new |
| HandlerEffects.ExpiryHolds | src/core/timer_lifecycle.cpp:41-87 | in all modes an overlap's expiry releases its key unless suspended; a brake's releases its key unless that is physically down and restores the opposite key if that is |
| HandlerEffects.RebuildHolds | src/core/state_reconciliation.cpp:66-101 | cleaner on, whatever keys are shown: exactly the shown keys less a suppressed loser, and a braked key of an axis shown up, are held afterwards |
| HandlerEffects.OffPressHolds | src/core/input_router.cpp:95-103 | cleaner off: a routed press leaves its key to the native input and keeps hold of the opposite one iff that is physically down |
| HandlerEffects.OffReleaseHolds | src/core/input_router.cpp:155-195 | cleaner off: a routed release lets go and brakes in the same way but never holds the opposite key again |
| HandlerEffects.OffRebuildHolds | src/core/state_reconciliation.cpp:58-64 | cleaner off: a rebuild lets go of exactly the held keys it shows up while it shows the opposite key down |
| EngineEffects.OffNeverPresses | src/core/input_router.cpp:95-103 | cleaner off: no press and no rebuild adds a down to the accepted inputs, whatever the outside world answers |
| EngineEffects.ClearReleases | src/core/state_reconciliation.cpp:156-175 | after a cleanup no key awaits a timer, the keys' slots are free, and a key still held has its release pending; none is held if all sends are accepted |
| EngineEffects.SuspendIs | src/core/state_reconciliation.cpp:17-40 | suspending stops every timer of the keys, resuming by itself sends nothing and touches no timer; each turns the flag |
| EngineEffects.UnroutedIsNoted | src/core/input_router.cpp:48-72 | an unrouted edge sends nothing and arms no timer |
| EngineEffects.ModeChangesIff | src/core/input_capture.cpp:153-163 | the mode becomes the requested one iff no movement key is physically down for hook or engine and after the cleanup none is held and no release is owed; a refusal for a physical key changes nothing |
| EngineEffects.IdleModeChanges | src/core/input_capture.cpp:153-163 | with sends accepted and nothing owed, a mode change between keystrokes always takes place |
| TimerArming.ArmedOnlyBy | src/core/counterstrafe_controller.cpp:122-137 | only routed edges arm timers: a press at most the 8 ms overlap of the opposite key in a HUMANIZED conflict, a release at most a brake with both keys up, not suspended, on target; the key then awaits exactly the fresh id |
| TimerArming.DisarmedWhenForgotten | src/core/counterstrafe_controller.cpp:76-86 | every step but the arming of a brake disarms the slot of whatever key stops awaiting its timer |
| TimerArming.PressForgets | src/core/input_router.cpp:54-64 | a press clears what its key still awaited unless that is a brake that holds it |
| EngineRuns.NoStuckKeys | src/core/input_router.cpp:155-195 | after every step of every disciplined run, rebuilds from any keys that the axes survive included and in all modes, a held key that is not physically down is pending release or waits for a timer that is still in its slot or on its way |
| EngineRuns.QuietUntilRouted | src/core/state_reconciliation.cpp:156-175 | cleanup and suspension stop arbitrating both axes, and an axis stays so until a rebuild or a routed edge of its own |
| EngineExclusive.FlushApart | src/core/injection.cpp:258-275 | a batch that presses a key only after asking for the opposite release keeps every prefix of the accepted stream exclusive, whatever fails |
| EngineExclusive.NeverBothDown | src/core/counterstrafe_controller.cpp:131-177 | in FULL mode without overlap, at every prefix of the accepted stream of any disciplined run, rebuilds from any fitting keys included, two opposing keys are never both down |
| EngineReconcile.SeenOrQuietFits | src/core/state_reconciliation.cpp:66-89 | keys that the engine has seen fit, and so do any keys while both axes are quiet |
| EngineMasks.RebuildItselfIsSafe | src/core/state_reconciliation.cpp:83-101 | with the cleaner on a rebuild itself, whatever keys it is shown, leaves no key stuck, and in FULL mode keeps every prefix of the stream exclusive |
| EngineMasks.RebuildKeepsIff | src/core/state_reconciliation.cpp:56-101 | in every mode, a rebuild keeps the engine's invariant against every outside world iff every axis survives the shown keys |
| EngineMasks.RebuildNeverStuckIff | src/core/state_reconciliation.cpp:56-101 | in every mode, no disciplined run after a rebuild leaves a key stuck iff every axis survives the shown keys: they fit, or with the cleaner on the expiry awaited for its last pressed key has left its slot |
| EngineMasks.OffMisfitSticks | src/core/state_reconciliation.cpp:58-64 | with the cleaner off, an unaccounted held key that is no longer shown down, on an axis shown up, is stuck at once |
| EngineMasks.RebuildSafeIff | src/core/counterstrafe_controller.cpp:140-155 | in FULL mode without overlap, no disciplined run after a rebuild has both keys of an axis down iff the shown keys fit |
| EngineMaskRuns.RebuildRefinesIff | src/core/state_reconciliation.cpp:66-101 | in an obliging world and every mode, a rebuild and any release after it leave the specified logical pair on both axes iff the shown keys fit |
| EngineMaskRuns.MaskRunHoldsBoth | src/core/state_reconciliation.cpp:103-142 | a tap against the residual motion, a rebuild that shows both keys down and a release end with both keys held |
| EngineStale.RoutedPressSafeIff | src/core/counterstrafe_controller.cpp:140-155 | a routed press is safe against every focus and backend behaviour iff it does not meet a stale opposite key while presses are allowed |
| EngineStale.RoutedReleaseSafeIff | src/core/input_router.cpp:155-195 | without overlap a routed release, first or repeated, is safe against every focus and backend behaviour iff, while presses are allowed, it neither ends a conflict under a brake of its own key nor finds a survivor beside a key still down |
| EngineStale.RoutedEdgeSafeIff | src/core/counterstrafe_controller.cpp:140-155 | the same of any routed edge, press or release, new or repeated |
| EngineStale.RepeatedReleaseHoldsBoth | src/core/counterstrafe_controller.cpp:140-155 | a run in which a routed release repeats an unrouted one in the middle of a conflict ends with both keys held |
| EngineStale.UndisciplinedRunHoldsBoth | src/core/counterstrafe_controller.cpp:140-155 | a run with unrouted releases in the middle of a conflict ends with both keys held |
| SocdRefinement.RefinesSpecification | src/core/counterstrafe_controller.cpp:88-167 | with accepted sends on one target, from the start, from a rebuild after a cleanup with any keys and from any other with fitting keys, the logical pair is the specified function of physical pair, last key, overlap and armed timers |
| SocdRefinement.RepeatsEmitNothing | src/core/state_reconciliation.cpp:56-101 | repeated edges and a reconciliation with the same keys emit nothing |
| EngineIdealRuns.RebuildIsSilent | src/core/state_reconciliation.cpp:90-100 | reconciling an arbitrated state sends nothing and changes no logical or physical key |
| BrakeLife.ReleaseArmsIff | src/core/counterstrafe_controller.cpp:277-340 | in every state the invariant allows and whatever the outside world does, the release of the last key of an axis arms timers iff a brake fits (on target, positive duration, every needed timer admitted) and the engine is not suspended; else no timer is armed, none is awaited anew, and at most the release itself is sent |
| BrakeLife.ReleaseArmsBrake | src/core/counterstrafe_controller.cpp:277-340 | with sends accepted, a brake that fits holds the key against the residual motion for exactly the brake duration, and the key along it for exactly the overlap |
| BrakeLife.ReleaseWithoutBrake | src/core/counterstrafe_controller.cpp:277-313 | without one, no key of the axis is held, no timer is armed, and the log gains at most the release |
| BrakeLife.ReleaseBrakesIff | src/core/counterstrafe_controller.cpp:277-340 | a key of the axis is held after the release iff a brake fits |
| BrakeLife.ExpiryEndsBrake | src/core/timer_lifecycle.cpp:56-70 | an expiry releases its key unless it is physically down by then and leaves the opposite key as it was |
| BrakeLife.SecondPressOverlaps | src/core/counterstrafe_controller.cpp:122-137 | in HUMANIZED mode a second press holds both keys and times the first one's release 8 ms ahead |
| BrakeLife.OverlapEnds | src/core/timer_lifecycle.cpp:46-55 | when the overlap expires with both keys down, only the last pressed key stays held |
| BrakeSafety.BrakeOutlives | src/core/input_router.cpp:54-64 | an armed brake keeps its key held, its id awaited and its slot untouched through taps of its key, rebuilds that do not show the opposite key down, edges of the other axis and other timers, in all modes |
| BrakeSafety.RebuildSparesIff | src/core/state_reconciliation.cpp:83-101 | a rebuild leaves an armed brake as it is iff the opposite key is shown up or, with the cleaner on, the brake's key is shown down too and was pressed last |
| StaleTimers.StaleIdsAreInert | src/core/timer_lifecycle.cpp:31-39 | once the engine clears or replaces an id, no later expiry of it changes the engine or the output, in any run at all |
| EnginePhysical.StepPhys | src/core/input_router.cpp:48-52 | only edges and rebuilds change the physical keys, each in the obvious way |
| HookLedger.LedgerAgreement | src/core/input_capture.cpp:456-478 | across installations, edges, cleanups, mode changes and rebuilds, and unless something was lost since the last rebuild, replaying the queued edges onto the engine's keys gives the hook's ledger; after a full drain they are equal |
| HookLedger.RebuildRestores | src/core/input_capture.cpp:165-170 | whatever an installation or a full ring lost, a rebuild restores the agreement unless an edge was dropped after its mask was taken |
| HookLedger.RebuildsAreSeen | src/core/state_reconciliation.cpp:103-123 | the mask a rebuild uses is what the engine's own edges left down, unless something was lost |
| HookLedger.HookQueues | src/core/input_capture.cpp:89-96 | while the ring has room an edge that changes the ledger joins its end and nothing is lost; a repeat changes nothing |
| HookLedger.DrainDelivers | src/core/input_capture.cpp:108-120 | draining hands the oldest edge to the engine for its own target, routed iff it was queued as routed and that target is active by then |
| HookedEngine.OrderlyNeverStuck | src/core/input_capture.cpp:105-170 | hook, ring and engine together: if drained unrouted edges meet only quiet axes and every rebuild happens with nothing lost or both axes quiet, no key is ever stuck |
| HookedEngine.OrderlyNeverBothDown | src/core/input_capture.cpp:105-170 | and in FULL mode without overlap no prefix of the accepted stream has both keys of an axis down |
| HookLedger.LaunchShowsAnyKeys | src/core/input_capture.cpp:604-614 | any keys held at launch reach the first rebuild although the engine has seen no edge of them |
| HookLedger.RejectedEdgeDisagrees | src/core/input_capture.cpp:89-93 | right after a rejected push the ledger and the replayed keys differ in exactly the rejected key |
| KeyboardHook.KeyboardHook.Install | src/core/input_capture.cpp:604-614 | the first installation sets the ledger to the keys that are down; every one empties the ring |
| KeyboardHook.KeyboardHook.Uninstall | src/core/input_capture.cpp:703-704 | the ring ends empty, the ledger stays |
| KeyboardHook.KeyboardHook.QueueRoutedEvent | src/core/input_capture.cpp:89-96 | an event enters the ring iff there is room, and counts as queued iff in addition no due wake message failed |
| KeyboardHook.KeyboardHook.OnMovementKey | src/core/input_capture.cpp:456-478 | an edge changes the ledger and enters the ring unless it is full; a down is swallowed iff it was routed, counted as queued and the cleaner is on; an up iff its down was, or a brake holds the key |
| KeyboardHook.KeyboardHook.PhysicalMovementMask | src/core/input_capture.cpp:165-170 | everything queued is handled in order before the mask is read |
| RoutedQueue.RoutedInputQueue.TryPush | include/core/routed_input_queue.h:13-20 | a value is appended iff there is room |
| RoutedQueue.RoutedInputQueue.TryPop | include/core/routed_input_queue.h:22-29 | the oldest value is taken iff there is one |
| RoutedQueue.RoutedInputQueue.Clear | include/core/routed_input_queue.h:37-40 | the queue ends empty |
| RoutedQueue.RoutedInputQueue.DrainBounded | include/core/routed_input_queue.h:42-55 | a pass handles a prefix in order, at least one event if it may and there is one, and stops only for its bounds or when empty |
| RoutedQueue.RoutedInputQueue.DrainAll | src/core/input_capture.cpp:165-166 | repeated passes end, having handled everything in order, in at most as many passes as events |
| WakeGate.NoLostWakeup | include/core/routed_input_queue.h:63-83 | in every interleaving, a non-empty queue with both sides idle has a wake message outstanding, and events leave in order |
| WakeGate.PushWakes | include/core/routed_input_queue.h:63-83 | a pushed event is queued last and leaves a wake message on its way: the one that already was, or exactly one more |
| WakeGate.WokenDrains | include/core/routed_input_queue.h:63-83 | a wake message that finds both sides at rest empties the queue, clears the flag and leaves the consumer waiting |
| Clock.NowIsExact | src/core/timing.cpp:41-48 | the split conversion equals the exact one, rounded down |
| Clock.SplitFits | src/core/timing.cpp:45-47 | its product stays within 64 bits whatever the counter |
| Movement.VelocityTracker.AdvanceVelocity | src/core/movement_reconstruction.cpp:48-72 | the tracker integrates the elapsed time in ticks and a tail step under the step cap, with early exit and snap |
| Movement.SimulateStopDurationMs | src/core/movement_reconstruction.cpp:74-102 | the rounded-up milliseconds of the tick count at which the simulated speed falls below the threshold, or of the cap |
| Movement.CeilMs | src/core/movement_reconstruction.cpp:98-101 | the least number of milliseconds that covers the ticks |
| MovementBounds.FrictionSpeed | src/core/movement_reconstruction.cpp:21-29 | friction changes the speed to the slowed speed and nothing else about it |
| MovementBounds.AccelerateGain | src/core/movement_reconstruction.cpp:34-46 | acceleration adds at most its own share to the speed |
| MovementBounds.SpeedStaysBounded | src/core/movement_reconstruction.cpp:21-72 | over every run of key changes and elapsed times, with friction at most 64, speed is at most max(initial, A W / F, 0.1 + A W / 64) |
| MovementOneAxis.OneAxisStaysBounded | src/core/movement_reconstruction.cpp:21-72 | on one axis alone the speed is at most max(initial, W) |
| MovementOneAxis.SteeringExceedsMaxSpeed | src/core/movement_reconstruction.cpp:34-46 | with the default physics one steered tick at speed W ends above W |
| MovementCap.MaxSpeedCapsIff | src/core/movement_reconstruction.cpp:21-72 | W bounds the two-dimensional speed, of every step and over every run, iff there is no acceleration or both A W <= max(S, W) F and 0.1 + A W / 64 <= W |
| MovementCap.MaxSpeedCapsByCoefficients | src/core/movement_reconstruction.cpp:21-46 | with a stop speed within W the first half is A <= F |
| MovementCap.DefaultsExceedMaxSpeed | src/core/movement_reconstruction.cpp:21-46 | the default physics do not keep the speed within W |
| MovementAgreement.AdvanceSplits | src/core/movement_reconstruction.cpp:48-72 | within the step cap, advancing by n ticks and then by any r equals advancing once |
| MovementAgreement.StopTicksAreTheTrackers | src/core/movement_reconstruction.cpp:90-96 | below its cap the stop simulation's tick count is the least after which the tracker under the opposing wish is below the threshold |
| MovementAgreement.ClockAdvances | src/core/movement_reconstruction.cpp:48-72 | the tracker's clock starts with the first call and never goes back, a call that does not advance it changes nothing, and without a wish the tracker ends at rest or at 0.1 or more |
| MovementAgreement.ScaleActsOnMaxSpeed | src/core/movement_reconstruction.cpp:48-72 | the speed scale acts exactly as a scaled maximum speed |
| MovementStops.StopsWithinBudget | src/core/movement_reconstruction.cpp:90-96 | a one-axis brake is over within floor((v - threshold) 64 / (A W)) + 1 ticks |
| MovementStops.StopLands | src/core/movement_reconstruction.cpp:90-96 | it ends no lower than max(0, threshold - max(S, threshold) F / 64) - A W / 64 |
| MovementStops.StopMonotoneInSpeed | src/core/movement_reconstruction.cpp:74-96 | a faster start never takes fewer ticks |
| MovementStops.StopAntitoneInThreshold | src/core/movement_reconstruction.cpp:74-96 | a lower threshold never takes fewer ticks, in two dimensions too |
| MovementStops.ShapedWithin | src/core/movement_reconstruction.cpp:220-246 | shaping never goes below the pure duration or the cap, nor above the cap, for any curve result, finite or not |
| MovementStops.TimerKeepsEveryTick | src/core/counterstrafe_controller.cpp:251-274 | an armed brake lasts at least every simulated tick or the cap and never longer than the cap, and its overlap is the longest within the requested one that ends at least 100 microseconds earlier |
| BrakeDuration.BrakeTicksAreTheTrackers | src/core/counterstrafe_controller.cpp:202-257 | a brake takes as many ticks as the tracker, started at the signed motion along and across the released key with the counter key and the held orthogonal keys as its wish, stays at or above the threshold: the configured one within [1, 34], else 20, at most the maximum speed |
| BrakeDuration.NoBrakeIff | src/core/counterstrafe_controller.cpp:236-261 | the duration is 0 iff the speed along the released key is not positive or below that threshold |
| BrakeDuration.DurationIsNearest | src/core/movement_reconstruction.cpp:220-246 | otherwise it is the whole number of milliseconds nearest to the shaped value within its bounds, or the horizon when that value is not finite |
| Seqlock.AcceptedWasCurrent | include/core/target_platform.h:93-113 | every value a reader accepts, in either loop form and for any number of words and readers, is one complete published value and was in memory, with no writer at work, from its first sequence read to its second |
| Seqlock.VersionsNeverGoBack | src/core/runtime_config.cpp:26-72 | one reader's accepted versions never go backwards |
| Seqlock.ContinueNeverExits | include/core/target_platform.h:97-111 | the continue of the do-while form never leaves the loop with an unread payload |
| SeqlockProgress.StorePublishes | include/core/target_platform.h:115-125 | a store ends with its value in memory and published last, whatever the number of words |
| SeqlockProgress.UndisturbedAccepts | include/core/target_platform.h:93-113 | a reader of either form that meets no writer accepts what is in memory, with its version, after exactly one attempt |
| PublicationStore.PublicationStore.Store | include/core/target_platform.h:115-125 | the words become the value and the sequence number advances by two |
| PublicationStore.PublicationStore.Load | include/core/target_platform.h:93-113 | with no writer at work the loop ends with the stored words |
| BhopQueue.RequestsAccountedFor | include/core/bhop_injection_queue.h:68-117 | over all interleavings every accepted request is waiting, in hand or done, is completed exactly once, and says executed iff the executor ran once with its kind and target and returned its result |
| BhopQueue.DoneForever | include/core/bhop_injection_queue.h:132-143 | a completed request never changes again |
| BhopQueue.StopIsFinal | include/core/bhop_injection_queue.h:50-66 | when Stop returns no executor is running and the queue is empty, and both stay so until the next Start |
| BhopProgress.AcceptedIff | include/core/bhop_injection_queue.h:71-84 | a request is accepted iff the queue runs and none is queued |
| BhopProgress.DrainExecutes | include/core/bhop_injection_queue.h:101-117 | the next drain hands the queued request to the executor once, completes it with its result and goes on until the queue is empty |
| BhopProgress.StopCancels | include/core/bhop_injection_queue.h:50-66 | a stop completes what is queued as not executed and runs nothing; a start accepts again |
| BhopInjectionQueue.Request.Complete | include/core/bhop_injection_queue.h:132-143 | only the first completion counts |
| BhopInjectionQueue.BhopInjectionQueue.Enqueue | include/core/bhop_injection_queue.h:71-84 | a request is queued iff the queue runs and has room |
| BhopInjectionQueue.BhopInjectionQueue.Drain | include/core/bhop_injection_queue.h:101-117 | everything queued is executed once, in order, and completed with its result |
| BhopInjectionQueue.BhopInjectionQueue.Stop | include/core/bhop_injection_queue.h:50-66 | everything queued is completed as not executed and nothing is accepted any more |
| BhopInjectionQueue.BhopInjectionQueue.Start | include/core/bhop_injection_queue.h:42-48 | starting first stops, then accepts |
| SpaceOwnership.HeldSpaceIsOwed | src/core/bhop.cpp:209-229 | whenever the worker's flag is clear and no request is in flight, a held Space is pending release |
| SpaceOwnership.ShutdownLeavesSpaceOwed | src/core/bhop.cpp:503-527 | the same after shutdown, even if stopping cancelled the last release |
| SpaceProgress.PressTakenIff | src/core/bhop.cpp:209-229 | a requested Space press reaches the game iff the target is active, nothing is owed and the send is accepted; then the worker's flag is set and Space is held for that target |
| SpaceProgress.ReleaseSettles | src/core/bhop.cpp:209-229 | a requested release clears the flag; a Space held for that target goes up iff it is active and one of two sends is accepted, and is pending otherwise |
| SpaceProgress.ShutdownReleases | src/core/bhop.cpp:503-527 | the worker's own last release does the same directly |
| RuntimeConfig.ConfigStore.SanitizeCopy | src/core/runtime_config.cpp:74-260 | the whole sanitised configuration, profile and mode loops included |
| RuntimeConfig.ConfigStore.Apply | src/core/runtime_config.cpp:303-335 | user, snapshot and published configuration after an apply, with the Safe Mode transitions |
| RuntimeConfig.ConfigStore.SetSafeMode | src/core/runtime_config.cpp:341-359 | the three after switching Safe Mode |
| RuntimeConfig.ConfigStore.Revert | src/core/runtime_config.cpp:367-374 | the three after reverting to the snapshot |
| ConfigSafety.SanitizeIdempotent | src/core/runtime_config.cpp:74-260 | sanitising twice is sanitising once |
| ConfigSafety.MovementBounded | src/core/runtime_config.cpp:74-260 | every strafe, walk, intent and physics setting becomes the nearest value within its own bounds, or the lower bound when it is not finite |
| ConfigSafety.TimingBounded | src/core/runtime_config.cpp:74-260 | the same of penalties, bhop and mode timings, each maximum bounded below by its own minimum |
| ConfigSafety.ProfileBounded | src/core/runtime_config.cpp:74-260 | the same of every brake profile, a value that is not finite giving way to that profile's default |
| ConfigSafety.RestBounded | src/core/runtime_config.cpp:74-260 | mode, profile index and refresh interval; everything else stays as it is |
| ConfigSafety.SafeModeValues | src/core/runtime_config.cpp:262-276 | what Safe Mode publishes in place of the bounded values, and nothing else |
| ConfigSafety.PublishedIsSanitized | src/core/runtime_config.cpp:303-374 | over every run the published configuration is the sanitised user configuration, and outside Safe Mode the snapshot is the user configuration |
| ConfigSafety.AppliedTakesEffect | src/core/runtime_config.cpp:303-335 | over every run, an applied configuration outside Safe Mode becomes, sanitised, the user, snapshot and published one; entering or in Safe Mode the user and published one with the snapshot as at entry; leaving brings the snapshot back everywhere |
| ConfigSafety.SwitchTakesEffect | src/core/runtime_config.cpp:341-374 | over every run, switching Safe Mode on keeps the user configuration as the snapshot and publishes it under the overrides; switching it off and reverting bring the snapshot back everywhere |
| ConfigSafety.SafeModeRoundTrip | src/core/runtime_config.cpp:303-374 | every way of leaving Safe Mode restores exactly the user configuration at entry |
| ConfigSafety.StopBoundsOrderedIff | src/core/runtime_config.cpp:102-110 | the sanitised stop bounds are ordered iff Safe Mode is off or the horizon is at least 6 ms |
| ConfigSafety.DefaultIsSanitized | src/core/runtime_config.cpp:386-398 | the defaults published by Init are their own sanitised form |

## Left out

- Windows itself: hooks, window and process queries, SendInput and syscall dispatch, messages; the foreground and the backend are arguments, and a backend never reports more sends than it was given.
- The unguarded and validator forms of the injection calls and the down-up helper: only the target-bound calls are modelled, so the mouse slot exists but never becomes held.
- The timer thread's start, stop, waits, spinning and adaptive margins: the service runs throughout, the thread's scan, second look and hand-over are separate steps, and waking it early is not modelled.
- TimerService.TimerService.CancelTimer: does not ignore the call while the service is stopped or stopping, because the service runs throughout.
- What the keyboard does while no hook is installed: the ledger is the model's physical truth.
- One clock reading and one brake computation per handler: the source reads the clock again inside a handler.
- The link from `CalculateTrueBrakeUs` to the engine: the engine takes any duration and any sign of the residual velocity, and the physics files say which ones there are.
- Tap-spam, walk, held-duration and conflict-penalty bookkeeping, generation counters, the counter-strafe hold mask and its published targets, crouch and shift handling: they do not affect the emitted keys.
- The other kinds of routed events (modifiers, Space) that share the ring with the movement edges.
- Weak memory and wrap-around: shared accesses are sequentially consistent steps, and sequence numbers, timer ids and ring counters are unbounded.
- Floating-point rounding: speeds are reals, the square root is any function with its defining property, and the power curve may return any value, finite or not.
- The legacy lookup tables, the hold-time velocity estimate, `NeutralizeAxis`, `TakeSnapshot`.
- `Seqlock`, `BhopQueue` and `WakeGate` are values stepped by transition functions, because their subject is interleaving: the in-place classes beside them (`PublicationStore`, `BhopInjectionQueue`, `RoutedQueue`) are about calls that are not interrupted.
- The wait of a submitter for its request and its wake retries: a request's result is read once it is done.
- Bhop cadence, jitter compensation and the worker's states: only who owns a held Space is modelled.
- Sockets, HTTP, JSON and INI files, tray, ETW, topology, telemetry, the dashboard.
