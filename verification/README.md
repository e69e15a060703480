# Slope simulation: verified models

This project models the parts of the slope simulation repository whose correctness depends on many
steps happening in the right order, and proves what those parts are relied on for.

**Golf lockstep control** (`GolfPlan`, `PeerModel`, `PeerInvariants`, `PeerTheorems`, `PeerResponses`,
`PeerFaults`, `PeerHistory`, `PeerTrace`, `PeerDriving`, `PeerIdentities`, `CommandPeer`, `PeerDeliveries`,
`Lockstep`, `LockstepTheorems`, `LockstepCompletion`, `BenignExecutions`, `SimulatorLoop`). The simulator
sends a wheel state every 10 ms, waits for the command with the same time, and sends an RTK and an IMU frame
every 100 ms. The command peer checks each stream, pairs RTK with IMU into poses, parks at most one wheel
state while its pose is missing, latches the first fault, and answers every accepted wheel state with one
command. `PeerModel` gives each callback as a function on the peer's state, `CommandPeer` is the class that
updates its fields in place and is proved to do exactly that, `Lockstep` joins peer and simulator by
lossless channels with any interleaving across topics, and `SimulatorLoop` is the simulator's physics loop
with its clock, its schedulers and its command receiver. The chain of results is: every callback keeps the
peer's invariant; so exactly-once answers, fault dominance, fresh poses and the stop ramp hold in every run;
an independent reading of the samples then fixes every pose, every driving command and every latched fault;
every move of the joined system keeps the joint invariant; so the order faults are unreachable, a waiting
simulator can always be answered before any grace time passes, and a run that completes has exactly the
planned counts and a finished peer.

**LVX2 recordings** (`LittleEndian`, `Lvx2Format`, `Lvx2Document`, `Lvx2Theorems`, `Lvx2Facts`,
`Lvx2Parser`). A grammar and a printer for whole files, the streaming parser with its moving cursor proved
against the grammar, and the grammar proved against the printer in both directions: a file is accepted if
and only if it is the printed form of a well-formed document, up to the frame limit; the report then
describes that document field by field, and every flawed or cut file is refused for its first flaw.

**The release installer** (`InstallerModel`, `InstallerBuild`, `InstallerRun`, `InstallerWitnesses`).
Packing and extraction of the embedded files, the seal of a release, the judgement on an existing one, and a
whole run as file operations each of which may raise. The disk after every operation is recorded, so safety
of all recorded disks is crash safety; runs compose.

**Measurement evidence** (`OutputSchedule`, `WheelDelivery`, `DeliveryFacts`, `DrainFence`, `MotionTracker`,
`MotionFacts`, `EventGaps`). The multi-rate publishing loop, the exact match between the peer's events and
the log, the drain fence that makes this match possible, the motion tracker whose report must pass the
verifier's consistency gates, and the event-gap measure.

**Mower base and window layout** (`Sbus`, `MowerBase`, `WindowLayout`). The 16 x 11-bit decoder as a
bijection, the arbitration tick under its two watchdogs over all event sequences, and the rounding
arithmetic of the dashboard geometry.

## What the proofs found

Where the code does less than its names or comments suggest, the condition under which it does hold
is stated exactly.

- The peer's finish rule and ramp window depend on the robot's speed limit, which the code fixes at
  20 rad/s; the model keeps the limit free. At 20 rad/s the peer finishes on every route
  (`LockstepCompletion.RobotAlwaysFinishes`). For a free limit it finishes if and only if the plan has
  at least one period of driving or ramp (`LockstepCompletion.FinishedAtTheEnd`), and the ramp window
  alone stops every start if and only if the limit is at most 2 rad/s per 100 ms of window, a bound
  that 20 rad/s meets with equality (`PeerTheorems.RampWindowSuffices`). One further ramp step is taken
  at the stop time itself, and with it every limit is met (`PeerTheorems.StoppedAfterRamp`).
- Under a fault the finished flag holds exactly while the last twenty readings were quiet, so it can
  drop back to false; a run that does is given (`PeerHistory.FinishedUnderFault`,
  `PeerHistory.FaultedFinishIsNotStable`).
- A reinstall is judged complete only if no expected file is called `manifest.json` or
  `install-state.json`; otherwise a release that its own installer just sealed is refused for ever
  (`InstallerModel.RerunIsComplete`, `InstallerWitnesses.BookkeepingNameBreaksRerun`).
- A temporary link left by a stopped run with the same process number blocks activation; a run that
  leaves one and its blocked rerun are given (`InstallerRun.InstallRoot.CurrentTarget`,
  `InstallerWitnesses.StaleLinkBlocksRerun`).
- `inspect_release` accepts unlisted files and a missing state file, the installer does not; and it
  refuses, with an exception, a sealed release whose setup removed or changed a dependency
  (`InstallerModel.InspectAgainstSealed`, `InstallerModel.InspectOwnRelease`,
  `InstallerWitnesses.RemovedDependencyIsRefused`).
- The dashboard's width leaves its bound for narrow screens at large scales, under an exact condition
  (`WindowLayout.WidthNearTarget`, `WindowLayout.WidthFarFromTarget`).
- The steering slew of the mower's navigation branch compares the angle with the value just assigned
  to it and never acts; two passes can swing the steering across its whole range (`MowerBase.SlewNeverActs`).
- Two end checks of the LVX2 parser, and in the simulator the cadence and scan guards, the final
  output-count check and the step-count check, cannot fail (`Lvx2Theorems.EndChecksAreDead`,
  `SimulatorLoop.CollectionWindow.Run`, `GolfPlan.WholePhysicsSteps`).

## Conventions

Times are nanoseconds as integers. Speeds, distances and wall-clock readings are reals. Digests are
an injective constructor. A payload that does not decode arrives as `None`. One callback of the peer is
one step, because every callback holds the same re-entrant lock. Histories that the code does not
keep (`Log`, `trace`, `samples`, `issued`) exist only to state properties. Several invariants are
written `true == (...)` so that they travel through a proof as one fact.

## Model

| member | source | states |
|---|---|---|
| GolfPlan.PlanAgreement | scripts/mid360_golf_simulation.py:289-321 | For every route and speed limit, the simulator's default plan is refused exactly when the peer's finish time lies past 240 s, and otherwise converts to exactly the peer's finish time in nanoseconds. |
| GolfPlan.CollectionDuration | scripts/mid360_golf_simulation.py:306-321 | Any accepted duration is a whole number of 100 ms windows of at most 240 s. |
| GolfPlan.TenthsAreAccepted | scripts/mid360_golf_simulation.py:306-321 | Every whole tenth of a second up to 240 s is accepted as exactly that many nanoseconds, and none beyond. |
| GolfPlan.AcceptedIsClose | scripts/mid360_golf_simulation.py:306-321 | Whatever is accepted differs from its window by no more than the absolute or relative comparison slack. |
| GolfPlan.EmptyWindow | scripts/mid360_golf_simulation.py:306-321 | The one degenerate acceptance: an empty window is accepted exactly for requests in (0, 1e-12] seconds. |
| GolfPlan.WholePhysicsSteps | scripts/mid360_golf_simulation.py:623-626 | An accepted window holds a whole number of 240 Hz steps, 24 per frame, so the simulator's own check cannot raise. |
| GolfPlan.Periods | scripts/mid360_golf_command_peer.py:206-208 | Rounding up to 100 ms periods with the 1e-12 slack: the count is the least one not below the slackened time. |
| GolfPlan.ScheduledRouteDistance | scripts/mid360_golf_command_peer.py:160-170 | The segment loop computes the recursive plan distance at every timestamp. |
| GolfPlan.ScheduledBounds | scripts/mid360_golf_command_peer.py:160-170 | Scheduled distance is 0 at time 0, stays within the route, and equals the route length exactly from the total duration on. |
| GolfPlan.ScheduledMonotoneContinuous | scripts/mid360_golf_command_peer.py:160-170 | Scheduled distance never decreases and grows by at most the fastest segment speed times the elapsed time, also across segment joints. |
| GolfPlan.StopCoversRoute | scripts/mid360_golf_command_peer.py:206-208 | The stop time is a whole number of 100 ms, the plan has covered the whole route by then (up to the slack), and 100 ms earlier it has not. |
| GolfPlan.WatchRemembersRun | scripts/mid360_golf_command_peer.py:554-576 | The remembered lag start is the time of the first sample of the unbroken over-limit run that reaches the latest observation. |
| GolfPlan.LagLatchedExactly | scripts/mid360_golf_command_peer.py:554-576 | Before the stop time the progress-lag fault is raised exactly when some unbroken over-limit run ending now spans at least one second. |
| PeerModel.LatestPoseAt | scripts/mid360_golf_command_peer.py:504-508 | The lookup returns the greatest retained pose time not after the query, and nothing exactly when all are later. |
| PeerModel.MissingPose | scripts/mid360_golf_command_peer.py:387-391 | A wheel state needs a pose exactly when no fault is latched, it is not past the stop, and no retained pose at all lies 0 to 100 ms before it. |
| PeerModel.Scaled | slope_sim/mid360_golf_drive.py:335-422 | Joint scaling of the wheel speeds never leaves the limit, whatever the geometry asked for. |
| PeerInvariants.ControllerWithin | slope_sim/mid360_golf_drive.py:335-422 | Every command the route controller issues is within the wheel limit and marks its time as last command time. |
| PeerInvariants.TrimKeeps | scripts/mid360_golf_command_peer.py:334-366 | Eviction keeps at most four poses, always the newest ones with their contents, and never the latest. |
| PeerInvariants.RememberKeeps | scripts/mid360_golf_command_peer.py:334-366 | Storing a later pose finds the previous one still retained (the speed lookup cannot fail) and keeps the retention invariant. |
| PeerInvariants.InitialInv | scripts/mid360_golf_command_peer.py:176-250 | A new peer satisfies the whole invariant. |
| PeerInvariants.WheelKeeps | scripts/mid360_golf_command_peer.py:368-385 | A wheel callback, on every path, keeps the invariant, never rewrites a sent command, and accepts the state exactly when sequence and cadence match. |
| PeerInvariants.RtkKeeps | scripts/mid360_golf_command_peer.py:295-302 | An RTK callback keeps the invariant and never accepts a wheel state, on every path including recovery failure. |
| PeerInvariants.ImuKeeps | scripts/mid360_golf_command_peer.py:304-311 | An IMU callback keeps the invariant and never accepts a wheel state, on every path including recovery failure. |
| PeerInvariants.ServiceKeeps | scripts/mid360_golf_command_peer.py:437-460 | The pending-wheel service, including the grace timeout, keeps the invariant. |
| PeerInvariants.ApplyKeeps | scripts/mid360_golf_command_peer.py:274-460 | Every event a peer can receive, external faults and undecodable payloads included, keeps the invariant. |
| PeerInvariants.RunInv | scripts/mid360_golf_command_peer.py:173-616 | The invariant holds in every state of every run. |
| PeerInvariants.RunLater | scripts/mid360_golf_command_peer.py:173-616 | Along every run the histories only grow, the first fault stays, and commands sent after it are zero. |
| PeerTheorems.AcceptedByEvents | scripts/mid360_golf_command_peer.py:132-142 | The accepted wheel states of a run are exactly the ones an independent reading of the event list selects by sequence and cadence. |
| PeerTheorems.ExactlyOnceInOrder | scripts/mid360_golf_command_peer.py:368-502 | Commands attempted plus parked wheel states equal accepted wheel states; command k answers the k-th accepted state with sequence k, its time, model, descriptor and identities; published counts differ only by transport failures, each of which leaves a fault. |
| PeerTheorems.FaultDominates | scripts/mid360_golf_command_peer.py:274-280 | After the first fault the reason never changes and every later command is zero. |
| PeerTheorems.MovingCommandsAreFresh | scripts/mid360_golf_command_peer.py:510-552 | Every nonzero command up to the stop time was computed without a fault from a retained pose 0 to 100 ms old, and every earlier command was sent without a fault. |
| PeerDriving.DrivingFollowsPoses | scripts/mid360_golf_command_peer.py:504-552 | Over all runs, every answer up to the stop without a fault takes one pursuit step (leave the segment, project, limit in proportion, slew each wheel by at most 0.2 rad/s) from where the answers before it led, towards the pose its own entry names, which is the newest recovered one not later than the wheel state; before the stop the left and right command speeds are that step's left and right. |
| PeerDriving.AccelerationLimit | slope_sim/mid360_golf_drive.py:391-401 | From rest to the first and from each to the next fault-free command, before and after the stop, no wheel changes by more than 0.2 rad/s per 10 ms. |
| PeerDriving.DeadlineExactly | scripts/mid360_golf_command_peer.py:554-567 | An answer that observed its distance observed the pursued segment's start plus the distance along it, and carries the deadline fault if and only if it is at the stop time with more than 0.75 m left. |
| PeerDriving.QuietMeansAtRest | scripts/mid360_golf_command_peer.py:583-590 | A reading is quiet if and only if the base moved less than 2 cm/s between the two newest poses recovered until then and every wheel of the answered wheel state turned slower than 0.1 rad/s. |
| PeerDriving.PosesAreRecoveries | scripts/mid360_golf_command_peer.py:313-366 | In every run the retained poses are the four newest recoveries; each recovery is of an RTK and an IMU sample of one time that both arrived, given the orientation recovered before it, in time order. |
| PeerTrace.LatestIsNewest | scripts/mid360_golf_command_peer.py:504-508 | Evicting old poses never changes an answer: the newest retained pose up to a time is the newest ever recovered up to it. |
| PeerTrace.ControllerPursues | slope_sim/mid360_golf_drive.py:335-422 | One period after its last command the route controller's update is exactly one pursuit step, with that step's distance. |
| PeerTrace.RunTraced | scripts/mid360_golf_command_peer.py:173-616 | In every state of every run pose store, controller and answers are those of the independent reading of the joined samples. |
| PeerTheorems.DeadBranches | scripts/mid360_golf_command_peer.py:334-552 | In no reachable state does the non-advancing-pose, missing-pose or skipped-controller fault occur, and no exception leaves a callback. |
| PeerResponses.AnswersNeverFindStalePose | scripts/mid360_golf_command_peer.py:510-540 | Over all runs: every command up to the stop without a fault had a fresh retained pose and observed its route distance; a missing pose is never latched; a stale pose is newly latched by the timer alone, and the one command of that step answers the parked wheel state with rest under that fault. |
| PeerResponses.FaultHasItsCause | scripts/mid360_golf_command_peer.py:274-502 | A fault that appears in any step of any run is one of those that the step's event may cause; each event has its own list. |
| PeerFaults.FaultLatchedExactly | scripts/mid360_golf_command_peer.py:274-502 | A step of a fault-free run latches a fault if and only if its event breaks a requirement, and then the first one in the order of the checks (payload, sequence, cadence, descriptor, identity, content, owner, command identity, overtaking, recovery, grace time), or else the one answer it released carries a fault or was refused or failed. |
| PeerTheorems.PosePairing | scripts/mid360_golf_command_peer.py:313-366 | Under any interleaving pair times strictly increase, no time waits in both maps, accepted samples are paired, pending or identity-rejected, at most four poses remain and the latest is among them. |
| PeerTheorems.StopRamp | scripts/mid360_golf_command_peer.py:510-552 | From the stop time on each wheel shrinks without changing sign, stays at zero once there, and is the ramp of the previous command or zero under a fault. |
| PeerTheorems.RampBound | scripts/mid360_golf_command_peer.py:513-520 | A command n whole wheel periods past the stop is within the limit less n + 1 ramp steps. |
| PeerTheorems.StoppedAfterRamp | scripts/mid360_golf_command_peer.py:43-50 | Every command from the end of the ramp window on is zero, for every speed limit. |
| PeerTheorems.RampWindowSuffices | scripts/mid360_golf_command_peer.py:43-50 | The ramp steps inside the window alone stop every start within the limit if and only if the limit is at most 2 rad/s per 100 ms of window, which 20 rad/s is. |
| PeerTheorems.RampIsExact | scripts/mid360_golf_command_peer.py:544-551 | In a fault-free stretch past the stop the commands are exactly the iterated ramp of the last one before it. |
| PeerTheorems.FinishedIsStable | scripts/mid360_golf_command_peer.py:603-616 | Once finished, a peer stays finished in every later state without a fault. |
| PeerHistory.RunRecorded | scripts/mid360_golf_command_peer.py:554-601 | In every run the lag memory is the watch over all observed distances, every answer carries the watch's fault, and the quiet count is the trailing run of quiet readings among answers sent under a fault. |
| PeerHistory.FinishedUnderFault | scripts/mid360_golf_command_peer.py:583-592 | Once an answer was sent under the fault, a peer of any run is finished if and only if its last twenty such readings were all quiet. |
| PeerHistory.FaultedFinishIsNotStable | scripts/mid360_golf_command_peer.py:583-592 | With any configuration and a lossless transport there is a run that is finished after twenty quiet readings and unfinished after one moving reading. |
| PeerHistory.LagMemory | scripts/mid360_golf_command_peer.py:554-576 | In every run the remembered lag start is the watch folded over every route distance observed so far. |
| PeerHistory.LagLatchedInRuns | scripts/mid360_golf_command_peer.py:554-576 | In every run an answer before the stop that observed its distance carries the lag fault if and only if an unbroken over-limit run of observations ending with it spans at least one second. |
| PeerTheorems.ZeroSinceStable | scripts/mid360_golf_command_peer.py:578-601 | The remembered start of the zero stretch never moves while no fault is latched. |
| PeerResponses.TimeoutExactly | scripts/mid360_golf_command_peer.py:437-460 | The service changes nothing before the grace time unless a fault is latched; otherwise the parked wheel state is answered once with rest, and the stale pose is the fault unless there already was one. |
| PeerResponses.OvertakingRests | scripts/mid360_golf_command_peer.py:368-385 | A wheel state that overtakes a parked one latches its content fault or the advanced-while-pending fault, and both are answered with rest, the parked one first, with consecutive sequences. |
| PeerResponses.ParkedExactly | scripts/mid360_golf_command_peer.py:368-391 | With nothing parked, an accepted wheel state is parked exactly when it is sound and its pose is missing, and otherwise answered at once by exactly one command. |
| PeerIdentities.CheckWheelExactly | scripts/mid360_golf_command_peer.py:462-502 | A wheel state leaves the peer without a fault exactly when descriptor, content and both frozen identities agree. |
| PeerIdentities.AcceptedWheelsAgree | scripts/mid360_golf_command_peer.py:282-293 | In a fault-free run every accepted wheel state carries one and the same base and command identity and is well formed. |
| PeerDeliveries.FrameArrives | scripts/mid360_golf_command_peer.py:313-332 | The next frame of one stream either waits for the other stream or completes exactly the next pair, and the waiting sets stay the gap between the streams. |
| PeerDeliveries.RtkDelivered | scripts/mid360_golf_command_peer.py:295-332 | The next RTK frame is accepted in order, raises no order fault, and keeps pairing on the 100 ms cadence. |
| PeerDeliveries.ImuDelivered | scripts/mid360_golf_command_peer.py:304-332 | The next IMU frame is accepted in order, raises no order fault, and keeps pairing on the 100 ms cadence. |
| CommandPeer.StreamProgress.Accept | scripts/mid360_golf_command_peer.py:132-142 | Advances sequence and time only for the expected sequence and exact cadence; otherwise nothing changes and the kind of break is reported. |
| CommandPeer.GolfCommandPeer.constructor | scripts/mid360_golf_command_peer.py:176-250 | Starts in the initial abstract state. |
| CommandPeer.GolfCommandPeer.LatchFault | scripts/mid360_golf_command_peer.py:274-280 | Only the first reason is kept. |
| CommandPeer.GolfCommandPeer.AcceptBaseIdentity | scripts/mid360_golf_command_peer.py:282-293 | Freezes the first session and world, and latches a fault on a different descriptor or identity. |
| CommandPeer.GolfCommandPeer.LatchExternalFault | scripts/mid360_golf_command_peer.py:274-280 | An empty reason is refused before any change; any other latches as the first fault and keeps the class invariant. |
| CommandPeer.GolfCommandPeer.OnRtkPayload | scripts/mid360_golf_command_peer.py:295-302 | The callback refines the abstract RTK step, or latches the decoding fault, and keeps the class invariant. |
| CommandPeer.GolfCommandPeer.OnImuPayload | scripts/mid360_golf_command_peer.py:304-311 | The callback refines the abstract IMU step, or latches the decoding fault, and keeps the class invariant. |
| CommandPeer.GolfCommandPeer.AcceptRtkMessage | scripts/mid360_golf_command_peer.py:313-332 | The in-place update of streams, maps and poses is the abstract step on RTK. |
| CommandPeer.GolfCommandPeer.AcceptImuMessage | scripts/mid360_golf_command_peer.py:313-332 | The in-place update of streams, maps and poses is the abstract step on IMU. |
| CommandPeer.GolfCommandPeer.CompletePosePair | scripts/mid360_golf_command_peer.py:334-366 | Taking both samples, recovery, retention, release of a parked wheel state and the finish check together are one abstract step. |
| CommandPeer.GolfCommandPeer.TrimPoses | scripts/mid360_golf_command_peer.py:334-366 | The eviction loop leaves exactly the four newest poses. |
| CommandPeer.GolfCommandPeer.OnWheelPayload | scripts/mid360_golf_command_peer.py:368-385 | The callback refines the abstract wheel step, or latches the decoding fault, and keeps the class invariant. |
| CommandPeer.GolfCommandPeer.AcceptWheelState | scripts/mid360_golf_command_peer.py:462-502 | Order and content checks on a wheel state, with acceptance reported exactly when its stream position is next. |
| CommandPeer.GolfCommandPeer.PublishCommand | scripts/mid360_golf_command_peer.py:393-426 | One publish with its numbering, transport outcome, fault, completion and speeds; parked state and poses are untouched. |
| CommandPeer.GolfCommandPeer.DispatchPendingWheel | scripts/mid360_golf_command_peer.py:428-435 | Answers the parked wheel state once its pose is there or no longer needed. |
| CommandPeer.GolfCommandPeer.ServicePendingWheel | scripts/mid360_golf_command_peer.py:437-460 | The timeout path refines the abstract service step and keeps the class invariant. |
| CommandPeer.GolfCommandPeer.CommandSpeeds | scripts/mid360_golf_command_peer.py:510-552 | Speeds, fault, controller and lag memory after one speed computation are those of the abstract function, with nothing else changed. |
| CommandPeer.GolfCommandPeer.ObserveRouteProgress | scripts/mid360_golf_command_peer.py:554-576 | The lag memory and fault follow one step of the lag watch. |
| CommandPeer.GolfCommandPeer.UpdateCompletion | scripts/mid360_golf_command_peer.py:578-601 | Zero start, quiet count and finished flag follow one abstract completion step. |
| CommandPeer.GolfCommandPeer.MaybeFinish | scripts/mid360_golf_command_peer.py:603-616 | Recomputes the flag from the last wheel time, the last pose time and the zero start, and only when no fault is latched and all three exist. |
| Lockstep.StartSound | scripts/mid360_golf_simulation.py:755-775 | The joint start state of simulator, channels and peer satisfies the joint invariant. |
| Lockstep.SimMovesSound | scripts/mid360_golf_simulation.py:812-880 | Every step of the simulator's loop (pose, wheel state, wait, frame) keeps the joint invariant. |
| Lockstep.WheelIsNext | scripts/mid360_golf_command_peer.py:368-385 | A delivered wheel state always meets a peer with nothing parked and is the next in order, so the double-arrival fault is unreachable in lockstep. |
| Lockstep.WheelSound | scripts/mid360_golf_command_peer.py:368-385 | Delivering a wheel state keeps the joint invariant, whatever is in the other channels. |
| Lockstep.RtkSound | scripts/mid360_golf_command_peer.py:295-302 | Delivering an RTK frame keeps the joint invariant, whatever is in the other channels. |
| Lockstep.ImuSound | scripts/mid360_golf_command_peer.py:304-311 | Delivering an IMU frame keeps the joint invariant, whatever is in the other channels. |
| Lockstep.CommandTimes | scripts/mid360_golf_command_peer.py:393-426 | Command k of a joint execution has sequence k and the time of tick k + 1. |
| Lockstep.CommandSound | scripts/mid360_golf_simulation.py:206-228 | Delivering a command, accepted or refused by the receiver, keeps the joint invariant. |
| Lockstep.MoveSound | scripts/mid360_golf_simulation.py:750-893 | Every move of simulator, peer, channels, timer and fault source keeps the joint invariant. |
| LockstepTheorems.ExecutionSound | scripts/mid360_golf_simulation.py:750-893 | The joint invariant holds in every state of every execution. |
| LockstepTheorems.LockstepSafety | scripts/mid360_golf_simulation.py:230-254 | In every execution the peer never latches an order fault (advanced while pending included), the waiting simulator never sees a later command than it awaits, and what it received is commands 0, 1, ... with their tick times. |
| LockstepTheorems.ParkedPoseIsUnderway | scripts/mid360_golf_command_peer.py:387-391 | Whenever a fault-free peer parks a wheel state, a frame 0 to 100 ms before it has been sent by both sensors, and at least one of its two samples is still in its channel. |
| LockstepTheorems.DrainedPoseIsFresh | scripts/mid360_golf_command_peer.py:387-391 | With both pose channels drained the newest retained pose is fresh for every wheel state sent so far. |
| LockstepTheorems.DrainedIsServed | scripts/mid360_golf_simulation.py:230-254 | With all channels drained the simulator has the command it awaits, or its loss is recorded, or a faulted peer still parks the question. |
| LockstepTheorems.DeliveryReducesWork | scripts/mid360_golf_command_peer.py:295-460 | Every delivery, in any order, lowers a natural-number measure and never clears a fault or moves the simulator. |
| LockstepTheorems.ReleaseWork | scripts/mid360_golf_command_peer.py:437-460 | The service step of a faulted peer releases the parked wheel state. |
| LockstepTheorems.AwaitedCommandArrives | scripts/mid360_golf_simulation.py:230-254 | Deadlock freedom: from every reachable waiting state some finite sequence of deliveries (and service ticks only if a fault is latched) leads to the awaited command or a recorded transport loss, without any grace time passing. |
| LockstepTheorems.SchedulesEnd | scripts/mid360_golf_simulation.py:230-254 | While the simulator waits, every schedule of deliveries, service calls and outside faults in any order holds at most as many deliveries as there is work, and one that exhausts the channels leaves the command received, its loss recorded, or a faulted peer with the question parked. |
| LockstepCompletion.CountsAtTheEnd | scripts/mid360_golf_simulation.py:953-959 | When the loop is done every topic count equals the frozen plan, the peer attempted and published exactly one command per tick, and accepted exactly the sent wheel states. |
| LockstepCompletion.NotFinishedEarly | scripts/mid360_golf_command_peer.py:603-616 | On the default window a fault-free peer is not finished before the last wheel state and the last pose pair are handled. |
| LockstepCompletion.RestAtRampEnd | scripts/mid360_golf_command_peer.py:578-601 | On the default window the zero stretch has begun by the end of the ramp window. |
| LockstepCompletion.FinishedAtTheEnd | scripts/mid360_golf_command_peer.py:603-616 | On the default window, after everything is handled, a fault-free peer is finished if and only if the plan holds at least one period of driving or ramp. |
| LockstepCompletion.RobotAlwaysFinishes | scripts/mid360_golf_command_peer.py:43-50 | At the robot's own limit of 20 rad/s a fault-free peer is finished at the end of the default window, on every route. |
| LockstepCompletion.EveryExecutionCanComplete | scripts/mid360_golf_simulation.py:750-893 | With a lossless transport and an accepting receiver every execution that was not stopped has a continuation to the end of the loop with drained channels and all counts met, and without a fault the peer is then finished under the exact condition. |
| BenignExecutions.BenignExecutionFinishes | scripts/mid360_golf_simulation.py:750-893 | With one identity, expected content, recoverable poses, no loss and a route shorter than the lag limit, some execution of the default window ends without a fault, and with a finished peer under the exact condition. |
| BenignExecutions.SomeExecutionFinishes | scripts/mid360_golf_command_peer.py:603-616 | A concrete plant at the robot's own limit has an execution that ends without a fault and with a finished peer, so the theorems about such executions speak about some. |
| SimulatorLoop.PeriodicScheduler.PopDue | slope_sim/interfaces/clock.py:120-166 | Hands out every deadline not after now that was not handed out before, each exactly once; a clock going back, an overflow or a too long backlog is refused with no change. |
| SimulatorLoop.IssuedIsDue | slope_sim/interfaces/clock.py:120-148 | A scheduler has issued exactly the deadlines due at the last instant it saw. |
| SimulatorLoop.DueAfterSteps | slope_sim/interfaces/clock.py:46-85 | After n physics steps, rounding included, exactly floor(5n/12) wheel and floor(n/24) sensor deadlines are due: rounding never crosses a deadline. |
| SimulatorLoop.PublishCadence.Advance | slope_sim/interfaces/v2/sensor_frames.py:53-72 | Each 240 Hz step releases at most one wheel and one sensor time, exactly the multiples of 10 and 100 ms in that step; only 64-bit overflow of the clock can fail. |
| SimulatorLoop.PlanByTopic | scripts/mid360_golf_simulation.py:750-880 | Topic by topic the plan is one wheel state per 10 ms from the first on, one frame per 100 ms from zero on, and one RTK and IMU sample per 100 ms with one more at the end. |
| SimulatorLoop.OfflineWheelCommandReceiver.AcceptPayload | scripts/mid360_golf_simulation.py:208-228 | An accepted command replaces the latest time; a refused one latches the fault and changes no time. |
| SimulatorLoop.OfflineWheelCommandReceiver.PollCommand | scripts/mid360_golf_simulation.py:230-254 | The four outcomes of one waiting pass, each exactly characterized: the awaited command wins over a fault, a fault over a passed time, that over the timeout. |
| SimulatorLoop.CollectionWindow.PublishWheels | scripts/mid360_golf_simulation.py:812-823 | Publishes each due wheel state and in lockstep waits before the next; it stops at the first one the transport rejects, or right after the first unanswered one. |
| SimulatorLoop.CollectionWindow.FinishFrame | scripts/mid360_golf_simulation.py:825-880 | Refuses a diverged cadence or an incomplete scan; otherwise publishes frame, then pose, and opens the next frame only inside the window, or stops where recovery fails or the transport rejects. |
| SimulatorLoop.CollectionWindow.PublishDue | scripts/mid360_golf_simulation.py:812-880 | From the state after n physics steps, what is published is exactly the plan's next messages, or a part of them and an exception caused outside. |
| SimulatorLoop.CollectionWindow.Advance | scripts/mid360_golf_simulation.py:776-880 | One physics step keeps the loop on the plan; it raises only for an unanswered or rejected message or an unrecoverable pose. |
| SimulatorLoop.CollectionWindow.Pass | scripts/mid360_golf_simulation.py:776-940 | One pass of the loop: the plan is met again, the loop is left exactly on a closed window or a settled fault, a fault once set stays, and a garbled fault marker raises before anything is sent. |
| SimulatorLoop.CollectionWindow.Run | scripts/mid360_golf_simulation.py:776-959 | Over the whole loop the sent messages are a prefix of the plan and every exception has a named outside cause; without fault or exception they are the whole plan with the expected counts; a calm run without drops or exceptions has no fault. |
| SimulatorLoop.CollectionWindow.Close | scripts/mid360_golf_simulation.py:942-959 | After the loop neither final check can raise, and a fault-free window has the expected counts. |
| SimulatorLoop.AutomatonFollowsPlan | scripts/mid360_golf_simulation.py:750-880 | Each step of the joint model's simulator publishes exactly the next messages of the loop's plan, so the two forms of the loop agree. |
| LittleEndian.UnLeOfLe | scripts/verify_lvx2.py:11-20 | Writing a number in k bytes and reading it back gives it, for all k and all numbers that fit. |
| LittleEndian.LeOfUnLe | scripts/verify_lvx2.py:11-20 | Reading any bytes and writing them back restores them. |
| LittleEndian.SignedRoundTrip | scripts/verify_lvx2.py:11-20 | Two's complement 32-bit coordinates survive both directions. |
| Lvx2Format.PointsRoundTrip | scripts/verify_lvx2.py:122-139 | Any number of points survives printing and parsing. |
| Lvx2Format.PackageParses | scripts/verify_lvx2.py:91-139 | The bytes of a well-formed package parse to it at any place inside a frame. |
| Lvx2Format.ParsedPackage | scripts/verify_lvx2.py:91-139 | Whatever parses as a package is well formed and its bytes are its printed form. |
| Lvx2Format.PackagesParse | scripts/verify_lvx2.py:211-220 | The printed packages of a frame, any number of them, parse back. |
| Lvx2Format.ParsedPackages | scripts/verify_lvx2.py:211-220 | Whatever parses as a frame's packages fills the frame exactly with their printed form. |
| Lvx2Document.FieldRoundTrip | scripts/verify_lvx2.py:168-191 | Stripping trailing zeros of a serial field loses nothing but padding: padding again restores the field, and what is left is canonical. |
| Lvx2Document.SerialRoundTrip | scripts/verify_lvx2.py:168-191 | A canonical serial (no trailing zero, at most 16 bytes) survives padding and stripping. |
| Lvx2Document.DeviceRoundTrip | scripts/verify_lvx2.py:159-191 | Every valid device record survives printing and parsing. |
| Lvx2Document.HeaderParses | scripts/verify_lvx2.py:145-191 | A file that begins with a printed header parses to that device. |
| Lvx2Document.ParsedHeader | scripts/verify_lvx2.py:145-191 | Whatever header parses is the printed form of a valid device. |
| Lvx2Document.FramesParse | scripts/verify_lvx2.py:193-227 | Printed frames parse back with their offsets and indexes, whatever follows, when the parser stops where they end. |
| Lvx2Document.ParsedFrames | scripts/verify_lvx2.py:193-227 | Whatever parses as frames is laid out one after another and its bytes are its printed form. |
| Lvx2Theorems.ShownParses | scripts/verify_lvx2.py:142-238 | A file that shows a document parses to exactly that document's summary. |
| Lvx2Theorems.AcceptedShows | scripts/verify_lvx2.py:142-238 | Every accepted file shows the document its summary stands for. |
| Lvx2Theorems.AcceptedExactly | scripts/verify_lvx2.py:142-238 | With any frame limit, a file is accepted if and only if it is, up to the limit, the printed form of a well-formed document. |
| Lvx2Theorems.RoundTrip | scripts/verify_lvx2.py:142-238 | Writing any well-formed document and parsing the file succeeds with that document's summary; what the summary says is `Lvx2Facts.FileDescribes`. |
| Lvx2Facts.FileDescribes | scripts/verify_lvx2.py:142-238 | For every file that shows a document, with any frame limit, each field of the report: version, frame duration, the device, file size, frame count, package count as the sum over frames, point count as the sum over packages, completeness, and the first two frames with offsets, index and first two packages. |
| Lvx2Facts.ReportsDescribe | scripts/verify_lvx2.py:142-238 | Every accepted file shows some document, and its report describes that document field by field. |
| Lvx2Facts.LimitedDescribes | scripts/verify_lvx2.py:193-238 | Reading a document's file with a frame limit reports on exactly its first frames, for every limit. |
| Lvx2Facts.CutFile | scripts/verify_lvx2.py:83-227 | A document's file cut anywhere is refused with the reason fixed by where the cut falls; only a cut exactly between two frames is accepted, and then reported as the document's first frames. |
| Lvx2Facts.PackageFlawIsReported | scripts/verify_lvx2.py:91-139 | Any package header is refused for its first flaw in the order of the checks, or else read back field by field. |
| Lvx2Facts.FrameFlawIsReported | scripts/verify_lvx2.py:193-227 | Any frame header is refused for the first wrong one of current offset, index and next offset, and otherwise the packages decide. |
| Lvx2Facts.HeaderFlawIsReported | scripts/verify_lvx2.py:145-191 | Any 92 header bytes are refused for the first field that differs from the fixed one, or else give the device. |
| Lvx2Theorems.PrintIsInjective | scripts/verify_lvx2.py:142-238 | Different documents have different files. |
| Lvx2Theorems.AcceptanceTiles | scripts/verify_lvx2.py:193-227 | In an accepted file the frames tile it from byte 92 to its end, numbered in order, and packages fill each frame exactly. |
| Lvx2Theorems.RawTimestamps | scripts/verify_lvx2.py:123-139 | Every parsed package's raw time is its 8-byte little-endian time, and it has at most 96 points. |
| Lvx2Theorems.EndChecksAreDead | scripts/verify_lvx2.py:218-227 | The checks that a frame ends at its next offset and that the file ends at a frame boundary can never fail. |
| Lvx2Theorems.LimitedPrefix | scripts/verify_lvx2.py:193-227 | A limited parse of an acceptable file sees exactly the first frames of the unlimited one, for every limit, also zero and negative ones. |
| Lvx2Theorems.LimitedAgrees | scripts/verify_lvx2.py:193-238 | The limited summary keeps the header, counts the prefix only, and is complete exactly when the limit covers all frames. |
| Lvx2Parser.ByteStream.ReadExact | scripts/verify_lvx2.py:83-88 | Returns the next bytes exactly when that many are left. |
| Lvx2Parser.ReadPackage | scripts/verify_lvx2.py:91-139 | The stream reader agrees with the grammar in result and error, and leaves the cursor at the package's end. |
| Lvx2Parser.ReadPackages | scripts/verify_lvx2.py:211-220 | The package loop returns the grammar's counts and its first two packages, or its error. |
| Lvx2Parser.ReadFrame | scripts/verify_lvx2.py:193-221 | One pass of the frame loop agrees with the grammar in offsets, counts, details and error. |
| Lvx2Parser.ReadHeader | scripts/verify_lvx2.py:145-191 | The header reader agrees with the grammar and leaves the cursor at byte 92. |
| Lvx2Parser.ParseLvx2 | scripts/verify_lvx2.py:142-238 | The two nested loops over a moving cursor compute the grammar's result on all bytes and limits, errors included; a result describes, field by field, every document the file shows, and a refusal means it shows none. |
| InstallerModel.ProjectPayload | scripts/build_stage4_run.py:25-57 | Packing succeeds exactly when no listed entry is a link, special file or unsafe name and at least one is a file; a refusal names an offending entry. |
| InstallerModel.SafeNameExactly | scripts/build_stage4_run.py:239-269 | A name is accepted if and only if it is relative, not empty, and none of the parts between its slashes is a parent reference. |
| InstallerModel.ExtractedExactly | scripts/build_stage4_run.py:239-269 | After any successful member loop the tree is what was there plus exactly the archive's names, each once, with frozen digests and their modes. |
| InstallerModel.ExtractionSound | scripts/build_stage4_run.py:239-269 | Extraction of an arbitrary archive yields exactly the frozen key set with matching digests, one member per key, or fails. |
| InstallerModel.PackExtractRoundTrip | scripts/build_stage4_run.py:25-57 | Packing any acceptable directory and extracting the payload reproduces names, contents and modes. |
| InstallerModel.JudgedIsSealed | scripts/build_stage4_run.py:591-606 | A release the installer judges complete has a file table equal to its files and a state naming its manifest. |
| InstallerModel.DriftIsRefused | scripts/build_stage4_run.py:591-606 | No release is complete for two installers that differ in version, commit, option, dependencies or an expected digest. |
| InstallerModel.StampedIsSealed | scripts/build_stage4_run.py:629-635 | Writing manifest and state seals any tree of regular files. |
| InstallerModel.RerunIsComplete | scripts/build_stage4_run.py:591-635 | A sealed tree is judged complete by its own installer if and only if setup left every expected file intact and no expected file carries a bookkeeping name. |
| InstallerModel.InspectAgainstSealed | scripts/stage4_release_state.py:101-122 | A release is sealed with valid manifest content if and only if the reference judgement activates it and it has no unlisted, irregular or bookkeeping-named files and a matching state. |
| InstallerModel.InspectOwnRelease | scripts/stage4_release_state.py:49-83 | The reference judgement activates what a run sealed if and only if setup kept every dependency, the lists are free of duplicates and the table and version are nonempty; otherwise it refuses the release's own manifest with an exception. |
| InstallerBuild.BuiltIsSealed | scripts/build_stage4_run.py:613-636 | Whatever a fresh install builds, under any downloads and setup, is sealed. |
| InstallerBuild.BuiltIsJudgedComplete | scripts/build_stage4_run.py:591-636 | What a run built is judged complete by a rerun if and only if setup kept the expected files and none has a bookkeeping name. |
| InstallerBuild.GatheredExactly | scripts/build_stage4_run.py:552-630 | Before setup the tree holds exactly the project files, the index and the downloads: the payload, every dependency and, with ROS, every ROS dependency, each arrived with its own digest and the last to a path in place with its mode; the index lists both lists in order and nothing else. |
| InstallerBuild.FetchedExactly | scripts/build_stage4_run.py:613-626 | The downloads succeed if and only if each arrives with its digest; then the last one to each path is in place with its mode, and no other path changed. |
| InstallerBuild.BuiltAttests | scripts/build_stage4_run.py:553-635 | What a fresh install builds names version, commit, option, payload digest, and in order exactly the dependencies, with the ROS ones if and only if ROS was chosen, in its manifest and again in its state. |
| InstallerBuild.JudgedExactly | scripts/build_stage4_run.py:591-609 | A release is judged complete if and only if it is sealed, attests this installer and option entry by entry, and its manifest gives every wanted path the digest of the project file or else of the last download to it. |
| InstallerBuild.SetupIsVerified | scripts/build_stage4_run.py:463-489 | The setup program runs only as an embedded file with its frozen digest, on the gathered tree, and everything it leaves is in the release unchanged but for manifest and state. |
| InstallerWitnesses.BookkeepingNameBreaksRerun | scripts/build_stage4_run.py:279-293 | The failing family is inhabited by an installer that the packer makes: with manifest.json as its only project file it completes its build under any downloads and setup, and every rerun refuses the release. |
| InstallerWitnesses.RemovedDependencyIsRefused | scripts/stage4_release_state.py:49-83 | An installer that the packer makes, with one dependency that its setup consumes, completes and seals a release whose own manifest the reference judgement refuses with an exception. |
| InstallerRun.InstallRoot.ExtractProjectPayload | scripts/build_stage4_run.py:239-269 | Member by member on disk: success leaves exactly the extracted tree, and without file errors it succeeds exactly when extraction is admissible. |
| InstallerRun.InstallRoot.FetchDownloads | scripts/build_stage4_run.py:220-237 | Success places every download with its frozen digest; a differing digest or missing content fails. |
| InstallerRun.InstallRoot.FillStaging | scripts/build_stage4_run.py:613-630 | Success leaves exactly the built tree in this run's staging directory and touches nothing else. |
| InstallerRun.InstallRoot.SetUpAndSeal | scripts/build_stage4_run.py:629-635 | Setup's tree is sealed in staging, exactly when setup succeeds and left only regular files. |
| InstallerRun.InstallRoot.ReplaceRelease | scripts/build_stage4_run.py:636 | The rename either happens as one step or not at all. |
| InstallerRun.InstallRoot.CurrentTarget | scripts/build_stage4_run.py:491-501 | The link is swapped atomically or stays, on success after a recorded disk with the temporary link; without file errors it fails exactly when a stale temporary link of this process exists, and then changes nothing. |
| InstallerRun.InstallRoot.InstallFresh | scripts/build_stage4_run.py:611-642 | A fresh install publishes exactly the built tree or nothing, and cleans its staging directory when file operations work. |
| InstallerRun.InstallRoot.RunInstaller | scripts/build_stage4_run.py:528-642 | Every recorded disk state of a run is safe; an existing release is never rebuilt and is activated exactly when judged complete; a fresh install publishes exactly the built tree; without file errors the final disk is exactly specified; on success the temporary link was there one operation earlier. |
| InstallerRun.TableOf | scripts/build_stage4_run.py:279-293 | The file loop computes the table of regular files and refuses exactly when something else is present. |
| InstallerRun.SafeTransitive | scripts/build_stage4_run.py:528-642 | Safety carries over from one run to the next. |
| InstallerRun.RunMany | scripts/build_stage4_run.py:528-642 | Any number of installers run on one root, each with any options, file errors, downloads and setup: each launch begins on the disk the one before left, is left on its last disk or on the recorded one it is stopped at, ends without file errors exactly where specified, and between any two points old releases are unchanged, new ones complete, and current unchanged or at a complete release. |
| InstallerRun.RerunAfterRename | scripts/build_stage4_run.py:591-609 | After a crash past the rename a rerun changes no release or staging directory, and activates if and only if the rerun condition holds and its temporary link name is free. |
| InstallerWitnesses.StaleLinkBlocksRerun | scripts/build_stage4_run.py:491-501 | A run stopped one operation before its end leaves its temporary link; a rerun with the same process number then finds a complete release and still fails without changing the disk, and one with another number activates it. |
| OutputSchedule.CountedIsDue | scripts/verify_ecal_roundtrip.py:636-656 | Message j is among those counted at an instant exactly when its due instant has come. |
| OutputSchedule.StampIsNearest | scripts/ecal_roundtrip_peer.py:151-153 | A message's stamp is its number times the period in nanoseconds, rounded to the nearest, ties to even. |
| OutputSchedule.PublishDue | scripts/verify_ecal_roundtrip.py:638-656 | The inner loop publishes exactly the due messages not yet published, numbered consecutively. |
| OutputSchedule.OnePass | scripts/verify_ecal_roundtrip.py:632-661 | One pass over all channels meets the schedule's state after one more clock reading. |
| OutputSchedule.RunOutputSchedule | scripts/verify_ecal_roundtrip.py:589-661 | The loop reads the clock up to the first reading not before the end, and every channel's messages are those of the schedule. |
| OutputSchedule.PublishedExactlyWhatIsDue | scripts/verify_ecal_roundtrip.py:589-661 | For any nondecreasing clock and any rates: message j is published exactly if start + j / rate is not after the last reading, numbered j + 1, stamped with the nearest nanosecond (ties to even) of (j + 1) / rate, at the first reading not before that instant. |
| OutputSchedule.NoDrift | scripts/verify_ecal_roundtrip.py:658-661 | If the loop wakes at most slack after each sleep target, every message is at most slack late, however many were sent. |
| WheelDelivery.SummarizeWheelLogDelivery | scripts/verify_ecal_roundtrip.py:1290-1381 | The two table loops and the comparison compute the specified verdict, first error included. |
| WheelDelivery.PeerTableExactly | scripts/verify_ecal_roundtrip.py:1313-1331 | The peer's table is built exactly when all events are in the window, typed, with a digest, at distinct times, and then lists them. |
| WheelDelivery.LogTableExactly | scripts/verify_ecal_roundtrip.py:1333-1353 | The log's table is built exactly when all wheel records of the window are published, typed, decode to their own time, at distinct times, and then lists them. |
| WheelDelivery.SummaryExactly | scripts/verify_ecal_roundtrip.py:1290-1381 | Delivery evidence is returned if and only if both sides are good and list the same times with the same payload digests, and then all three counts are equal. |
| DeliveryFacts.DeliveryCases | scripts/verify_ecal_roundtrip.py:1290-1381 | The summary with all comparisons written out: the first event not after the start, past the end, mistyped, repeated or without digest; the first flawed record after the start and up to the end; a frame missing, unexpected or different; and otherwise the number of events three times. |
| DeliveryFacts.PeerTableByFlaws | scripts/verify_ecal_roundtrip.py:1313-1331 | The peer's table exists if and only if no event has a flaw, the window being open at its start and closed at its end; otherwise the error is the first flawed event's. |
| DeliveryFacts.LogTableByFlaws | scripts/verify_ecal_roundtrip.py:1333-1353 | Records of other topics, at or before the start or past the end are left out; of the others the first flawed one gives the error, and without one each time has its payload's digest. |
| DrainFence.WheelDrainFenceGate.PhysicsStepDue | scripts/ecal_simulation_runtime.py:327-336 | A step is due until one frame past the window is out, then only once the next marker releases the gate. |
| DrainFence.WheelDrainFenceGate.ObserveWheelStates | scripts/ecal_simulation_runtime.py:338-356 | Notes the one frame past the window and refuses a second one before release, without change. |
| DrainFence.OneFramePastTheWindow | scripts/ecal_simulation_runtime.py:311-356 | For every marker schedule and any frames of at most one wheel state per step, the gate never raises and exactly one frame past the window goes out before release. |
| DrainFence.WaitForOutputFence | scripts/ecal_roundtrip_peer.py:313-341 | Returns the least time past the boundary of the first look that shows one, or a timeout at the first look at or past the deadline that shows none; a fence is returned if and only if some look shows one with no earlier look at or past the deadline. |
| DrainFence.WaitAfterDrain | scripts/ecal_roundtrip_peer.py:313-341 | Runtime and peer together: once the drain has let its frame past the window out and a look shows it before the deadline, the wait returns a fence. |
| DrainFence.EventsInSimWindow | scripts/ecal_roundtrip_peer.py:288-310 | Selects exactly the events with start < time <= end, each as often as it was received and in order, and refuses exactly a window or a time that is no increasing uint64. |
| DrainFence.NothingAfterTheFence | scripts/ecal_roundtrip_peer.py:313-341 | Frames published in time order: once a frame past the window has arrived, no frame of the window follows. |
| DrainFence.DeliveredExactly | scripts/verify_ecal_roundtrip.py:1290-1381 | The delivery summary succeeds if and only if every logged frame of the window is among those delivered. |
| DrainFence.FenceIsSound | scripts/ecal_roundtrip_peer.py:288-341 | Once any frame past the window has been delivered, selection and log agree and the summary returns equal logged, peer and match counts. |
| DrainFence.MeasureWheelWindow | scripts/ecal_roundtrip_peer.py:629-647 | Waiting and then selecting: whenever the wait returns a fence on a look that shows a delivered prefix, the selection exists and the delivery summary succeeds on it against any log of the frames. |
| MotionTracker.NormalLoadMotionTracker.ObserveStep | scripts/ecal_simulation_runtime.py:165-212 | The running fields stay those of the observed samples; a decision time that moves back is refused with no change. |
| MotionTracker.NormalLoadMotionTracker.Finish | scripts/ecal_simulation_runtime.py:214-287 | The report is the specified function of the whole window's observations, refused exactly when a clock moved backwards. |
| MotionTracker.ActiveWallBounds | scripts/ecal_simulation_runtime.py:165-212 | Control wall time is at most the window, and all of it from the first decision if every decision was active. |
| MotionTracker.PathBounds | scripts/ecal_simulation_runtime.py:165-212 | For every norm, path is at least displacement, controlled path lies between controlled displacement and path, and controlled maximum speed is at most the overall one. |
| MotionTracker.SumNormIsNorm | scripts/ecal_simulation_runtime.py:71-76 | The requirement that the path bounds place on the length of a vector can be met. |
| MotionTracker.ReportBounds | scripts/ecal_simulation_runtime.py:214-287 | The report's counts, walls, paths and speeds are ordered as their meaning demands. |
| MotionFacts.ReportMeans | scripts/ecal_simulation_runtime.py:114-287 | Each of the nineteen fields of a report in terms of the samples: sums of leg lengths and of active decision intervals, sizes of the sets of active, steered and touching samples, and the fastest of them. |
| MotionFacts.GatesHold | scripts/verify_ecal_roundtrip.py:1747-1828 | Any report that passes the consistency gates has ordered counts and bounded walls, paths and ratios, within the gates' slack. |
| MotionTracker.GatesCannotFail | scripts/verify_ecal_roundtrip.py:1747-1828 | No gate that compares fields of one report can fail on a report of the tracker. |
| EventGaps.MaximumEventGap | scripts/verify_ecal_roundtrip.py:306-325 | Infinite exactly for an empty window, an event outside it, or events out of order; otherwise the largest neighbouring difference with both ends included. |
| EventGaps.GapIsLongestSilence | scripts/verify_ecal_roundtrip.py:306-325 | The gap is at most g if and only if every stretch of the window longer than g holds an event strictly inside. |
| Sbus.OrDisjoint | references/mower_base.cpp:208-223 | Bitwise or of numbers without a common bit is their sum. |
| Sbus.TwoIsSum | references/mower_base.cpp:208-223 | The shift-or-mask expression over two bytes is their weighted sum modulo 2048. |
| Sbus.ThreeIsSum | references/mower_base.cpp:210-222 | The shift-or-mask expression over three bytes is their weighted sum modulo 2048. |
| Sbus.ChannelIsBits | references/mower_base.cpp:205-225 | For all payloads, channel k is bits 11k to 11k + 10 of the 176-bit little-endian number. |
| Sbus.DecodeIsDigits | references/mower_base.cpp:205-225 | The sixteen channels are the base-2048 digits of the payload. |
| Sbus.DecodeOfPack | references/mower_base.cpp:205-225 | Any sixteen values below 2048 survive packing and decoding. |
| Sbus.PackOfDecode | references/mower_base.cpp:205-225 | Packing the decoded channels restores every payload. |
| MowerBase.MapWithin | references/mower_base.cpp:259-268 | The clamped linear map stays in its range in either orientation and meets both ends. |
| MowerBase.StickEnds | references/mower_base.cpp:338-349 | Full and centred sticks give full speed, mirrored turn, one steering step either way, and rest. |
| MowerBase.SlewNeverActs | references/mower_base.cpp:401-405 | The steering slew compares the angle with the target it was just set to, so after any run outside manual control two passes can take the steering from any allowed angle to any other. |
| MowerBase.MowerBase.ReceiveSerial | references/mower_base.cpp:200-227 | Only a 25-byte read with the frame header changes the channels, all sixteen at once. |
| MowerBase.MowerBase.NavChassisCmdCallback | references/mower_base.cpp:174-180 | Stores the command and restarts its watchdog, touching nothing else. |
| MowerBase.MowerBase.Tick | references/mower_base.cpp:338-424 | One pass of the loop: manual steering, both watchdogs, arbitration, and the reported mode. |
| MowerBase.WatchdogsCountTicks | references/mower_base.cpp:384-395 | Over every event sequence: remote control is on exactly for ticks 0 to 49 after the manual switch, navigation exactly for 10 ticks after its command, and the held command is the last one. |
| MowerBase.TickObeysFreshest | references/mower_base.cpp:396-416 | After every tick outside manual control the base follows the last fresh navigation command, clamped, or stands still with its steering unchanged. |
| MowerBase.ManualTickObeysSticks | references/mower_base.cpp:338-397 | Over every event sequence: a tick that sees the manual switch sets speed, turn and steering to the linear stick readings, at every reading; later ticks under manual control leave all three as they were. |
| MowerBase.ChannelsAreLastFrame | references/mower_base.cpp:200-227 | In every run the channels are those of the last read of 25 bytes that begins with the header, and zero before the first. |
| MowerBase.RunsStayWithinBounds | references/mower_base.cpp:338-416 | In every run the steering angle stays within its bound, and speeds within 1.5 under manual control. |
| WindowLayout.MappingKeepsContainment | scripts/verify_dashboard_manual_drive.py:437-450 | For every positive scale the logical-to-X11 mapping preserves containment, and whenever the inner rectangle has a valid image so has the outer one. |
| WindowLayout.MappingKeepsSeparation | scripts/verify_dashboard_manual_drive.py:437-450 | For every positive scale the mapping preserves the absence of overlap. |
| WindowLayout.WindowMapsToClient | scripts/verify_dashboard_manual_drive.py:437-450 | The window itself maps to the client's corner and within the tolerance of its size. |
| WindowLayout.MappingIsNearest | scripts/verify_dashboard_manual_drive.py:437-450 | Every edge of a mapped rectangle is within half a pixel of its exact place, for every scale. |
| WindowLayout.MappedExactly | scripts/verify_dashboard_manual_drive.py:408-450 | A rectangle is mapped if and only if both sizes of the client agree within the tolerance and the result is not empty, with the right error otherwise. |
| WindowLayout.HalfUpError | scripts/verify_dashboard_manual_drive.py:1439-1441 | Half-up rounding errs by at most a half, and by exactly a half only upwards. |
| WindowLayout.TargetIs | scripts/verify_dashboard_manual_drive.py:1444-1460 | The target width is two fifths of the screen rounded half up, and at least 720 on a screen of 1200 pixels or more. |
| WindowLayout.ValidateWindowLayout | scripts/verify_dashboard_manual_drive.py:1444-1522 | Accepts exactly one pair of windows, the oracle's, reports too narrow a screen exactly when there is none, and otherwise lists each reason exactly when the edges in question differ. |
| WindowLayout.OracleTiles | scripts/verify_dashboard_manual_drive.py:1444-1522 | The accepted pair lies inside the available area, does not overlap, shares its edge, and has widths that add up. |
| WindowLayout.WidthNearTarget | scripts/verify_dashboard_manual_drive.py:1444-1475 | The dashboard's width is within (scale + 1) / 2 of the target if and only if the target is at least half a logical pixel, or the single logical pixel it is raised to does not exceed it by more than that. |
| WindowLayout.WidthFarFromTarget | scripts/verify_dashboard_manual_drive.py:1444-1475 | A violating input that is accepted: ten pixels at scale 43/5 give a dashboard of nine for a target of four. |
| WindowLayout.UnitScale | scripts/verify_dashboard_manual_drive.py:1444-1475 | At scale one the width is the target itself, and wide enough screens are always accepted. |

## Left out

- eCAL transport, Protobuf codecs and UUIDs: messages are typed values, and a decoding failure is a latched fault or an undecodable record.
- `codec.encode` inside the peer's publish is taken to succeed; an exception there would leave the callback with the sequence number already used.
- PyBullet physics, LiDAR scanning, terrain, truth sensors and the safety monitor: the loop receives their verdicts as arbitrary inputs.
- Qt, X11, xdotool, screenshots and the dashboard report's field checks: only the rectangle arithmetic is modelled.
- Downloads, apt, sudo, CMake, ROS and micromamba bootstrap: a download brings arbitrary content or fails, and runtime setup is an arbitrary change of the staging tree or a failure.
- The command link in a user's command directory, the install lock and its contention: a run is modelled from the point where it holds the lock.
- Name, hash and license patterns of the two manifest validators and non-canonical archive paths (one file's path being a prefix of another's): names are canonical relative paths accepted by both.
- JSON shape checks, type checks of Python values and most 64-bit range checks: values are typed; the uint64 checks of the clock and of the event window are kept.
- Floating-point rounding: reals throughout, except the integer rounding of clock deadlines, collection durations and layout pixels.
- Thread interleavings inside one callback: each callback is one atomic step.
- `GolfRouteController` geometry and `recover_pose_node`: arbitrary functions of their inputs, optional for the latter; the segment advance, the time guard and the scaling to the wheel limit are modelled.
- `_latest_pose_speed_m_s` is kept as its square, so no square root is needed; it is compared with the square of the limit.
- The finite-number check on the service's clock reading: every real is finite.
- SimulatorLoop.CollectionWindow.constructor: the first pose pair is taken to be published; a rejection there leaves before the loop.
- SimulatorLoop.CollectionWindow.Run: exceptions from PyBullet, scanning, the acceptance monitor and the transport's idle wait are not modelled.
- MotionTracker.GatesCannotFail: covers the gates that relate fields of one report to each other; threshold gates (minimum distance, speed and coverage, absence of contact) depend on the drive, and the gate that ties simulated duration to the step count depends on the physics clock, so neither follows from the tracker.
- MotionTracker.PathBounds: stated for any norm with the triangle inequality instead of `math.hypot`.
- DrainFence.MeasureWheelWindow: only the wheel topic is fenced in the code, so only the wheel topic is covered; that frames are logged and delivered in time order is an assumption.
- DrainFence.OneFramePastTheWindow: needs at most one wheel state per physics step, which `SimulatorLoop.PublishCadence.Advance` gives for 240 Hz.
- LockstepTheorems.SchedulesEnd: every schedule that exhausts the channels serves the simulator; that the transport eventually delivers and that both happen within the timeouts is not part of the model.
- Lockstep.MoveSound: the channels are lossless towards the peer; loss is modelled only as a refused or raised publish of a command, or a command the receiver refuses.
- Lvx2Theorems.RoundTrip: float32 fields are their raw four bytes; serials with trailing zero bytes are not canonical, and `Lvx2Document.FieldRoundTrip` says what is lost.
- OutputSchedule.RunOutputSchedule: clock readings are given; sleeping only appears as the recorded target, and per-message publish times are those of the pass.
- `_run_command_schedule` and the command schedule of the resource check: the same loop shape as the output schedule.
- WheelDelivery.SummarizeWheelLogDelivery: error texts with their first five timestamps are reduced to the kind of error.
- The RTK log chain, the inter-arrival summaries, the snapshot deltas and `_measurement_log_events`: selections and subtractions that would only add easy members.
- Data races of the mower base: the serial thread writes the remote channels while the main loop reads them without a lock; each read and each pass is one atomic step here.
- Pose integration, noise, dynamic obstacles and keyboard handling of the mower base: drawing and display code.
- Marker-file handshakes between the processes and process supervision.
