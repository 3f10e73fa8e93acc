# Verified model of the Ioniq 5 E-CAN bridge

The bridge takes two stock ECUs of a car out of service, the front camera and the front radar, sends the
steering and cruise frames in their place, and gives the bus back. This project models the parts of it in
which a mistake reaches the car and proves what they promise.

| files | subject |
|---|---|
| `EcuLedger`, `EcuSchedule`, `EcuSections`, `EcuAnswers`, `EcuObject`, `ControlLoop`, `ControlTable`, `ControlInvariant`, `ControlRuns`, `RecoveryCompletes`, `Engagement`, `UnnoticedDebt` | who owns the ECUs: takeover, restoration, rearming, over every interleaving of the threads' steps, at the granularity named below |
| `RecoveryRetry` | the backoff between restoration attempts |
| `HealthEpoch` | the health sample that two threads share |
| `Supervisor`, `SupervisorObject`, `SupervisorTable`, `SupervisorRuns` | the decision whether a channel may actuate |
| `PandaFraming`, `FramingLaws` | the Panda USB packet stream, both decoders |
| `BitCodec`, `SignalDecoder`, `BitLaws` | Intel and Motorola signal packing, both decoders |
| `Crc`, `CrcStrength`, `CrcBursts`, `CrcDistance`, `CrcLaws` | the Hyundai CAN FD checksum and what it detects |
| `SccLayout`, `SccCodec`, `SccLaws` | the frames the host builds, on a stock template |
| `Torque`, `TorqueLaws` | saturation, driver limit, slew and steering-request duty cycle |
| `Arithmetic` | what several of them share |

`dafny verify dfyconfig.toml` checks everything.

## How to read it

**Renderings.** Code of the repository that changes an object step by step is a class here, with early
returns and in-place updates in the source's order. Each such method is proved equal to a function, and the
promises are proved of the functions. A slip in one of the two breaks the equality; a slip in both alike, or in a
helper that both use, does not. Therefore every operation is stated once more over its raw inputs, with every
constant written out and without those helpers: the supervisor as a decision table (`SupervisorTable`), takeover
and restoration by the answers they need and the log they write (`EcuAnswers`), the loop step by step
(`ControlTable`), the adapter number by number (`TorqueLaws`), packets, signals, checksum and frames byte by byte
(`FramingLaws`, `BitLaws`, `CrcLaws`, `SccLaws`). The theorems over whole runs are stated over the entries of the
log and the fields of the samples.

**The ownership protocol.** `EcuLedger` records the process as a log of what it does to the car: calls that
returned, frames that were handed to the bus whether or not the call then threw, and what was observed. It
defines which logs are lawful: a host frame only while its stock sender is silenced, in vehicle mode and with the
published permissions that its kind needs, a silencing only out of a session just opened, from a moving snapshot
only by license, communication re-enabled only in a session just opened, a takeover only after a handshake of its
own with every ECU it needs and the switch to mode 28, a recovery only with no known debt and NO_OUTPUT
(mode 19) commanded and read back, an attempt after a failure only when it was found due, a press only on an
inhibited node. An entry carries the raw facts that its law is about, such as speed and standstill of the
snapshot. `EcuSections` gives every section that runs under `actuation_mutex_`, with each Panda or UDS call free to fail
and each wait free to see any number of stock frames. `ControlLoop` interleaves the phases of the control thread
with the receive thread, the raw-transmit callback and the arm service. One step is one mutex section with the
`request_internal_disarm` that follows it; the arm service is one step, and so is the unlocked button and
automatic-arming block (`src/node.cpp:529-551`). The decision step calls the supervisor model itself, not an
abstraction of it. `ControlInvariant` proves the log of every run lawful, the flags in agreement with the log,
and which flags may stand together in which phase; `ControlRuns` draws the whole-run theorems from that.
`RecoveryCompletes` leads every pending recovery and every operator's off to its end, and `Engagement` leads
every reachable state to a steering frame, where the configuration allows any: neither way is ever locked for
good.

**What turned out otherwise.**
- *A debt can go unnoticed.* The flag of an ECU is set after its silencing request was sent
  (`src/node.cpp:1078-1080`), and a send throws on every nonzero libusb status, also when the frame went out
  (`src/panda_usb.cpp:335-354`). `UnnoticedDebt.DebtCanGoUnnoticed` is a run that ends in a reported recovery
  with the camera silenced and never asked to resume. `ControlRuns.FlagTellsDebtExactly` says exactly when
  flag and debt agree; what the flags themselves promise (`ControlRuns.NoEcuForgotten`) holds in every run.
- *A large torque demand can saturate the wrong way.* The 32-bit cast comes before the clamp
  (`src/command_adapter.cpp:147-148`, `230`). `Torque.SaturationCanFlip` gives an input of the update and
  `Torque.SaturationIsRight` the exact condition.
- *The epoch check of the receive thread alone does not keep an old health sample out.*
  `HealthEpoch.StaleStoreExactlyInRuns` says exactly when it fails, `HealthEpoch.EpochCheckAloneIsNotEnough`
  that it can at every transition that stores nothing of its own, and `HealthEpoch.StaleHealthExcluded` that
  it cannot after one that does.
- *Longitudinal control can be selected alone by the brake.* `SupervisorRuns.CombinedExactly` says for which
  configurations.
- *The steering request can lose its cuts.* The sum of the two frame counts is a 32-bit one
  (`src/command_adapter.cpp:277`). `Torque.ExactlyCutPerWindow` says that the duty cycle holds exactly when it
  does not wrap. The node's own parameters, which are `int`, cannot make it wrap.

## Model

| member | source | states |
|---|---|---|
| `EcuObject.EcuOwner.RequestInternalDisarm` | src/node.cpp:752-764 | the in-place disarm is the section of the protocol: licenses and arm request dropped, recovery pending, inhibition only for an armed session that asks for it |
| `EcuObject.EcuOwner.ArmService` | src/node.cpp:389-413 | the service call with both rejections; a rejected call changes nothing |
| `EcuObject.EcuOwner.DisableEcu` | src/node.cpp:1072-1101 | session, silence, flag, tester present, quiet watch, in this order, for every point of failure; a silencing request may go out and throw, and then the flag stays down |
| `EcuObject.EcuOwner.EnterVehicleSafetyMode` | src/node.cpp:766-838 | the takeover with every check and every point of failure; the mode flag is the last write |
| `EcuObject.EcuOwner.SwitchToVehicleMode` | src/node.cpp:808-838 | template, mode, readiness, probe frame, read-back, flag |
| `EcuObject.EcuOwner.RestoreEcu` | src/node.cpp:1103-1127 | live stock frames settle the debt only after an earlier failure; otherwise three diagnostic requests and the flag stays |
| `EcuObject.EcuOwner.ConfirmEcuRestored` | src/node.cpp:1129-1150 | only new stock frames clear the flag |
| `EcuObject.EcuOwner.EnterNoOutputMode` | src/node.cpp:840-942 | errors are recorded and the section goes on; success and failure leave exactly the modelled flags |
| `EcuObject.EcuOwner.ConfirmNoOutput` | src/node.cpp:908-929 | standby profile, the pass through profile 0, read-back |
| `EcuObject.EcuOwner.CheckRetry` | src/node.cpp:944-952 | an attempt follows only when pending, disarmed, out of vehicle mode, connected and due |
| `EcuObject.EcuOwner.RawCanTx` | src/node.cpp:342-387 | a raw frame leaves only with the matching permission in vehicle mode |
| `EcuObject.EcuOwner.Connect` | src/node.cpp:428-441 | reconnection ends vehicle mode and, with an ECU still flagged, disarms |
| `EcuObject.EcuOwner.Disconnect` | src/node.cpp:459-468 | the receive error path: vehicle mode over, disarmed, recovery pending |
| `EcuAnswers.DisarmExactly` | src/node.cpp:752-764 | every flag after an internal disarm, over the flags before |
| `EcuAnswers.ServiceExactly` | src/node.cpp:389-413 | every flag after a service call, refused or not |
| `EcuAnswers.DisableExactly` | src/node.cpp:1072-1101 | for every combination of answers: how far silencing an ECU gets, the exact log, and the flag that goes up with a silencing that returns, whatever fails after it |
| `EcuAnswers.TakeoverRefusedExactly` | src/node.cpp:766-796 | if and only if, over the fields of vehicle, flags and answers: a takeover leaves node and car alone when a recovery is pending, the vehicle is invalid or its EPS faulted, it does not stand still or is faster than 0.5 km/h without resume mode and license, the gear is not D or the template missing in longitudinal mode, or the first heartbeat fails |
| `EcuAnswers.TakeoverExactly` | src/node.cpp:766-838 | if and only if: a takeover succeeds when nothing refuses it and every answer is given; it has then written exactly this log and silenced exactly the ECUs that its mode needs |
| `EcuAnswers.RestorationSucceedsExactly` | src/node.cpp:840-942 | if and only if: a restoration from any state succeeds when every answer that the flags, the failures so far and the profile ask for is given |
| `EcuAnswers.RestorationFlags` | src/node.cpp:840-942 | mode flag, template, pending recovery and inhibition after a restoration, by success and failure |
| `EcuAnswers.FirstRestorationWrites` | src/node.cpp:840-929 | the exact log of a first successful restoration with both ECUs flagged: radar before camera, both asked before either is declared restored, then NO_OUTPUT with its profile |
| `EcuLedger.LawfulAt` | src/node.cpp:752-942 | every prefix of a lawful log is lawful and every entry was lawful when it was written |
| `EcuLedger.DebtConservation` | src/node.cpp:1072-1150 | conservation: silencings of an ECU that returned equal observed resumptions plus the one still flagged |
| `EcuLedger.KnownDebts` | src/node.cpp:1078-1080 | if and only if: an owed ECU is unflagged exactly when a silencing request went out, threw, and no later one returned |
| `EcuLedger.StandingMeans` | src/node.cpp:389-413 | what inhibits arming, read off the log: the last service call switched off, or a fault stands with no service call and no press since |
| `EcuLedger.SilentMeans` | src/node.cpp:1072-1101 | silent spelled out: session, silencing, tester present and quiet watch in a row, with no takeover and no resumption since |
| `EcuSchedule.AttemptWaited` | src/node.cpp:944-952 | after a failure, no attempt starts before one was found due for it, having waited for the backoff |
| `EcuSchedule.OutageSpans` | include/ioniq5_ecan/recovery_retry.hpp:32-38 | on a monotone clock the next attempt of an outage with n failures lies the sum of n delays behind the first failure |
| `EcuSchedule.ScheduledByLastFailure` | include/ioniq5_ecan/recovery_retry.hpp:32-38 | the last failure in the log fixes the next attempt, by the backoff of the failures since the last recovery |
| `EcuLedger.GapLicenseMeans` | src/node.cpp:613-619 | the gap license spelled out as an event in the past that nothing has withdrawn |
| `EcuLedger.PressLicenseMeans` | src/node.cpp:533-541 | the press license spelled out as an unused press on a node inhibited by a fault, which nothing has withdrawn |
| `EcuLedger.FlaggedMeans` | src/node.cpp:1072-1150 | flagged spelled out: a silencing that returned, with no resumption since |
| `EcuLedger.FlagsMean` | src/node.cpp:752-838 | vehicle mode, a pending recovery, the arm request and a preserved session, each spelled out as an event in the past that nothing has withdrawn |
| `EcuLedger.IterationsMean` | src/node.cpp:478-750 | the count of iterations since the last service call is the number of recorded decisions after it |
| `EcuSections.DisarmKeeps` | src/node.cpp:752-764 | an internal disarm makes any ledger with debts sound again |
| `EcuSections.DisableEcuKeeps` | src/node.cpp:1072-1101 | however it ends, only this ECU's flag and line may differ; after success it is flagged and was seen quiet |
| `EcuSections.EnterVehicleModeKeeps` | src/node.cpp:766-838 | success takes ownership soundly; failure raises no mode flag and leaves a lawful ledger |
| `EcuSections.EnterNoOutputKeeps` | src/node.cpp:840-942 | from any ledger: vehicle mode over, sound, recovery cleared exactly on success, which has both flags down, each cleared by new stock frames, and NO_OUTPUT read back just before; failure inhibits rearming |
| `EcuSections.BothAskedBeforeEitherConfirmed` | src/node.cpp:840-942 | the first attempt of an outage puts all three requests of every flagged ECU in the log or fails, and declares none restored before both were asked |
| `ControlInvariant.NextKeeps` | src/node.cpp:415-750 | every step of every thread keeps ledger, ownership, memory of debts and supervisor consistency, the agreement of decision, record and permissions with the log, the order of flags and phases, and the winding up of an operator's off within one iteration |
| `ControlInvariant.AlwaysInvariant` | src/node.cpp:415-764 | every reachable state satisfies the invariant, whatever the outside answers |
| `ControlInvariant.NextGrows` | src/node.cpp:415-960 | no step takes anything back from the log |
| `ControlTable.InitialExactly` | src/node.cpp:478-486 | every flag and counter of a node that has just started |
| `ControlTable.CheckExactly` | src/node.cpp:944-960 | when an attempt is found due, over flags and times, and where the loop goes on |
| `ControlTable.RestoreExactly` | src/node.cpp:580-593 | where a retry and the restoration of a disarm request lead, by success and failure |
| `ControlTable.RestoreRecordsExactly` | src/node.cpp:616-688 | what the restorations of a gap and of a clean-up add and record |
| `ControlTable.SampleExactly` | src/node.cpp:515-551 | every flag after press and automatic arming, and the counters taken over |
| `ControlTable.RequestExactly` | src/node.cpp:553-598 | which arm requests are applied or refused, and which of listener, takeover, retry and restoration follows |
| `ControlTable.ListenExactly` | src/node.cpp:560-593 | the switch to the listener and the abort when it or the health read fails |
| `ControlTable.TakeOverLoopExactly` | src/node.cpp:574-667 | what the loop does with either takeover, by success and failure, and which of them may resume while moving |
| `ControlTable.DecideExactly` | src/node.cpp:600-612 | the supervisor's update is the decision; a deselected longitudinal permission of Panda is dropped |
| `ControlTable.GapExactly` | src/node.cpp:613-635 | what is noted of a decision, when it ends in a command gap, and whether that qualifies |
| `ControlTable.ChooseExactly` | src/node.cpp:637-669 | exactly when a takeover is chosen, may move, and when a clean-up is |
| `ControlTable.CleanExactly` | src/node.cpp:669-690 | what the clean-up withdraws, and when it owes a rearm |
| `ControlTable.AdaptExactly` | src/node.cpp:690-706 | which permissions are published, and that an unrepresentable output withdraws them |
| `ControlTable.LinkExactly` | src/node.cpp:415-476 | what a reconnection, a receive error and a lost link change |
| `ControlRuns.SingleOwner` | src/node.cpp:362-382 | every host LFA frame was sent with the camera silenced and not resumed, every SCC frame with the radar so, raw transmission and probe included; the lost-template exception is unreachable |
| `ControlRuns.NoEcuForgotten` | src/node.cpp:840-942 | a flag says exactly whether a silencing that returned is unpaid, and a flagged ECU is owed and always has vehicle mode or a pending recovery |
| `ControlRuns.FlagTellsDebtExactly` | src/node.cpp:1078-1080 | if and only if, in every run: the flag agrees with what the car is owed unless a silencing request went out and threw and no later one returned |
| `UnnoticedDebt.DebtCanGoUnnoticed` | src/node.cpp:1078-1080 | a run that ends in a reported recovery with the camera owed, unflagged and never asked to resume |
| `ControlRuns.RecoveryIsComplete` | src/node.cpp:908-942 | a recovery is reported only with both flags down, right after mode 19 was commanded and read back, with the required parameter for a preserved session or in resume mode without an operator's off, otherwise 0, and through profile 0 where that parameter is new; a debt that then remains is an unnoticed one; debts are settled by new frames only |
| `ControlRuns.RestorationAsksInRuns` | src/node.cpp:840-942 | in every run, whichever phase restores first: both flagged ECUs are asked before either is declared restored, or the attempt fails |
| `ControlRuns.FailedOutageOnlyRetries` | src/node.cpp:553-597 | in every run, once an outage has seen a failure only the retry path restores, disarmed and out of vehicle mode; no request, gap or clean-up restores sooner |
| `ControlRuns.AttemptsAreSpaced` | src/node.cpp:944-960 | in every run, every attempt after n failures of its outage was found due for itself, not before min(2^(n-1), 30) s after the last one |
| `ControlRuns.OutageIsSpaced` | src/node.cpp:840-960 | in every run with a monotone clock, n failures of one outage span at least the sum of the first n - 1 delays |
| `RecoveryCompletes.RecoveryCanComplete` | src/node.cpp:840-960 | from every reachable state with a pending recovery, or in vehicle mode without an arm request, at most 24 steps of the control thread, after a reconnection where the link is down, lead out of vehicle mode to a reported recovery at any time that is not before the scheduled one |
| `RecoveryCompletes.OffCanComplete` | src/node.cpp:580-586 | from every reachable state in vehicle mode, an operator's off and at most 24 such steps lead out of vehicle mode to a reported recovery |
| `Engagement.CanAlwaysEngage` | src/node.cpp:478-750 | from every reachable state at most 89 steps of the control thread, the arm service and a reconnection lead, through settling, listening, takeover and activation, to an LFA frame sent with permission in vehicle mode |
| `Engagement.EngagementExactly` | src/node.cpp:478-750 | if and only if: from a reachable state a lateral permission can be reached when actuation is allowed and neither timeout is negative |
| `ControlRuns.OnlyRestorationClears` | src/node.cpp:840-942 | no other step of any thread clears a pending recovery |
| `ControlRuns.TakeoverHandshake` | src/node.cpp:797-835 | every completed takeover has a handshake of its own with every ECU it needs: the four actions in a row, no other takeover and no resumption since, nothing outstanding; it directly follows the switch to mode 28 with the required parameter, with the probe frame in between in longitudinal mode |
| `ControlRuns.ModesAreOrdered` | src/node.cpp:797-929 | in every run, Panda is switched to mode 28 only over silenced ECUs with nothing outstanding, to mode 3 only for a takeover or a restoration, to mode 19 only with profile 0 or the required one, and to nothing else |
| `ControlRuns.SilencingNeedsSession` | src/node.cpp:1072-1080 | an ECU is silenced only right after its session was opened, with nothing outstanding, and not while it is flagged; in resume mode only after a decision that stands armed with a channel selected and a fresh enabled command |
| `ControlRuns.MovingTakeoverIsLicensed` | src/node.cpp:776-781 | an ECU silenced on a snapshot that does not stand still or is faster than 0.5 km/h has in its past a qualified gap, or a physical press on a node inhibited by a fault, that nothing has withdrawn |
| `ControlRuns.ControlFramesNeedOwnership` | src/node.cpp:706-733 | in every run, a control frame is sent only in vehicle mode, and only the four addresses, 0x1A0 and 0x160 in longitudinal mode only; none is sent after an operator's off and the end of the iteration that was going on |
| `ControlRuns.RawFramesNeedPermission` | src/node.cpp:342-387 | in every run, a raw frame is sent only where configured, in vehicle mode, with the longitudinal permission published last and for 0x12A the lateral one too, and not after an operator's off and the iteration that applies it |
| `ControlRuns.RawFrameExactly` | src/node.cpp:342-387 | exactly when a raw frame leaves, and nothing else happens |
| `ControlRuns.IterationSends` | src/node.cpp:706-736 | exactly the frames of one iteration: LFA always, the cluster frame in every fifth, SCC and FCA in every second of longitudinal mode, in this order, in vehicle mode with the link up and, in resume mode, the session ready; otherwise none |
| `ControlRuns.PressNeedsInhibition` | src/node.cpp:533-541 | in every run, a press is accepted exactly in resume mode, without an arm request, with a fault standing in the log and no operator's off |
| `ControlRuns.AutoArmExactly` | src/node.cpp:515-551 | if and only if, in every run: when automatic arming asks, over configuration, log, vehicle, Panda and command |
| `ControlRuns.ServiceAcceptsExactly` | src/node.cpp:389-413 | exactly which service calls are accepted: all but an arming one against the configuration or during a recovery |
| `ControlRuns.RearmNeedsInvitation` | src/node.cpp:529-551 | an inhibited node stays disarmed in every continuation without a new press or an arm call |
| `ControlRuns.InhibitedExactly` | src/node.cpp:389-413 | if and only if, in every run: automatic arming is inhibited when the last service call switched off or a fault stands; the flags of an operator's off, of an owed rearm and of the arm request likewise |
| `ControlRuns.SessionsEndInhibited` | src/node.cpp:752-764 | an arm request is only ever withdrawn by the operator, by the idle clean-up, or together with an inhibition |
| `ControlRuns.DroppedSessionStaysDisarmed` | src/node.cpp:529-551 | in every run, a session that any other step took down stays down until a new press or an arm call |
| `ControlRuns.OperatorOffLasts` | src/node.cpp:389-413 | after `set_armed(false)` nothing but `set_armed(true)` arms, presses included |
| `RecoveryRetryModel.RecoveryRetry.RequestAt` | include/ioniq5_ecan/recovery_retry.hpp:20-26 | a second request of one outage changes nothing |
| `RecoveryRetryModel.RecoveryRetry.FailedAt` | include/ioniq5_ecan/recovery_retry.hpp:32-38 | the in-place update is the specified one |
| `RecoveryRetryModel.RecoveryRetry.IsDue` | include/ioniq5_ecan/recovery_retry.hpp:28 | due exactly when pending and the time has come |
| `RecoveryRetryModel.BackoffDoubles` | include/ioniq5_ecan/recovery_retry.hpp:36-37 | the overflow-free doubling of the source is min(2^n, 30) |
| `RecoveryRetryModel.OutageState` | include/ioniq5_ecan/recovery_retry.hpp:20-38 | whatever calls an outage consists of, the n-th failure fixes the next due time min(2^(n-1), 30) s after itself |
| `RecoveryRetryModel.OutageIsRateLimited` | include/ioniq5_ecan/recovery_retry.hpp:20-38 | attempts made when due span at least the sum of the delays |
| `RecoveryRetryModel.FreshOutageRestarts` | include/ioniq5_ecan/recovery_retry.hpp:20-40 | a new outage starts over at one second |
| `HealthEpoch.InvariantAlways` | src/node.cpp:448-457 | a sample whose epoch still stands was read after the last transition began |
| `HealthEpoch.StaleHealthExcluded` | src/node.cpp:918-925 | once the control thread has stored its sample of a transition, no sample read before that transition is ever stored again |
| `HealthEpoch.StaleStoreExactlyInRuns` | src/node.cpp:448-457 | if and only if: what the receive thread stores was read before the last transition began exactly when its recheck came before it |
| `HealthEpoch.EpochCheckAloneIsNotEnough` | src/node.cpp:448-457 | from every point of every run outside a transition, a transition without a store of its own can leave a sample older than itself |
| `HealthEpoch.OwnSampleCanBeStored` | src/node.cpp:918-925 | from every point of every run outside a transition, the next one can store a sample of its own, before it ends or after |
| `SupervisorObject.SafetySupervisor.RequestArm` | src/safety_supervisor.cpp:26-50 | the class keeps its valid states and computes the specified state |
| `SupervisorObject.SafetySupervisor.SelectChannels` | src/safety_supervisor.cpp:92-126 | buttons or mirrored selection, with the latch |
| `SupervisorObject.SafetySupervisor.ReadPedals` | src/safety_supervisor.cpp:130-146 | what brake and ACC fault take away |
| `SupervisorObject.SafetySupervisor.JudgeHealth` | src/safety_supervisor.cpp:148-179 | faults, and the three readings of a rejected frame |
| `SupervisorObject.SafetySupervisor.Decide` | src/safety_supervisor.cpp:181-231 | the ordered checks as early returns; rows 4 to 12 of the table |
| `SupervisorObject.SafetySupervisor.DecideCommand` | src/safety_supervisor.cpp:233-277 | the command checks as early returns |
| `SupervisorObject.SafetySupervisor.Engage` | src/safety_supervisor.cpp:279-326 | EPS pause, Panda permission, activation |
| `SupervisorObject.SafetySupervisor.Update` | src/safety_supervisor.cpp:52-327 | one update of the object is the specified update, decision included, which `SupervisorTable.UpdateIsTable` gives row by row |
| `SupervisorTable.UpdateIsTable` | src/safety_supervisor.cpp:52-327 | state and decision of every update of a consistent state are those of the first of 28 rows that applies, conditions and numbers over the raw sample |
| `SupervisorTable.ArmSurvivesExactly` | src/safety_supervisor.cpp:52-327 | if and only if: the arm request survives an update when none of the causes holds: stale or faulted Panda, an offending rejection, harness, ignition, vehicle, speed, angle, cancel, mode, command loss, invalid command, session loss, expired pause |
| `SupervisorTable.CancelDisarms` | src/safety_supervisor.cpp:213-216 | a cancel press takes the arm request away whatever else the sample says, where it is configured to |
| `SupervisorTable.RequestExactly` | src/safety_supervisor.cpp:26-50 | every field after an arm request, accepted or not |
| `SupervisorRuns.PermissionExactly` | src/safety_supervisor.cpp:52-327 | if and only if: a decision permits a channel exactly when the flat list of requirements holds of the same inputs |
| `SupervisorRuns.PermissionNeedsSelection` | src/safety_supervisor.cpp:103-110 | in resume mode a permitted channel is one that Panda reports selected in the same sample |
| `SupervisorRuns.AdmitRunsExactly` | src/safety_supervisor.cpp:181-326 | exactly when the check sequence reaches activation or a pause with output |
| `SupervisorRuns.HeartbeatExactly` | src/safety_supervisor.cpp:316-327 | the engaged heartbeat is exactly Active or SoftDisabling |
| `SupervisorRuns.DisarmedStaysDisarmed` | src/safety_supervisor.cpp:26-50 | without an arm request a disarmed supervisor stays disarmed through any run |
| `SupervisorRuns.PermissionNeedsRearm` | src/safety_supervisor.cpp:76-90 | after an update with any of the causes that disarm, a fault or a disarm, every later permission has an arm request in between |
| `SupervisorRuns.ArmedExactly` | src/safety_supervisor.cpp:26-327 | if and only if, over every run: the arm request stands when actuation is configured and it was asked for with neither an off nor one of the causes since |
| `SupervisorRuns.BrakeLatch` | src/safety_supervisor.cpp:97-141 | after a processed brake no decision permits longitudinal until a new SET press with the brake released and no ACC fault that matters in this mode, or a new session |
| `SupervisorRuns.BoundedPause` | src/safety_supervisor.cpp:279-302 | under a lasting EPS fault lateral is never permitted, longitudinal only before t0 + 3 s, and the pause is not re-entered |
| `SupervisorRuns.LateClearGivesNothing` | src/safety_supervisor.cpp:287-292 | a sample at or after the deadline resumes nothing |
| `SupervisorRuns.LongitudinalOnlyWithLateral` | src/safety_supervisor.cpp:111-146 | without resume mode, and unless the brake takes the lateral channel alone and something may actuate, longitudinal is never selected without lateral, over any run |
| `SupervisorRuns.CombinedBreaks` | src/safety_supervisor.cpp:132-141 | in every other configuration, a run selects longitudinal without lateral |
| `SupervisorRuns.CombinedExactly` | src/safety_supervisor.cpp:111-146 | if and only if, without resume mode: over all runs longitudinal comes only with lateral exactly when the brake does not take lateral alone or nothing may actuate |
| `PandaFraming.XorChecksum` | src/panda_protocol.cpp:27-31 | the loop is the XOR of all bytes |
| `PandaFraming.DlcRoundTrip` | src/panda_protocol.cpp:15-25 | a found code has the wanted length |
| `PandaFraming.EveryDlcIsFound` | src/panda_protocol.cpp:15-25 | every code is found from its length |
| `PandaFraming.PackFrames` | src/panda_protocol.cpp:41-63 | the grown output is the concatenation of the packets; it throws exactly on a frame no packet can carry |
| `PandaFraming.Receiver.Unpack` | src/panda_protocol.cpp:65-110 | one call decodes carry and chunk together; a bad packet empties the carry and loses this call's frames |
| `PandaFraming.PacketDecoder.Feed` | scripts/can_logger.py:46-68 | the second decoder records the same frames, keeps the same carry and stops on the same streams |
| `PandaFraming.ParseWire` | src/panda_protocol.cpp:46-107 | parsing a packed frame gives the frame, zero-padded past its size |
| `PandaFraming.WireParse` | src/panda_protocol.cpp:70-107 | a packet with a valid checksum is the packing of the frame it parses to |
| `PandaFraming.DecodeConcat` | src/panda_protocol.cpp:65-110 | decoding continues where it stopped |
| `PandaFraming.DecodeKeepsBytes` | src/panda_protocol.cpp:65-110 | no byte is lost: a good stream is its frames' packets followed by the carry |
| `PandaFraming.SplittingDoesNotMatter` | src/panda_protocol.cpp:65-110 | for every stream and every cut: same verdict, same frames and carry, and a failing stream delivers exactly the frames completed before the throwing call |
| `PandaFraming.PackedFramesSurviveAnySplitting` | src/panda_protocol.cpp:35-110 | packed frames come back exactly, under any splitting, with an empty carry |
| `FramingLaws.DlcExactly` | src/panda_protocol.cpp:15-25 | if and only if: the sixteen pairs of code and length |
| `FramingLaws.PackableExactly` | src/panda_protocol.cpp:41-51 | if and only if: which buses, addresses and sizes the packer accepts |
| `FramingLaws.PacketExactly` | src/panda_protocol.cpp:46-62 | each byte of the packet of each frame: code, bus and FD bit, the little-endian word of address and extended bit, zero XOR, payload |
| `FramingLaws.FramesArrive` | src/panda_protocol.cpp:35-110 | under any splitting the sent frames arrive in order, each with its address, bus, FD and extended flag, size and payload, without the receiver's flags and with zeros behind |
| `FramingLaws.RecordedExactly` | scripts/can_logger.py:46-68 | the fields of what the capture tool records of the same stream |
| `BitCodec.SetSignal` | include/ioniq5_ecan/bit_codec.hpp:12-44 | throws exactly when the walk leaves the frame; a throwing Motorola write leaves its prefix |
| `BitCodec.GetSignal` | include/ioniq5_ecan/bit_codec.hpp:46-76 | both loops compute the field's value |
| `BitCodec.MotorolaIsNetworkOrder` | include/ioniq5_ecan/bit_codec.hpp:42 | a Motorola step is one place in network order |
| `BitCodec.WrittenBit` | include/ioniq5_ecan/bit_codec.hpp:12-44 | every bit of the frame after any number of steps |
| `BitCodec.GetAfterSet` | include/ioniq5_ecan/bit_codec.hpp:12-76 | round trip: the raw value modulo 2^length |
| `BitCodec.SetAfterGet` | include/ioniq5_ecan/bit_codec.hpp:12-76 | writing back what was read changes nothing |
| `BitCodec.OutsideUnchanged` | include/ioniq5_ecan/bit_codec.hpp:12-44 | bits outside the walk never change, even when the call throws |
| `BitCodec.DisjointFieldsIndependent` | include/ioniq5_ecan/bit_codec.hpp:12-76 | disjoint fields never disturb each other |
| `BitLaws.BitExactly` | include/ioniq5_ecan/bit_codec.hpp:12-76 | a bit of a frame is a binary digit of one of its bytes |
| `BitLaws.FitsExactly` | include/ioniq5_ecan/bit_codec.hpp:12-24 | if and only if: which fields fit a frame |
| `BitLaws.IntelExactly` | include/ioniq5_ecan/bit_codec.hpp:46-76 | a little-endian field is a quotient and a remainder of the frame read as one number, first byte least significant |
| `BitLaws.MotorolaExactly` | include/ioniq5_ecan/bit_codec.hpp:46-76 | a big-endian field is a quotient and a remainder of the frame read as one number, first byte most significant |
| `BitLaws.WriteExactly` | include/ioniq5_ecan/bit_codec.hpp:12-44 | every bit of the frame after a write, fitting or throwing, by its place and the digit of the raw value |
| `SignalDecoder.XorOneBit` | include/ioniq5_ecan/bit_codec.hpp:85-86 | exclusive or with the sign bit adds or subtracts it |
| `SignalDecoder.SignExtend` | include/ioniq5_ecan/bit_codec.hpp:78-87 | flipping and subtracting the sign bit in 64-bit arithmetic takes 2^length off exactly the words whose sign bit is set; invalid lengths throw |
| `SignalDecoder.SignExtendIsTwosComplement` | include/ioniq5_ecan/bit_codec.hpp:78-87 | for a field value that is its two's-complement reading |
| `SignalDecoder.Positions` | scripts/ecan_signal_decoder.py:35-43 | the position list is the walk, most significant bit first |
| `SignalDecoder.ShiftAndMask` | scripts/ecan_signal_decoder.py:48-49 | one shift and one mask of the whole frame read a little-endian field |
| `SignalDecoder.Decode` | scripts/ecan_signal_decoder.py:45-56 | absent exactly when the walk leaves the frame; otherwise the scaled field value |
| `SignalDecoder.DecodersAgree` | scripts/ecan_signal_decoder.py:45-56 | both implementations read the same number from every frame |
| `Crc.CrcStep` | src/hyundai_canfd_codec.cpp:13-19 | the bit loop is eight steps of the shift register |
| `Crc.ComputeChecksum` | src/hyundai_canfd_codec.cpp:42-69 | throws exactly on unsupported sizes; otherwise the checksum over payload, address and size |
| `Crc.ChecksumValid` | src/hyundai_canfd_codec.cpp:71-78 | decides acceptance for every frame |
| `Crc.WriteChecksum` | src/hyundai_canfd_codec.cpp:27-32 | writes the two checksum bytes only |
| `Crc.SealedIsAccepted` | src/hyundai_canfd_codec.cpp:27-78 | a sealed payload is accepted |
| `Crc.StepsInjective` | src/hyundai_canfd_codec.cpp:13-19 | the register never forgets a difference |
| `Crc.AbsorbTwo` | src/hyundai_canfd_codec.cpp:13-19 | two bytes are absorbed as one sixteen-bit word |
| `Crc.ChecksumBytesMatter` | src/hyundai_canfd_codec.cpp:71-78 | a change confined to the checksum bytes is rejected |
| `Crc.AdjacentBytesDetected` | src/hyundai_canfd_codec.cpp:42-78 | any change of one byte or of two adjacent bytes from index 2 on is rejected |
| `Crc.OtherAddressDetected` | src/hyundai_canfd_codec.cpp:50-51 | under another address the same bytes are accepted if and only if the low sixteen address bits agree |
| `CrcLaws.ClearFrames` | src/hyundai_canfd_codec.cpp:42-69 | the checksum of a frame of zeros at address zero, for each of the four sizes |
| `CrcLaws.LfaFrameIsAccepted` | test/test_hyundai_canfd_codec.cpp:33-35 | the complete 16-byte LFA frame of the tests carries its checksum, register by register |
| `CrcLaws.SccFrameIsAccepted` | test/test_hyundai_canfd_codec.cpp:53-57 | the complete 32-byte SCC frame of the tests carries its checksum |
| `CrcStrength.BurstRemainder` | src/hyundai_canfd_codec.cpp:13-19 | the remainder of a shifted sixteen-bit pattern is the shifted register |
| `CrcStrength.BurstDetected` | src/hyundai_canfd_codec.cpp:42-78 | every shifted sixteen-bit pattern in the covered bytes is rejected |
| `CrcBursts.WindowIsBurst` | src/hyundai_canfd_codec.cpp:42-78 | strings that differ only within sixteen consecutive bits from the third byte on differ by such a pattern |
| `CrcBursts.WindowDetected` | src/hyundai_canfd_codec.cpp:42-78 | every burst of at most sixteen bits in the covered bytes is rejected |
| `CrcStrength.StepKeepsParity` | src/hyundai_canfd_codec.cpp:13-19 | the generator has an even number of terms, so a step keeps parity |
| `CrcStrength.AcceptedParity` | src/hyundai_canfd_codec.cpp:42-78 | all accepted frames of one size and address have the same parity |
| `CrcStrength.OddErrorsDetected` | src/hyundai_canfd_codec.cpp:42-78 | every odd number of flipped bits is rejected, checksum bytes included |
| `CrcDistance.PowersDiffer` | src/hyundai_canfd_codec.cpp:13-19 | the powers of x that one frame can produce are all different |
| `CrcDistance.TwoFlips` | src/hyundai_canfd_codec.cpp:13-19 | an error of two bits leaves the sum of two such powers |
| `CrcDistance.FewErrorsDetected` | src/hyundai_canfd_codec.cpp:42-78 | every error of one, two or three bits is rejected, checksum bytes included: the distance of the code is at least four |
| `SccLayout.FieldsDisjoint` | src/hyundai_canfd_codec.cpp:84-183 | no two writes of one frame touch the same bit |
| `SccLayout.WriteAllReads` | src/hyundai_canfd_codec.cpp:120-142 | each field holds its value whatever is written after it |
| `SccLayout.WriteAllKeeps` | src/hyundai_canfd_codec.cpp:120-142 | bits that no field owns keep their value |
| `SccCodec.HyundaiCanFdCodec.MakeSccControl` | src/hyundai_canfd_codec.cpp:103-150 | the seventeen writes on template or blank produce the specified frame and advance the counter |
| `SccCodec.HyundaiCanFdCodec.MakeLfa` | src/hyundai_canfd_codec.cpp:80-101 | the nine writes produce the specified frame |
| `SccCodec.HyundaiCanFdCodec.MakeLfaCluster` | src/hyundai_canfd_codec.cpp:152-165 | the three writes produce the specified frame |
| `SccCodec.HyundaiCanFdCodec.MakeFcaWarning` | src/hyundai_canfd_codec.cpp:167-183 | the six writes produce the specified frame |
| `SccCodec.HyundaiCanFdCodec.SetSccControlTemplate` | src/hyundai_canfd_codec.cpp:185-192 | accepts exactly stock SCC frames; payload and next counter taken over |
| `SccCodec.FramesAreAccepted` | src/hyundai_canfd_codec.cpp:80-183 | every built frame passes the checksum test |
| `SccCodec.FieldsReadBack` | src/hyundai_canfd_codec.cpp:80-183 | every field of every frame reads back |
| `SccCodec.TemplateBitsSurvive` | src/hyundai_canfd_codec.cpp:116-118 | outside checksum and owned fields the frame is the template, bit for bit |
| `SccCodec.QuantizationError` | src/hyundai_canfd_codec.cpp:34-38 | a representable value comes back within half a quantum |
| `SccCodec.SccDecodesRequest` | src/hyundai_canfd_codec.cpp:111-140 | speed, both accelerations and both jerk limits decode to the clamped request within half a quantum |
| `SccCodec.SccDecodesStates` | src/hyundai_canfd_codec.cpp:120-142 | counter, control state and both stopping bits decode exactly |
| `SccCodec.LfaCarriesTorque` | src/hyundai_canfd_codec.cpp:82-88 | the frame carries the torque clamped to 1021; the reserved codes are never sent |
| `SccCodec.CountersFollowStock` | src/hyundai_canfd_codec.cpp:120-192 | the k-th frame after a stock frame carries its counter plus k modulo 256, on its payload, whatever else was built in between |
| `SccLaws.FramesExactly` | src/hyundai_canfd_codec.cpp:80-183 | address, bus, flags, size and padding of the four frames |
| `SccLaws.LfaExactly` | src/hyundai_canfd_codec.cpp:80-101 | every byte of the LFA frame behind the checksum, from counter, torque, state and request |
| `SccLaws.ClusterExactly` | src/hyundai_canfd_codec.cpp:152-165 | every byte of the cluster frame behind the checksum |
| `SccLaws.FcaExactly` | src/hyundai_canfd_codec.cpp:167-183 | every byte of the FCA frame behind the checksum |
| `SccLaws.SccExactly` | src/hyundai_canfd_codec.cpp:103-150 | every field of the SCC frame by bit position and value, physical values as the nearest code of the clamped request, and every other bit the template's |
| `SccLaws.TemplateExactly` | src/hyundai_canfd_codec.cpp:185-192 | if and only if: 32-byte frames with standard address 0x1A0 are taken over, and the next counter follows theirs |
| `SccLaws.FirstLfaFrame` | test/test_hyundai_canfd_codec.cpp:32-35 | a fresh codec builds exactly that complete LFA frame, checksum included |
| `SccLaws.FirstSccFrame` | test/test_hyundai_canfd_codec.cpp:52-57 | a fresh codec builds exactly that complete SCC frame, checksum included |
| `Torque.Construct` | src/command_adapter.cpp:39-95 | the ordered throws, with the loop over the low-speed table, reject exactly the invalid configurations |
| `Torque.CommandAdapter.Update` | src/command_adapter.cpp:107-238 | the in-place update is the specified step, whose numbers `TorqueLaws` gives; a throwing one changes nothing |
| `Torque.CommandAdapter.ApplyTorqueSlew` | src/command_adapter.cpp:240-254 | the slew window by the sign of the last torque |
| `Torque.CommandAdapter.UpdateSteeringRequest` | src/command_adapter.cpp:270-281 | frame count and request, with the 32-bit sum of the two counts |
| `Torque.CastThenClamp` | src/command_adapter.cpp:147-148 | if and only if: for which demands cast and clamp give the clamped demand |
| `Torque.SaturationIsRight` | src/command_adapter.cpp:147-254 | of every update: such demands reach the right target in any configuration, and without limit and slew the output is the clamped demand exactly for them |
| `Torque.SaturationCanFlip` | src/command_adapter.cpp:145-148 | the command 2^31 makes a fresh direct-torque adapter steer with full torque the other way |
| `Torque.DriverLimitsShrink` | src/command_adapter.cpp:256-268 | the driver limit only moves the demand towards zero; multiplier 0 switches it off |
| `Torque.SlewProgress` | src/command_adapter.cpp:240-254 | towards the target, without overshoot, by at least the smaller rate or all the way |
| `Torque.PassThrough` | src/command_adapter.cpp:240-268 | rates of 2042 and multiplier 0 make the path the identity |
| `Torque.TorqueAlwaysBounded` | src/command_adapter.cpp:107-238 | no history exceeds the torque limit |
| `Torque.OutputsBounded` | src/command_adapter.cpp:107-238 | every output of every run: torque within limits and zero without lateral permission, acceleration within its bounds |
| `Torque.Converges` | src/command_adapter.cpp:230-254 | n updates towards one target close the distance by n times the smaller rate |
| `Torque.ReachedInTime` | src/command_adapter.cpp:230-254 | a constant target is reached within ceil(2 max / rate) updates |
| `Torque.RequestPattern` | src/command_adapter.cpp:270-281 | output n of a high-angle run is requested exactly when its place in the cycle, counted on from any history, is below `valid` |
| `Torque.ExactlyCutPerWindow` | src/command_adapter.cpp:270-281 | if and only if the 32-bit sum of the counts does not wrap: of any valid + cut consecutive high-angle outputs of any adapter exactly `cut` carry no request |
| `Torque.StreaksBounded` | src/command_adapter.cpp:270-281 | no streak of outputs without a request exceeds `cut`, and none with one exceeds `valid` where that sum does not wrap |
| `Torque.PastsDoNotMatter` | src/command_adapter.cpp:133-143 | after a lateral-off update two adapters with different pasts agree forever |
| `TorqueLaws.ConfigExactly` | src/command_adapter.cpp:39-95 | if and only if: the configurations that the constructor accepts, bound by bound |
| `TorqueLaws.AccelerationExactly` | src/command_adapter.cpp:124-132 | of every update: the scaled and offset request within its bounds, the exceeded bound otherwise, zero without permission; stopping exactly when it is below -0.1 and the speed below 0.3 |
| `TorqueLaws.DriverLimitExactly` | src/command_adapter.cpp:256-268 | on which side and by how much a driver torque narrows the range: a demand is cut to the nearest integer of the room on its own side, to zero where there is none |
| `TorqueLaws.TorqueExactly` | src/command_adapter.cpp:145-254 | of every steering update: scaled command or controller torque, rounded to nearest, cut to 32 bits, clamped, cut to the driver's room, slewed by the sign of the last torque |
| `TorqueLaws.ControllerRemembered` | src/command_adapter.cpp:145-229 | which memory of the controller an update keeps in either mode |
| `TorqueLaws.OffExactly` | src/command_adapter.cpp:107-143 | if and only if a period is not positive an update throws; without lateral permission it outputs nothing and starts over from the vehicle's angle |
| `TorqueLaws.RequestExactly` | src/command_adapter.cpp:270-281 | of every steering update: request and frame count, by cutoff angle and 32-bit cycle |

## Left out

Protocol
- Finer interleavings than the steps named above, and statement-level races inside `src/node.cpp:529-551`.
- `control_loop` is a transition function over its phases, not a method with a loop: it never returns and
  shares its variables with other threads. Object identity and aliasing play no part in it.
- The retry object inside the node is held as a value in `EcuObject`; `RecoveryRetry.dfy` has the class.
- A mode switch, a heartbeat or a UDS request with a response that takes effect although its call throws is
  not in the log. None of these silences an ECU, and a re-enabling request of this kind leaves flag and debt
  standing. Silencing requests, control, probe and raw frames are logged when they may have gone out.
- Raw frames that are themselves diagnostic requests, to 0x730 or 0x7D0, leave what the model knows of an ECU
  untouched.
- Tester-present frames after the first one, the periodic heartbeat, and log lines are not recorded; their
  failures are.
- Stock-frame counters, waits and deadlines appear as the number of frames a wait saw, and the preflight
  conditions of automatic arming as one flag. Parsing of raw-transmit messages is one flag.
- Generation counters, the epoch and event counters are unbounded.
- Startup, shutdown and destructor order, ROS plumbing, parameters, publishing, diagnostics, real-time
  settings, `src/panda_usb.cpp`, the firmware, and `src/vehicle_state_parser.cpp`.
- HealthEpoch: transitions that store no sample of their own are outside the theorem, and so is the default
  value that a disconnection stores.

Supervisor
- Decision reasons, and the constructor's rejection of invalid timeouts and bounds.
- A fault latched while the node was never armed is acknowledged by automatic arming; nothing is claimed
  about rearming in that case.

Wire formats and arithmetic
- IEEE rounding, infinities and NaN: physical values are reals, so the finiteness checks have no counterpart.
- The angle controller (`src/command_adapter.cpp:149-229`) is an arbitrary function of the history and the
  inputs; its tuning is checked by the constructor and not used otherwise. `lround` beyond 64 bits is taken
  as exact.
- `BitCodec.SetSignal`: the range check is on unbounded numbers. Where the source's 32-bit sum of start and
  length wraps, its loop indexes outside the array, which has no defined meaning to model. Raw values are
  natural numbers and need not fit 64 bits.
- `BitCodec.GetSignal`: the same for its range check.
- A configuration of the adapter whose two frame counts add up to 2^32: the constructor accepts it, and the
  first high-angle update divides by zero.
- Receive timestamps of frames; the size reservation of the packer.
