# linkctl: verified model

linkctl drives a stateful and unreliable USB camera and promises that every
change is verified or undone. This project models the parts of it that carry
that promise, and proves what they keep.

* **Standard controls** (`ControlModel`, `ControlSafety`, `ControlOrder`,
  `ControlPlan`, `ControlCommands`, `ControlRequests`, `ControlProgress`,
  `ControlFallback`, `ControlReport`, `ControlEngine`): planning of
  automatic/manual prerequisites, batch and individual writes, readback, and
  rollback, in the command-line copy and the daemon copy. The driver is a map of
  values behind a fault script; it may refuse, fail, or store another value, and
  a dependent control can be gated by its parents.
* **Vendor (XU) selectors** (`Codec`, `CodecBits`, `Vendor`, `VendorGroup`,
  `VendorUndo`, `VendorReport`, `VendorSession`): named fields that share the
  bytes of a selector, encoded over a baseline. The scalar profile codec is
  modelled down to its bytes, and its get/put laws are proved together with the
  exact cases where they fail; the transactions are proved on top, the undo of a
  group down to single bits.
* **Presets** (`Preset`, `PresetSafety`, `PresetOutcome`, `PresetReport`,
  `PresetFailures`, `PresetContract`, `PresetEngine`, `Transaction`,
  `CrashSafety`, `PresetTrace`): staged application with a write-ahead journal
  and a lease, reverse-order rollback, step reports, and runs of any number of
  processes that may crash between any two steps; each run of the transaction is
  shown to be such a run.
* **Daemon** (`Daemon`, `DaemonSafety`, `DaemonRequests`, `DaemonActor`,
  `RecordingPath`): the actor's consumers, pipeline, recording segments,
  back-off, reload and shutdown.
* **Supporting cores**: firmware staging (`Firmware`), frame rates (`Media`),
  the zoom ramp (`Zoom`), gain scale and mixer (`Audio`), the PipeWire/ALSA
  merge (`AudioMerge`) and the watch commands (`Watch`).

Code that changes state is a class whose methods, with the source's loops, are
proved equal to functions on values (`State()`, `Now()`); the theorems are about
those functions and so hold of every run of the methods. Outside answers (the
driver, the camera, the file system, the medium, other processes) are scripts
that a theorem quantifies over.

Places where the code does not do what it promises are stated as results: the
condition under which the promise holds, and a concrete input where it does
not. They are the reopening of the control node after the writes, an automatic
parent that cannot be read back, the early returns of the vendor group and its
live-baseline undo, the unguarded mixer readback, the shared number of the mute
and video steps, the comparison of rates with zero parts, the plain rebuild that
reuses a recording path, and the recording that keeps cameras from joining.

`Wrappers` holds the option type and `Rounding` the rounding of reals.
`dafny verify dfyconfig.toml` checks the whole project.

## Model

| member | source | states |
|---|---|---|
| ControlSafety.AllOrNothing | crates/link-cli/src/lib.rs:11012-11241 | for every request list, fault script and flags: an error whose rollback lists no failure leaves every control at its old value, an error that is not partial lists none, previews and refusals change nothing, and controls that were not named are never touched |
| ControlSafety.RollbackRestores | crates/link-cli/src/lib.rs:11173-11222 | from any device that differs from the start only in prepared controls, a rollback that lists no failure ends exactly at the start values |
| ControlSafety.SnapshotRecords | crates/link-cli/src/lib.rs:11025-11029 | the recorded previous values are the values the device held before the first write |
| ControlSafety.SuccessIsTrue | crates/link-cli/src/lib.rs:11130-11170 | reported success is true under every script, devices that store another value included: every readable prepared control, prerequisites too, holds the requested value |
| ControlSafety.ConflictNeverSucceeds | crates/link-cli/src/lib.rs:11130-11170 | two different values for one readable control can never be reported applied |
| ControlSafety.FinishedWrites | crates/link-cli/src/lib.rs:11052-11128 | on a device that stores what it accepts, an applied run leaves the plain in-order result of its writes, by whichever path it got there |
| ControlSafety.FallbackRefinesBatch | crates/link-cli/src/lib.rs:11087-11124 | a run that undid a failed batch and wrote one by one ends in the same device state as a run whose batch went through |
| ControlFallback.FallbackReported | crates/link-cli/src/lib.rs:11087-11170 | an applied run says it was batched exactly when asked to or when several controls are requested; it names the write the batch failed at exactly when it fell back, and it falls back only in a batch and when allowed to |
| ControlFallback.FallbackTaken | crates/link-cli/src/lib.rs:11073-11124 | a device that fails exactly one write of the batch, and could otherwise carry the plan out: with the fallback the run is applied, says so and names the write; without it the run is undone, the device is as it was and no restore is listed |
| ControlFallback.FaultUndone | crates/link-cli/src/lib.rs:11046-11128 | any other single fault before the readback, a write that fails or a query that fails or says that its control is not available, ends the run undone: an ordinary error, the device as it was, no restore listed, and a write named exactly when a batch failed at it |
| ControlSafety.ReopenFailureExact | crates/link-cli/src/lib.rs:11130 | when the verifying node cannot be opened there is no rollback: the device is unchanged if and only if the writes asked for nothing new |
| ControlSafety.ReopenFailureLeavesChange | crates/link-daemon/src/lib.rs:895 | a concrete device and request where that early return leaves a changed control behind |
| ControlSafety.StageContract | crates/link-cli/src/lib.rs:11224-11241 | seen as a preset stage, a control run that fails without a partial error left the controls unchanged |
| ControlReport.AppliedReport | crates/link-cli/src/lib.rs:11130-11170 | the report of an applied run has one line per prepared write, in order, with its control, value and prerequisite flag; a previous value is the one held before the run, present for every readable control when the snapshot was answered; an observed value is the one held now, present for every readable control; every line is verified |
| ControlReport.PreviewTells | crates/link-cli/src/lib.rs:11030-11046 | a preview shows what is held, as previous and as observed, marks nothing verified and changes nothing |
| ControlReport.UndoAfterApplied | crates/link-cli/src/lib.rs:6385-6414 | undoing an applied run from nothing but the lines of its report ends where the run began when no restore fails |
| ControlReport.QuietUndoAfterApplied | crates/link-cli/src/lib.rs:6385-6414 | on a gated driver a fault-free undo from the report is itself reported truly: a control is listed exactly when it cannot be read or did not come back, and a readable one did not only behind a gate that a late parent which cannot be read holds shut |
| ControlOrder.RollbackFailsExactly | crates/link-cli/src/lib.rs:11173-11222 | a fault-free rollback on a gated driver fails on a written control if and only if that control cannot be read, or its value changed and a parent that cannot be read holds its gate shut; each other one is back |
| ControlOrder.RollbackReportsTruly | crates/link-cli/src/lib.rs:11012-11222 | with distinct prepared controls and acceptable old values that the snapshot could read where they can be read at all, from whatever point the forward writes failed at: a fault-free rollback lists a control exactly when it cannot be read or did not come back, and a readable one did not come back only where a parent that cannot be read was written after it and holds its gate shut |
| ControlOrder.RollbackNeverMeetsClosedGate | crates/link-cli/src/lib.rs:11012-11222 | when moreover no control that cannot be read is written after a dependent, no readable control is listed and each holds its old value; when all can be read, none is listed and nothing changed |
| ControlOrder.UndoOrderIsBackwards | crates/link-cli/src/lib.rs:11182-11200 | the special restore order, dependents before prerequisites and newest first, is exactly the write order read backwards |
| ControlOrder.RollbackComplete | crates/link-cli/src/lib.rs:11187-11222 | a fault-free rollback of a retraceable state reports truly of every prepared control, lists no other, and if it lists none ends at the start values |
| ControlOrder.GateIsOpen | crates/link-cli/src/lib.rs:11187-11205 | when the turn of a changed control comes in that order, its gate is open if and only if no parent that cannot be read holds it shut |
| ControlRequests.PlanCanBeUndone | crates/link-cli/src/lib.rs:10968-11008 | planning never inserts a prerequisite twice nor a dependent control, and with distinct requests, none of them inserted, its writes are of distinct controls in an order that can be undone |
| ControlRequests.RequestsReportTruly | crates/link-cli/src/lib.rs:10955-11222 | the report is true from the request list on, in raw mode too, with distinct requests none of which is also an inserted prerequisite |
| ControlRequests.RequestsNeverMeetClosedGate | crates/link-cli/src/lib.rs:10955-11222 | and when no control that cannot be read is requested after a dependent, an undone run lists no readable control as failed and each holds its old value |
| ControlRequests.LateUnreadableBlocks | crates/link-cli/src/lib.rs:11187-11222 | a concrete raw request list, a focus and then an automatic focus that cannot be read, whose fault-free rollback meets a closed gate and leaves the focus changed |
| ControlProgress.QuietRequestsApply | crates/link-cli/src/lib.rs:10955-11170 | on a device without faults, gated or not, distinct requests with acceptable values, none a parent of another, are applied, whatever was automatic, if and only if the driver accepts the manual values of the inserted prerequisites |
| ControlPlan.PlanFrame | crates/link-cli/src/lib.rs:10968-11008 | planning writes nothing and turns every request into exactly one requested write, in order |
| ControlPlan.DependenciesAreFlat | crates/link-v4l2/src/production.rs:381-405 | no automatic/manual parent is itself a dependent, and no parent has two manual values |
| ControlPlan.PlanOpensGates | crates/link-cli/src/lib.rs:10968-11008 | once exactly the planned prerequisites are written, every requested control can be written, whatever was automatic before |
| ControlPlan.RequestsAllOrNothing | crates/link-cli/src/lib.rs:10955-11010 | all-or-nothing from the request list on, planning failures included |
| ControlPlan.RequestsSucceedTruly | crates/link-cli/src/lib.rs:10955-11010 | an applied request list means every readable requested control holds its value |
| ControlPlan.CopiesAgree | crates/link-daemon/src/lib.rs:753-936 | the command-line copy and the daemon copy issue the same driver commands, leave the same device and reach the same outcome, given the one opening that only the command line makes |
| ControlCommands.OnlyAdmittedValues | crates/link-v4l2/src/production.rs:261-336 | every command a run sends, rollback and fallback included, writes a prepared control with a value in its range and a whole number of steps above its minimum; a dry run sends none |
| ControlCommands.BatchExact | crates/link-v4l2/src/production.rs:302-336 | a batch over distinct controls sends nothing unless each admits its value, and then names the first that does not; else it sends its commands in order up to and with the one that fails, which it names |
| ControlCommands.RejectedExact | crates/link-cli/src/lib.rs:10955-11010 | a request list is rejected, with nothing sent or changed, unless every request names a control with a value it admits, and on a device without faults only then |
| ControlCommands.RawPlansNothingMore | crates/link-cli/src/lib.rs:10968-11008 | a raw request list is planned as it stands, without prerequisites |
| ControlCommands.PlanInsertsNeeded | crates/link-cli/src/lib.rs:10968-11008 | on a device without faults every prerequisite that planning inserts is a control of the device that does not hold its manual value, as far as it can be read, and is given that value |
| ControlCommands.PreviewFlagged | crates/link-daemon/src/lib.rs:753-936 | the batched flag of a preview: the command line repeats what was asked for, the daemon says whether the run would be batched |
| ControlEngine.ControlNode.Store | crates/link-v4l2/src/production.rs:261-300 | one driver write: the new node is the specified one (rejection, closed gate, failure, skew) |
| ControlEngine.ControlNode.StoreAll | crates/link-cli/src/lib.rs:11087-11124 | the write loop stops at the first failure and reports its position, as specified |
| ControlEngine.ControlNode.StoreBatch | crates/link-v4l2/src/production.rs:302-336 | a batch validates every value first, then applies an in-order prefix |
| ControlEngine.ControlNode.ReadPrevious | crates/link-cli/src/lib.rs:11025-11029 | the snapshot loop equals the specified snapshot |
| ControlEngine.ControlNode.RollbackControls | crates/link-cli/src/lib.rs:11173-11222 | the rollback loop leaves the specified device and report |
| ControlEngine.ControlNode.ReadChanges | crates/link-cli/src/lib.rs:11130-11155 | the readback loop reports the specified changes, and `verified` is their conjunction; `ControlReport.AppliedReport` says what such a report means |
| ControlEngine.ControlNode.RunFallback | crates/link-cli/src/lib.rs:11087-11124 | the individual fallback (undo, prerequisites again, one by one) is the specified one |
| ControlEngine.ControlNode.RunPrepared | crates/link-cli/src/lib.rs:11012-11170 | the whole transaction over prepared writes leaves the specified device and outcome |
| ControlEngine.ControlNode.PlanWrites | crates/link-cli/src/lib.rs:10968-11008 | the planning loops prepare the specified writes |
| ControlEngine.ControlNode.RunRequests | crates/link-cli/src/lib.rs:10955-11010 | the command-line entry point is the specified run, to which the theorems above apply |
| ControlEngine.ControlNode.RunStandardControls | crates/link-daemon/src/lib.rs:753-936 | the daemon entry point is the specified run |
| Codec.ReadWritten | crates/link-profiles/src/lib.rs:1052-1108 | a written integer reads back, but for negative eight-byte values, which are written and never read |
| Codec.WriteRead | crates/link-profiles/src/lib.rs:1052-1108 | a read integer writes back to the same bytes, for every width and byte order |
| Codec.ReadAfterWrite | crates/link-profiles/src/lib.rs:795-902 | the encoded payload decodes to the requested meaning; eight-byte negative values are the exact exception; `Codec.EncodedAround` and `CodecBits.EncodedBit` give its other bytes and bits |
| Codec.EncodeExact | crates/link-profiles/src/lib.rs:795-956 | a value is encoded if and only if the baseline has the length of the control, the value is one of its kind, in its verified range and on its step, and it fits the width; under a mask, if and only if the field found can be read |
| Codec.EncodedAround | crates/link-profiles/src/lib.rs:795-902 | every byte outside the field of every encoded payload: the byte found where the tail is preserved, 0 where it is zero or computed, 0 before the field and the fixed bytes after it, the template's byte, and last the checksum of the bytes before it |
| Codec.ChecksumExact | crates/link-profiles/src/lib.rs:890-900 | the running checksum is the one byte that is the total of the bytes to eight bits, or whose every bit is the parity of the bytes that have it |
| CodecBits.EncodedBit | crates/link-profiles/src/lib.rs:835-860 | every bit of the field of every encoded payload: the two's complement of the raw value inside the mask, or everywhere without one, and what was there before outside it |
| Codec.PutBackExact | crates/link-profiles/src/lib.rs:713-792 | writing back the decoded value reproduces the baseline bytes if and only if the bytes are faithful: nameable value in range, and outside the field what the tail policy says, byte for byte |
| Codec.LastWriteWins | crates/link-profiles/src/lib.rs:795-956 | a second write to the same control forgets the first, byte for byte |
| Codec.SkippableExact | crates/link-profiles/src/lib.rs:795-902 | a write whose value already reads the same changes no byte if and only if the baseline is faithful |
| Codec.DecodableFits | crates/link-profiles/src/lib.rs:1052-1077 | an encoded payload that decodes carries a value within the signed 64-bit range |
| Codec.NeighbourUnchanged | crates/link-profiles/src/lib.rs:795-902 | writing one field leaves the meaning of every field of the selector that shares no bit with it |
| Codec.UnfaithfulBytes | crates/link-profiles/src/lib.rs:762-792 | a concrete boolean byte that reads true and is not reproduced by writing true back |
| CodecBits.PutBackBit | crates/link-profiles/src/lib.rs:795-956 | the exact bits of a decoded value put back over other bytes: those the control decides come from the baseline, the others stay as found |
| CodecBits.PutBackRefused | crates/link-profiles/src/lib.rs:795-956 | putting back is refused if and only if a masked field is found unreadable, which takes eight bytes |
| CodecBits.PutBackOverExact | crates/link-profiles/src/lib.rs:795-956 | putting a faithful baseline back over other bytes restores it if and only if they agree with it in every bit the control does not decide |
| CodecBits.SameOutsideInBytes | crates/link-profiles/src/lib.rs:713-792 | in bytes: a preserved tail agrees outside the field, a masked field once its masked bits are blanked, any other tail always |
| Vendor.PrepareChains | crates/link-cli/src/lib.rs:2755-2797 | each prepared write starts from the bytes its predecessors leave in the simulated selector map, and that map tracks them |
| Vendor.PrepareDescribes | crates/link-cli/src/lib.rs:2755-2797 | the prepared writes are those asked for, in order |
| Vendor.PlanExact | crates/link-cli/src/lib.rs:2755-2797 | a transaction can be prepared if and only if it asks for something and its writes form a chain, each over the bytes the ones before it leave, and then in that one way |
| Vendor.LinkMeans | crates/link-cli/src/lib.rs:2755-2797 | a link of that chain: the selector is there, its bytes decode to the previous value, the input encodes over them, and the payload decodes to what readback is compared with |
| Vendor.RefusedExact | crates/link-cli/src/lib.rs:2871-2880 | a transaction is refused if and only if it cannot be prepared, and then nothing was written |
| Vendor.RollbackByteExact | crates/link-cli/src/lib.rs:3077-3120 | over any mix of shared and distinct selectors and any garbage in the written ones, undoing newest first returns every selector to its original bytes |
| Vendor.SingleRollbackExact | crates/link-cli/src/lib.rs:3092-3104 | for one write, its undo restores the bytes over arbitrary garbage if and only if the codec can put the baseline back |
| Vendor.WritesAllOrNothing | crates/link-cli/src/lib.rs:2871-2910 | a semantic transaction that fails at any index, with any bytes left behind, ends with the original bytes; `VendorReport.DoneIsTrue` is its other half |
| VendorReport.DoneIsTrue | crates/link-cli/src/lib.rs:2871-2910 | for every camera script: a completed transaction means that each selector decodes, for the last write to it, to the requested value or to a number at most the tolerance away |
| VendorReport.RollbackIsTrue | crates/link-cli/src/lib.rs:3077-3120 | for every camera script: a rollback has one result per write, newest first; one is passed over exactly when its profile forbids rollback, and where the oldest undo of a selector says it restored, the selector reads as before that write |
| Vendor.FinalIsOriginal | crates/link-cli/src/lib.rs:3077-3120 | the last undo to reach a selector is that of its oldest write, and writes the original bytes |
| VendorGroup.SemanticWritesLand | crates/link-cli/src/lib.rs:2871-2910 | on a camera that obeys, a prepared transaction completes and every selector holds the bytes its last write was prepared with |
| VendorGroup.PreviewMatches | crates/link-cli/src/lib.rs:5655-5683 | on an obedient camera with zero tolerance, applying only the writes that are not no-ops reads the simulated bytes before every write and ends with the bytes of performing all; it stops early only at an unreadable baseline or an unrestored video format |
| VendorGroup.NoOpKeepsBytesExactly | crates/link-cli/src/lib.rs:5679 | skipping a no-op is harmless if and only if its baseline bytes are faithful |
| VendorGroup.GroupUndoExact | crates/link-cli/src/lib.rs:6085-6141 | undoing a group over readable live baselines brings back the original bytes when its zero-tolerance writes started from faithful bytes and landed whole |
| VendorGroup.WholeGroup | crates/link-cli/src/lib.rs:5982-6083 | with transfers that land whole or not at all, zero tolerance and readable, faithful starts, the group ends undone with the original bytes or with all its bytes in place, and then an error means only that the video format could not be put back |
| VendorReport.CompletedIsTrue | crates/link-cli/src/lib.rs:5982-6083 | for every camera script: a completed preset group means that each selector decodes, for the last applied write to it, to the requested value or within the tolerance |
| VendorReport.RestoreIsTrue | crates/link-cli/src/lib.rs:6085-6141 | the same truth of the group's undo over live baselines: one result per applied write, and where the oldest of a selector says it restored, the selector reads as before that write |
| VendorReport.ObedientRollback | crates/link-cli/src/lib.rs:3077-3120 | on a camera that obeys, every undo of writes that started from faithful bytes reports that it restored |
| VendorGroup.AbandonedExact | crates/link-cli/src/lib.rs:5997-6082 | on a camera that obeys, the group returns an error over writes left in place if and only if a live baseline could not be read or the video format not put back, and nothing changed if and only if the latest payloads up to there are what the selectors held |
| VendorGroup.EarlyReturnLeavesWrite | crates/link-cli/src/lib.rs:5997-6010 | a concrete camera where the early return on an unreadable baseline leaves the first write in place |
| VendorGroup.LostVideoLeavesWrites | crates/link-cli/src/lib.rs:6080-6082 | a concrete camera where the video format cannot be put back and the error comes back over a write in place |
| VendorGroup.FailedUndoLeavesWrite | crates/link-cli/src/lib.rs:6055-6062 | a concrete camera whose in-session undo fails, the ordinary error kept, with the write in place |
| VendorGroup.LiveUndoKeepsGarbage | crates/link-cli/src/lib.rs:6111-6128 | the live-baseline undo reports success and keeps garbage outside the field, where the recorded-baseline undo restores the bytes |
| VendorUndo.LiveUndoExact | crates/link-cli/src/lib.rs:6111-6128 | on a clean transfer the live-baseline undo restores faithful bytes if and only if the bytes found have their length and agree with them outside the bits the control decides |
| VendorUndo.UndoSettles | crates/link-cli/src/lib.rs:6085-6141 | bit by bit, for any group and any bytes found: after the undo every bit is as the oldest undone write that decides it found it, and a bit none decides is as it was found; writes whose baseline cannot be read or that the codec refuses count as not undone |
| VendorUndo.GroupAllOrNothing | crates/link-cli/src/lib.rs:5982-6083 | over undo transfers that store their payload and faithful live starts, whatever the forward transfers left: the group is undone if and only if a write does not read back, and then the original bytes are back if and only if every bit was found unchanged by the oldest undone write that decides it, undecided bits included; otherwise what landed stays |
| VendorUndo.WithinIsUndone | crates/link-cli/src/lib.rs:5982-6083 | when no transfer touched a bit outside those its control decides, and baselines can be read, an undone group ends with the original bytes |
| VendorUndo.PayloadIsWithin | crates/link-profiles/src/lib.rs:795-902 | a payload encoded over faithful bytes touches only the bits its control decides |
| VendorSession.XuSession.Prepare | crates/link-cli/src/lib.rs:2755-2797 | the preparation loop computes the specified plan |
| VendorSession.XuSession.RunSemanticWrites | crates/link-cli/src/lib.rs:2871-2910 | the apply loop leaves the specified selectors and outcome, of which `VendorReport.DoneIsTrue` and `Vendor.WritesAllOrNothing` speak |
| VendorSession.XuSession.RollbackSemanticWrites | crates/link-cli/src/lib.rs:3077-3120 | the reverse loop leaves the specified selectors and results |
| VendorSession.XuSession.ApplyPresetGroup | crates/link-cli/src/lib.rs:5982-6083 | the preset group loop is the specified one, early returns included |
| VendorSession.XuSession.RestoreInSession | crates/link-cli/src/lib.rs:6085-6141 | the in-session undo loop is the specified one |
| PresetSafety.PresetAllOrNothing | crates/link-cli/src/lib.rs:4979-5041 | given the stage contract, outcome RolledBack means the whole device is at its start state and no restart took effect, for every plan, no-op set, failing stage and journal fault |
| PresetSafety.RolledBackExact | crates/link-cli/src/lib.rs:4979-5016 | without the contract: RolledBack over an unchanged device if and only if the failing stage left its own state unchanged; `PresetOutcome.RunOutcome` says when a run is rolled back |
| PresetOutcome.RunOutcome | crates/link-cli/src/lib.rs:4957-5057 | how every run on a complete device ends, from plan, script and journal writes alone: all stages stand and it completes exactly when the journal could be removed; or the first stage that does not stand fails it, and it ends rolled back, with the ordinary error and no journal, if and only if that error is not partial, no restart was applied, every applied stage is restored, every journal write of the rollback succeeds and the journal could be removed |
| PresetOutcome.RefusedOverJournal | crates/link-cli/src/lib.rs:4918-4931 | a run that finds a recovery journal is refused, applies nothing and leaves the journal as it found it |
| PresetFailures.FailedStepsExact | crates/link-cli/src/lib.rs:4976-5041 | the step report of a failed run: the steps of the stages that took effect, prerequisites with their controls, show RolledBack, or RollbackFailed where their own undo failed; a restart stays Verified; the failing step shows Failed; what was not reached is pending and what asked for nothing skipped |
| PresetFailures.FailuresExact | crates/link-cli/src/lib.rs:5017-5041 | the list of rollback failures of a failed run: exactly the undos that left something behind, a failing stage that may have, a restart that was applied, and an error when any undo or journal write of the rollback failed |
| PresetSafety.RollbackMirrorsApply | crates/link-cli/src/lib.rs:6216-6383 | every applied stage but the restart is undone exactly once, in exact reverse of apply order, and rollback continues past failures |
| PresetSafety.RollbackOrderMirrors | crates/link-cli/src/lib.rs:6356-6383 | the fixed rollback order filtered by what was applied is the reverse of the apply order |
| PresetSafety.JournalGuards | crates/link-cli/src/lib.rs:4970-5057 | success means every due stage is at its target; an ordinary error means the start state; without a journal on disk the device is at one of the two |
| PresetSafety.BrokenContractMisreports | crates/link-cli/src/lib.rs:4957-5016 | over a failing stage, the run says RolledBack with a changed device if and only if the stage reports an ordinary error and kept something |
| PresetSafety.NumberingCollides | crates/link-cli/src/lib.rs:5397-5418 | two steps share a number if and only if both a mute and a video step are planned |
| PresetReport.CompletedReportExact | crates/link-cli/src/lib.rs:6449-6465 | a completed run shows every due step Verified if and only if it did not plan a mute step beside a video step that changes the format |
| PresetReport.MarkedBothAt | crates/link-cli/src/lib.rs:5824-5847 | marking a standard-control step marks the first entry of its number and of its prerequisite's, and no other |
| PresetContract.ControlStageContract | crates/link-cli/src/lib.rs:5813-5823 | the standard-control stage keeps the stage contract if and only if it does not fail on reopening its node over changed controls |
| PresetContract.VendorStageContract | crates/link-cli/src/lib.rs:5982-6083 | the vendor stage keeps the stage contract if and only if it completes, or what landed before it stopped is what was there, or its undo recovers every bit |
| PresetContract.ObedientVendorStage | crates/link-cli/src/lib.rs:5982-6083 | on a camera that obeys: if and only if every live baseline could be read and the video format put back, or the latest payloads ask for nothing new |
| PresetContract.VendorMisreportsExact | crates/link-cli/src/lib.rs:4957-5016 | a preset over a vendor group that fails says RolledBack with a changed device if and only if the group left other bytes than it found |
| PresetContract.VendorStageMisreports | crates/link-cli/src/lib.rs:5997-6082 | three such runs: an unreadable live baseline, a video format that cannot be put back, an in-session undo that fails |
| PresetContract.MixerStageContract | crates/link-audio/src/lib.rs:673-748 | the gain and mute stages keep the stage contract if and only if they do not fail on the reading after a write that left something else than it found |
| PresetContract.MixerMisreportsExact | crates/link-audio/src/lib.rs:727 | a preset over a mixer stage that fails says RolledBack with a changed device exactly in that case |
| PresetEngine.PresetRun.SetTransactionStep | crates/link-cli/src/lib.rs:6449-6465 | the search loop sets the first entry with the number and leaves the rest |
| PresetEngine.PresetRun.RunStage | crates/link-cli/src/lib.rs:5755-5916 | one stage: skipped, failed, or applied, recorded, marked and journaled as specified |
| PresetEngine.PresetRun.ApplyPreparedPreset | crates/link-cli/src/lib.rs:5747-5919 | the six stages run in the specified order up to the first failure |
| PresetEngine.PresetRun.RollbackPreset | crates/link-cli/src/lib.rs:6216-6345 | the rollback loop leaves the specified device, report and journal |
| PresetEngine.PresetRun.RunPresetApply | crates/link-cli/src/lib.rs:4911-5057 | the whole run is the specified one, so the theorems above hold of it |
| CrashSafety.CrashSafe | crates/link-cli/src/lib.rs:4911-5057 | for any number of processes, any interleaving and crashes or power losses between any two steps: with no recovery journal on disk the device is the start state with the completed presets applied in order |
| CrashSafety.StepKeepsInvariant | crates/link-core/src/transaction.rs:124-180 | every step of every process keeps the invariant behind that claim, given the stage contract |
| CrashSafety.OneAtATime | crates/link-core/src/transaction.rs:124-180 | at most one process is past the lease |
| CrashSafety.LeaseOutlivesNobody | crates/link-core/src/transaction.rs:124-180 | after any run the lease is held by exactly the process past it, if there is one; when that crashes or the power fails, any other can take it |
| CrashSafety.RemovedForGood | crates/link-core/src/transaction.rs:265-276 | a journal whose removal was reported does not come back after a power loss |
| CrashSafety.FrozenBehindJournal | crates/link-cli/src/lib.rs:4918-4931 | while a journal is left behind no run of presets changes the device |
| CrashSafety.BrokenContractLosesState | crates/link-cli/src/lib.rs:4987-5016 | without the stage contract a run can end with a changed device and no journal |
| PresetTrace.RunTraces | crates/link-cli/src/lib.rs:4901-5057 | every run of the preset transaction that writes its journal is a run of the crash-safe machine, ending with the same device and journal; it is an honest one when the stage contract holds |
| PresetTrace.RunIsCrashSafe | crates/link-cli/src/lib.rs:4901-5057 | hence, without a journal on disk, a run of the transaction left the start state or the start state with the plan applied, and success is the latter |
| PresetTrace.SameOrder | crates/link-cli/src/lib.rs:6356-6383 | the machine undoes a run's stages in exactly the transaction's rollback order |
| Transaction.AcquireLease | crates/link-core/src/transaction.rs:147-166 | the lock loop tries every 20 ms up to the deadline: busy if and only if every try within it was blocked, else the first free or broken answer decides |
| Transaction.JournalStore.Existing | crates/link-core/src/transaction.rs:210-236 | a journal is found if and only if it is readable, parses and has the current schema in all three places; missing only when there is no file |
| Transaction.JournalStore.Write | crates/link-core/src/transaction.rs:238-263 | after any failure the journal is the old one or the new one, never torn; success is durable; no temporary file stays |
| Transaction.JournalStore.Remove | crates/link-core/src/transaction.rs:265-276 | removing a missing journal succeeds; a failed removal leaves it, or leaves it to come back after a power loss |
| DaemonSafety.DaemonInvariant | crates/link-daemon/src/lib.rs:253-424 | over every sequence of requests, polls, pipeline failures and file changes: a live pipeline has consumers and exactly their branches, recording and root are present together, the delay is min(250*2^k, 5000) ms after k failed recoveries, and the untimed wait happens only without a pipeline |
| DaemonSafety.HandleKeeps | crates/link-daemon/src/lib.rs:429-724 | every single event keeps that invariant |
| DaemonSafety.BackoffDoubles | crates/link-daemon/src/lib.rs:340-356 | the doubling step of the delay is the closed form for one more failure |
| DaemonSafety.RecoveryNeverOverwrites | crates/link-daemon/src/lib.rs:268-338 | every rebuild in recovery, or out of a recording pipeline, starts recording on a path that does not exist |
| DaemonSafety.PollNeverOverwrites | crates/link-daemon/src/lib.rs:340-356 | a poll opens no file that exists |
| DaemonSafety.AdvanceChoosesLeast | crates/link-daemon/src/lib.rs:324-338 | the next segment is the least free number above the current one; none is found only when all are taken or the name has no stem |
| DaemonSafety.SegmentsNeverShare | crates/link-daemon/src/lib.rs:324-338 | over any run that does not stop the recording the segment number never falls and a new number is a new path |
| DaemonSafety.OpensExistingExact | crates/link-daemon/src/lib.rs:268-322 | a rebuild opens an existing file if and only if it is a plain one without a live recording pipeline, over a recording that may be overwritten and whose file exists, and source, outputs and pipeline allow it; it is then the original file, never a recovery segment |
| DaemonSafety.ReloadReusesPath | crates/link-daemon/src/lib.rs:268-322 | from start-up: a recording starts, its pipeline fails and the camera is lost; a reload that finds it again reopens the recorded file if it may be overwritten, and fails if not |
| DaemonSafety.StartRecordingLive | crates/link-media/src/gst_backend.rs:1193-1209 | a recording joins a live pipeline if and only if none is active, the branch is accepted and its file is new or may be overwritten |
| DaemonSafety.RecordingBlocksCameras | crates/link-media/src/gst_backend.rs:1157-1160 | while a recording that may not overwrite runs, no virtual camera can join its pipeline, because the check finds the file being recorded |
| DaemonSafety.FailedStartChangesNothing | crates/link-daemon/src/lib.rs:573-692 | a VcamStart or RecordingStart that fails leaves outputs, recording, root and segment as before, from any state that keeps the invariant |
| DaemonSafety.VcamStarted | crates/link-daemon/src/lib.rs:573-596 | a VcamStart succeeds if and only if its name is free and valid, the branch or the rebuild is accepted and no recording that may not overwrite has its file in place; it then adds exactly its output, keeps the recording and leaves a live pipeline |
| DaemonSafety.VcamStopped | crates/link-daemon/src/lib.rs:597-624 | a VcamStop succeeds if and only if it names outputs that exist and none is stuck in a live pipeline, or without one what remains can be rebuilt; it then removes exactly the named outputs, keeps the recording, and a pipeline lives on if and only if there are consumers; a failed one drops the outputs before the stuck one, or all named when none is live |
| DaemonSafety.RecordingStarted | crates/link-daemon/src/lib.rs:662-692 | a RecordingStart succeeds if and only if none is active, the branch or the rebuild is accepted and the file is new or may be overwritten; it then sets recording, root and segment, keeps the outputs, leaves a live pipeline and the file in place |
| DaemonSafety.RecordingStopped | crates/link-daemon/src/lib.rs:699-724 | a RecordingStop succeeds if and only if one is active and the live pipeline lets it go, or without one the outputs can be rebuilt; it then clears the recording, keeps the outputs, and a pipeline lives on if and only if there are consumers |
| DaemonRequests.ShutdownExact | crates/link-daemon/src/lib.rs:446-456 | a shutdown succeeds from every state: it drops pipeline, outputs, recording, root and segment, sets stopping, and touches no file and no counter |
| DaemonRequests.StoppedExact | crates/link-daemon/src/lib.rs:390-456 | over every event list: the actor has stopped if and only if a shutdown was among the events, and everything is then cleared |
| DaemonRequests.NothingAfterShutdown | crates/link-daemon/src/lib.rs:390-427 | once a shutdown was handled no later request, poll, failure or file change changes the actor or the files |
| DaemonRequests.ReloadExact | crates/link-daemon/src/lib.rs:435-445 | a reload with consumers succeeds if and only if the camera, the outputs and the pipeline are there and a recording can go on; it then runs the wanted branches on the camera found, moves a live recording to a new file and counts one more; otherwise it leaves no pipeline and counts none; without consumers it forgets the camera |
| DaemonRequests.FailedStartServesOthers | crates/link-daemon/src/lib.rs:573-596 | a VcamStart that fails without a live pipeline rebuilds for the others, and serves them if and only if that rebuild succeeds |
| DaemonRequests.RequestsCountNothing | crates/link-daemon/src/lib.rs:429-724 | no start, stop or look at the camera counts as a reload or reconnect, and a look changes nothing but the remembered camera |
| DaemonRequests.ServesOnFound | crates/link-daemon/src/lib.rs:573-724 | a start or stop that brings the pipeline up does so on the camera it found |
| DaemonSafety.PollTiming | crates/link-daemon/src/lib.rs:340-356 | a poll of a pipeline that runs, or before its time, does nothing; a due one, or one that finds the pipeline failed, brings it back and resets the delay if and only if the camera, the outputs, the pipeline and a free name are all there, in the old format of the same camera; otherwise it waits the delay and counts one more failure |
| RecordingPath.NamingInjective | crates/link-daemon/src/lib.rs:1193-1209 | different segments of one recording have different names, zero padding included |
| RecordingPath.RecoveryIsNotRoot | crates/link-daemon/src/lib.rs:1193-1209 | no recovery name is the original name |
| RecordingPath.SearchIsLeast | crates/link-daemon/src/lib.rs:1173-1191 | the search returns the least free number, and overflows only when every number is taken |
| RecordingPath.NextIsLeast | crates/link-daemon/src/lib.rs:1173-1191 | the next recovery number is the least free one from the given one on, zero left out, and there is one if and only if the name has a stem and some number is free |
| RecordingPath.PaddedExact | crates/link-daemon/src/lib.rs:1193-1209 | a number is written with three digits or with as many as it needs, and reads back |
| RecordingPath.StemExact | crates/link-daemon/src/lib.rs:1193-1209 | a file name splits into stem and extension at its last dot unless that is its first character; the empty name and directory names have no stem |
| RecordingPath.SearchSucceeds | crates/link-daemon/src/lib.rs:1173-1191 | the search succeeds in any directory with fewer files than remaining numbers |
| RecordingPath.NextRecoveryRecordingPath | crates/link-daemon/src/lib.rs:1173-1191 | the search loop computes the specified result |
| DaemonActor.ActorState.AdvanceRecordingSegment | crates/link-daemon/src/lib.rs:324-338 | the method moves the fields as specified, or leaves them on failure |
| DaemonActor.ActorState.RebuildPipeline | crates/link-daemon/src/lib.rs:268-322 | the method leaves the specified actor and files |
| DaemonActor.ActorState.PollPipeline | crates/link-daemon/src/lib.rs:340-356 | the method leaves the specified actor and files |
| DaemonActor.ActorState.DispatchOperation | crates/link-daemon/src/lib.rs:429-724 | every request leaves the specified actor, files and success, of which the theorems on starts, stops, reload and shutdown speak |
| DaemonActor.ActorState.ActorLoop | crates/link-daemon/src/lib.rs:382-427 | the loop is the specified run over its events, so the theorems above hold of it |
| Firmware.CopyFirmwareToVolume | crates/link-core/src/firmware.rs:350-507 | this run makes the destination, and says so, if and only if the root is a directory without the official file or a left-over temporary and with 8 MiB more to spare, the whole file of the validated size and digest is copied, and nothing takes its name; it succeeds if and only if what the volume then holds reads back with that digest; an existing destination and all other files are untouched; a temporary stays only if its removal failed |
| Firmware.CopyInto | crates/link-core/src/firmware.rs:385-501 | from the created temporary file on: the exact condition of arriving and of success, contents and what remains on failure |
| Firmware.CopyLoop | crates/link-core/src/firmware.rs:388-413 | the loop succeeds if and only if no turn before the end is interrupted, torn or fails; progress is strictly increasing, at every report the temporary file holds exactly that prefix of the source, and the running digest is that of the content |
| Firmware.RenameNoReplace | crates/link-core/src/firmware.rs:434-452 | the rename happens if and only if the name is free and the system call succeeds, and never replaces |
| Firmware.HashReader | crates/link-core/src/firmware.rs:562-575 | for a streaming digest, a read in chunks gives the digest of the content, whatever the chunking |
| Firmware.AbsorbedAppend | crates/link-core/src/firmware.rs:562-575 | absorbing one chunk after another is absorbing their concatenation |
| Media.GcdLoop | crates/link-core/src/media.rs:219-226 | the loop computes the recursive remainder chain |
| Media.GcdIsGreatest | crates/link-core/src/media.rs:219-226 | its result is a common divisor that every common divisor divides |
| Media.NormalForm | crates/link-core/src/media.rs:201-210 | normalizing keeps the value and leaves no common factor |
| Media.CompareExact | crates/link-core/src/media.rs:212-217 | for positive denominators the comparison by cross products is the comparison of the quotients |
| Media.NormalFormExact | crates/link-core/src/media.rs:201-217 | for positive rationals normal forms are equal if and only if the comparison says Equal, and normalizing twice is normalizing once |
| Media.NormalFormDomain | crates/link-core/src/media.rs:201-217 | for all rationals: the two agree on a pair if and only if the pair is identical or the cross products are not both zero |
| Media.ZeroOverZeroIsEqualToAll | crates/link-core/src/media.rs:214-217 | 0/0 compares Equal to every rate, so the comparison is not transitive there |
| Media.EquivalenceIsNormalEquality | crates/link-core/src/media.rs:29-42 | tuples with positive rates are equivalent if and only if their normalized tuples are equal |
| Media.EquivalenceRelation | crates/link-core/src/media.rs:37-42 | hence equivalence of such tuples is reflexive, symmetric and transitive |
| Zoom.RampShape | crates/link-cli/src/lib.rs:8900-8905 | every planned value is on a step, in range, between the ends and never turns back |
| Zoom.RampEnds | crates/link-cli/src/lib.rs:8900-8905 | the ramp starts at `from` and ends exactly at `to` |
| Zoom.RampWrites | crates/link-cli/src/lib.rs:8906-8914 | the writes are strictly monotone, at most min(ticks+1, abs(to-from)/step+1) many, and leave the control at `to` |
| Zoom.FactorToRaw | crates/link-cli/src/lib.rs:9060-9073 | an accepted factor is in range and on a step; `Zoom.FactorExact` says when one is accepted |
| Zoom.FactorExact | crates/link-cli/src/lib.rs:9060-9073 | a factor is accepted if and only if its hundredths, rounded to the nearest integer, are in range and a whole number of steps above the minimum |
| Zoom.RampAccuracy | crates/link-cli/src/lib.rs:8900-8905 | every planned value is within rounding of the step at or below the straight line between the ends |
| Zoom.RampPlanExact | crates/link-cli/src/lib.rs:8862-8914 | a ramp is accepted if and only if it lasts from 50 ms to a minute and both factors are; it takes the fewest ticks of 50 ms that cover its duration, and leaves the control at its end |
| Zoom.ZoomNode.PlannedWrites | crates/link-cli/src/lib.rs:8906-8914 | the counting loop counts exactly the writes of the real run |
| Zoom.ZoomNode.WriteTicks | crates/link-cli/src/lib.rs:8931-8946 | the writing loop makes the planned writes up to the first that fails, leaves what they leave in the control and consumes one answer each |
| Zoom.ZoomNode.RunZoomRamp | crates/link-cli/src/lib.rs:8862-8983 | a refused, unread or previewed ramp changes nothing, and a preview counts what the real run writes; a run succeeds if and only if no planned write fails and the control is then read at `to`; any other run puts the previous value back, and reports it restored if and only if that write answered and the value was seen again |
| Audio.RawSurvives | crates/link-audio/src/lib.rs:856-865 | raw to normalized and back is the identity on the range, a single-value range included |
| Audio.PercentageInUnit | crates/link-audio/src/lib.rs:856-865 | a percentage is between 0 and 1, also of a raw value outside the range, and then at the nearer end |
| Audio.GainError | crates/link-audio/src/lib.rs:856-865 | normalized to raw and back is off by at most half a raw step, and stays in range |
| Audio.GainRollbackExact | crates/link-cli/src/lib.rs:6250-6264 | undoing an applied gain with the recorded percentage restores the raw value exactly |
| Audio.MuteRollbackExact | crates/link-cli/src/lib.rs:6227-6248 | undoing an applied mute with the recorded switch restores the mixer |
| Audio.MixerContract | crates/link-audio/src/lib.rs:673-748 | errors before the write, and a rollback that succeeded, leave the mixer unchanged; success leaves the requested field and keeps the other; after the unguarded reading the field holds what the write left, skewed or not, and the mixer is unchanged if and only if that is what it held |
| Audio.AppliedExact | crates/link-audio/src/lib.rs:673-748 | a change is applied if and only if it is in range, both readings answer and the write left what was asked for |
| Audio.MismatchExact | crates/link-audio/src/lib.rs:727-748 | after a mismatch both fields are written back, the gain first: each one that stores is as it was, whatever else fails; the rollback is reported as succeeded if and only if both writes and the reading answered and it is true |
| Audio.UnguardedReadback | crates/link-audio/src/lib.rs:727 | a concrete run that changes the gain and returns an ordinary error |
| Audio.CaptureElement.Set | crates/link-audio/src/lib.rs:673-748 | the transaction leaves the specified mixer and outcome |
| AudioMerge.MergeConserves | crates/link-audio/src/lib.rs:1009-1108 | the multiset of transports grows by exactly one for every source or sink node |
| AudioMerge.MergeGrows | crates/link-audio/src/lib.rs:1009-1108 | original endpoints keep position, identity, direction and known ranges, duplicate-free format lists stay so, and appended endpoints have one PipeWire transport |
| AudioMerge.MergeRoutes | crates/link-audio/src/lib.rs:1009-1108 | every transport that joined an endpoint is that of a node of the endpoint's own direction, brought there by its ALSA name or its card; every appended endpoint is made, field by field, for one node to which every original endpoint is foreign |
| AudioMerge.EveryNodeServed | crates/link-audio/src/lib.rs:1009-1108 | every source or sink ends up in an endpoint of its direction, with its transport, its format, a range where it has one, and the default mark where it is the default |
| AudioMerge.NormalizedExact | crates/link-audio/src/lib.rs:1517-1523 | a normalized name keeps ASCII letters and digits in order and in lower case, and nothing else |
| AudioMerge.MadeNeverAccepts | crates/link-audio/src/lib.rs:1044-1062 | an appended endpoint is never a merge target |
| AudioMerge.Inventory.FindTarget | crates/link-audio/src/lib.rs:1044-1062 | the search returns the first endpoint that accepts the node |
| AudioMerge.Inventory.MergePipewire | crates/link-audio/src/lib.rs:1009-1108 | the editing loop leaves the specified endpoints |
| Watch.HistoryReplays | crates/link-cli/src/lib.rs:11332-11419 | over every sequence of scans, replaying the events over the first map gives the latest map, and numbers rise by one |
| Watch.DiffReplays | crates/link-cli/src/lib.rs:11332-11419 | one scan: the replay gives the new map, with at most one event per key |
| Watch.DiffIsMinimal | crates/link-cli/src/lib.rs:11358-11415 | a key whose entry did not change has no event |
| Watch.DiffTells | crates/link-cli/src/lib.rs:11332-11419 | every event is true: its key came, went or changed mode, mount, profile or anything else just as its kind says, with the right snapshot; and a key has an event if and only if it came, went or changed |
| Watch.FirmwareWatchIsComplete | crates/link-cli/src/lib.rs:9679-9741 | the firmware watch's printed events alone, from nothing, rebuild the latest scan |
| Watch.Watcher.EmitInitial | crates/link-cli/src/lib.rs:9697-9700 | the opening loop prints one numbered event per device |
| Watch.Watcher.Observe | crates/link-cli/src/lib.rs:9703-9741 | one turn of the watch loop emits exactly the specified events |
| Watch.Watcher.ObserveAll | crates/link-cli/src/lib.rs:9703-9741 | the loop over scans emits the specified history |

## Left out

- ControlOrder.RollbackNeverMeetsClosedGate: asks for distinct controls, old values acceptable to their descriptors and a snapshot that could read what can be read; with repeated controls or an inserted prerequisite that is also requested the order claim does not apply.
- ControlProgress.QuietRequestsApply: is about requests that are planned with prerequisites; in raw mode the gates must be open already.
- ControlSafety.FallbackRefinesBatch: compares two runs on a device that stores what it accepts; a device that stores other values has no single result to compare with.
- ControlSafety.AllOrNothing: a restore is believed when the driver accepts it, as in the code, so the undo script of that claim stores what it is given; `ReopenFailed` is stated apart.
- Vendor.RollbackByteExact: needs the oldest write to each selector to start from bytes the codec can put back and undo transfers that store their payload; `Vendor.SingleRollbackExact` shows the first condition is exact.
- VendorGroup.WholeGroup: excludes transfers that leave other bytes than the payload or the old ones; `VendorUndo.GroupAllOrNothing` does not.
- VendorUndo.GroupAllOrNothing: needs undo transfers that store their payload and writes that start from live bytes the codec can put back; `Codec.PutBackExact` shows the second condition is exact for one write.
- PresetSafety.PresetAllOrNothing: the undo of a stage that reports success is taken to have restored its component; for controls, gain, mute and vendor bytes this is proved in their own modules, for video it is assumed.
- PresetFailures.FailedStepsExact: a plan with both a mute and a video step shares a number between them and is outside the claim; `PresetSafety.NumberingCollides` shows that no other does.
- CrashSafety.CrashSafe: covers processes that apply presets; other commands take the same lease and write without a journal.
- DaemonSafety.RecoveryNeverOverwrites: a plain rebuild after the pipeline is gone skips the advance and is outside the claim; `DaemonSafety.OpensExistingExact` covers every rebuild.
- Zoom.RampWrites: real arithmetic; the rounding of 64-bit floats is not modelled.
- Audio.GainError: real arithmetic; the rounding of 64-bit floats is not modelled.
- Bitmask, structured, raw and text profile codecs, and the parsing of textual values: the vendor transactions are proved over scalar controls.
- Menus, buttons, movement policy and names of standard controls: requests carry identifiers and values that are already parsed.
- The restart branch of vendor writes and its re-enumeration wait: in the preset model a restart is an irreversible stage.
- Preparing a preset (reading it, resolving controls, validation of fields): a plan is given by which steps are present and which are no-ops.
- Dry runs of presets and of the mixer: they return their report before any write.
- Rate limiting, sleeps and wall-clock time: logical time only.
- SHA-256, JSON and TOML: a digest is any state machine that absorbs bytes, and a report is stored as it is.
- The firmware operation report and its log file, version comparison and the U-Disk waiting loop.
- PipeWire gain and mute: the host layer is a foreign protocol; only the hardware mixer is modelled, for an element with both a volume and a switch.
- PipeWire property lookup and number parsing: a candidate arrives with its properties looked up.
- Status, snapshot and control requests of the daemon: they change at most the cached source, which `Inspect` covers.
- Operations on a live pipeline (adding and removing branches) either take effect or leave it unchanged; of the media crate only the check of the recording file is part of this model.
- Command parsing, output formatting, error codes and configuration layering: plumbing without a deep property.
