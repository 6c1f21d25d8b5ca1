# A verified model of the pillar-csi storage agent

The pillar-csi agent runs on a storage node and changes volumes, exports and
adopted filesystems on behalf of controllers that may be stale, duplicated or
late. Every volume ID has one durable *fencing mark*: the lifecycle that owns
the volume, the highest publication generation seen, whether the lifecycle
ended, the retired lifecycles, a pinned logical volume (LV) with its preserve
policy, the record of a recovery transfer, and the state of an adopted
filesystem. A request carries a (lifecycle, generation) token, and the mark
decides whether it may run.

This project models that protocol in Dafny, with the process and the machine
allowed to stop after any single effect, and proves what it keeps.

## How the model is built

- `Marks`, `FsAdmission`: the mark and the pure decisions on it (admission,
  import pins, retirement, transfer, filesystem state checks).
- `FencePrograms`: what each fenced section does to the node, as a list of
  effects (rename of the mark file, directory sync, mutation, answer). The
  outcome of every system call is an input.
- `FenceMachine`: all interleavings on one volume ID. The disk is the list of
  marks that may survive a power loss, durable mark first, visible mark last. A
  directory sync by another volume, a process crash and a power loss may come
  between any two effects.
- `FenceSafety`, `FenceTheorems`, `FenceRelease`: the invariant, its
  preservation by every step, and the guarantees over whole runs.
- `FencedVolumes`, `RecoveryEvidence`: the same sections as imperative methods,
  each proved to have exactly the effects of its program.
- `NativeExclusion`: two marks of one ZFS dataset, a block volume or a
  filesystem, and two locks.
- `FsPolicy`, `FsSafety`, `AdoptedFilesystems`: the adopted filesystem with its
  NFS policy and proxy mount. Each section leaves the trail of its steps, and a
  crash may resume from any of them.
- `FsRefinement`: every run of such sections, imports, retirements and crashes
  inside sections included, is a run of the fencing machine, so the guarantees
  over fenced runs hold of adopted filesystems as well.
- `DrainGate`, `RestoreGate`, `LockOrder`, `PortMdts`, `NvmeIdentity`,
  `MarkNames`, `ReconcileVolumes`: the remaining protocols around the mark.

## Findings

Some promises hold only under a condition. Each has a member that shows the
failure and one that states the exact condition.

- A release that finds its lifecycle already retired answers without a sync. If
  the earlier attempt lost its sync, a power loss after the answer brings the
  lifecycle back (`FenceRelease.ReleaseReplyMayBeForgotten`). The answer
  survives every power loss exactly when the call did not find the lifecycle
  already retired, or found that durable
  (`FenceTheorems.ReleaseAnswerSurvivesIff`).
- A recheck may pass a token whose mark was never synced
  (`FenceRelease.RecheckMayActUnsynced`). It acts under a durable mark exactly
  when its token had become durable (`FenceTheorems.RecheckIsDurableIff`).
  Callers get this by running the fenced prepare first in the same process.
- Changing the ACL mode of a filesystem export loses a client from the teardown
  record (`FsPolicy.ModeChangeLosesAClient`). The record covers the policy after
  an export exactly when no kept grant is missing from it
  (`FsPolicy.ShrinkIsCoveredIff`), which a fixed mode guarantees.
- `equalMarks` is documented as comparing serialized marks but compares seven
  fields, so marks that differ in filesystem state pass as equal
  (`Marks.ComparisonMissesFilesystems`). Where it is used, for admitted imports,
  it decides equality of the whole mark (`Marks.ImportComparisonIsExact`).

## Model

| member | source | states |
|---|---|---|
| `Marks.Admit` | internal/agent/fencing.go:663-724 | an admitted token owns the resulting mark, is not retired in it and never opens an ended lifecycle with a grant; the mark moves forward in the order of marks; `changed` is reported exactly when it differs |
| `Marks.AdmissionIsTheTokenContract` | proto/pillar_csi/agent/v1/agent.proto:52-73 | admission refuses exactly the tokens that the wire contract lists |
| `Marks.DominatedTokensStayOut` | internal/agent/fencing.go:663-724 | a mark that reached a generation, or retired the lifecycle, refuses every older token of it |
| `Marks.AdmissionChangesOnly` | internal/agent/fencing.go:663-724 | an admitted owner changes its generation alone; a new lifecycle starts open, with no transfer, no filesystem and no revoke-only flag, keeps pin and policy and retires exactly the previous owner |
| `Marks.PinImport` | internal/agent/fencing.go:502-530 | an import refuses exactly a different pin or a policy downgrade; the mark it leaves carries the requested pin, is preserved exactly when it was or the request asks for it, and is otherwise unchanged |
| `Marks.ImportComparisonIsExact` | internal/agent/fencing.go:171-175 | comparing the seven fields decides equality of the whole mark for every admitted import |
| `Marks.ComparisonMissesFilesystems` | internal/agent/fencing.go:170-175 | marks that differ only in filesystem state pass the seven-field comparison as equal |
| `Marks.Retire` | internal/agent/fencing.go:548-604 | an owner is retired only after its export was removed and with a current token; a non-owner's retirement changes nothing but the retired list |
| `Marks.RetirementIs` | internal/agent/fencing.go:548-604 | which of the four outcomes a release meets, and the exact mark each retirement writes |
| `Marks.TransferMark` | internal/agent/server_recovery.go:317-367 | a committed transfer retires the old owner, records the authorization, keeps the pin and is preserved exactly when it was or the authorization asks for it; it needs stopped evidence and an open lifecycle |
| `Marks.TransferCommitsIff` | internal/agent/server_recovery.go:317-367 | a transfer commits exactly when owner, generation, pin, policy and evidence agree with the authorization and its destination was never retired |
| `FsAdmission.State` | internal/agent/server_filesystem.go:352-375 | a non-import filesystem operation goes on only for the open owner whose descriptor equals the recorded one |
| `FsSafety.DecisionIff` | internal/agent/server_filesystem.go:180-318 | a filesystem request goes on exactly when the token contract admits it, it comes from the owner or imports, it names the recorded source and size, a grant states a size, and the source could be pinned; it is skipped exactly for a revoke of a lifecycle that does not own |
| `FsSafety.DecidedMarkIs` | internal/agent/server_filesystem.go:216-240 | the owner's mark changes in its generation alone; a first import records exactly the requested source and starts with nothing published |
| `FencePrograms.PlanFenced` | internal/agent/fencing.go:317-365 | a fenced section proceeds only with the token's own well-formed mark that extends the stored one; a re-sync happens only for an ended, pinned lifecycle |
| `FencePrograms.FencedRefusesIff` | internal/agent/fencing.go:317-365 | a fenced request is refused exactly when the token contract refuses it, the pin or the preserve policy forbids it, its LV is not the pinned one, or an adopted owner is active |
| `FencePrograms.FencedResyncsIff` | internal/agent/fencing.go:338-346 | only the repeated delete of an ended pinned lifecycle re-syncs without a mutation |
| `FencePrograms.FencedMarkIs` | internal/agent/fencing.go:384-432 | the mark a section proceeds with differs from the admitted one in the revoke-only flag alone, which a dataset section other than a revoke clears |
| `FencePrograms.PlanImport` | internal/agent/fencing.go:458-500 | an import proceeds with an open mark of the token that carries exactly the requested pin, preserved exactly when it was or is asked to be |
| `FencePrograms.ImportRefusesIff` | internal/agent/fencing.go:458-530 | an import is refused exactly for a token that the contract refuses, another pin, a policy downgrade or a failed read-only import |
| `FencePrograms.RetireRefusesIff` | internal/agent/server_release.go:89-101 | a retirement is refused exactly for an empty lifecycle or for an owner with a stale token, another LV behind its pin, or a preserved LV in use |
| `FencePrograms.RecheckActsIff` | internal/agent/fencing.go:613-646 | a recheck acts exactly for a token of the open owner and generation on record whose LV is the pinned one |
| `FencePrograms.TransferProceedsIff` | internal/agent/server_recovery.go:136-232 | a transfer section writes exactly for an authentic authorization that commits, and re-syncs exactly for its committed retry |
| `FenceSafety.ProgramOk` | internal/agent/fencing.go:317-382 | no section, stopped after any effect, leaves the order of marks or acts or answers beyond what disk backs |
| `FenceSafety.StepKeepsInv` | internal/agent/fencing.go:317-646 | every step of every interleaving, crashes and power losses included, keeps the invariant of disk, running section and log |
| `FenceSafety.EveryRunIsSafe` | internal/agent/fencing.go:317-646 | the invariant holds after every run from an empty disk |
| `FenceSafety.DurableMovesForward` | internal/agent/fencing.go:819-841 | along every run, power losses included, the durable mark only moves forward |
| `FenceSafety.VisibleMovesForward` | internal/agent/fencing.go:819-841 | without power loss the visible mark only moves forward |
| `FenceTheorems.GenerationsNeverDecrease` | internal/agent/fencing.go:317-382 | executed mutations of one lifecycle have non-decreasing generations over every run |
| `FenceTheorems.LifecyclesRunInBlocks` | internal/agent/fencing.go:663-724 | the mutations of a lifecycle form one block: once another lifecycle ran, it never runs again |
| `FenceTheorems.DeletedLifecycleStaysDeleted` | internal/agent/fencing.go:313-382 | after a successful delete no grant of that lifecycle runs, and a pinned one is not deleted again |
| `FenceTheorems.MutationsRunUnderADurableMark` | internal/agent/fencing.go:348-364 | when a mutation runs, the durable mark already names its lifecycle and generation |
| `FenceTheorems.PowerLossNeverReadmitsAnOlderToken` | internal/agent/fencing.go:729-739 | whatever mark a later power loss leaves, it refuses every token older than an executed one |
| `FenceTheorems.RecheckIsDurableIff` | internal/agent/fencing.go:613-646 | an admitted recheck acts under a durable mark exactly when its token had become durable |
| `FenceRelease.RecheckMayActUnsynced` | internal/agent/fencing.go:613-646 | a run from an empty disk after which a token whose mark was renamed but not synced passes a recheck that the durable mark does not back |
| `FenceTheorems.OneDigestPerDestination` | internal/agent/server_recovery.go:263-284 | over every run, two transfer answers for one destination carry the same authorization digest |
| `FenceTheorems.EveryMarkIsWellFormed` | internal/agent/fencing.go:47-88 | every mark that may be found on disk has a duplicate-free retired list, is ended when its owner is retired, and has a transfer record that names its owner |
| `FenceTheorems.RetiredListGrowsOnly` | internal/agent/fencing.go:548-604 | the durable retired list only grows along every continuation |
| `FenceTheorems.PinsAreForever` | internal/agent/fencing.go:502-530 | after an acknowledged LV import every mark that may survive keeps the pin and the preserve policy |
| `FenceTheorems.PinnedVolumesAreNeverReprovisioned` | internal/agent/server_volume.go:78-100 | after it Create never runs, Delete runs only on the pinned LV, and Delete and Expand never run when preserved |
| `FenceTheorems.DeleteRemovesOnlyTheVerifiedLv` | internal/agent/fencing.go:415-432 | every delete under a pin runs on the verified LV of an open, unpreserved lifecycle |
| `FenceTheorems.MutationsTouchOnlyThePinnedLv` | internal/agent/fencing.go:415-432 | over every run, each mutation other than a revoke or a filesystem publication that ran under a durable pin ran on the pinned LV |
| `FenceTheorems.PreservingTransfersProtect` | internal/agent/server_recovery.go:317-367 | after an acknowledged transfer that preserves, no Delete and no Expand runs later in any run |
| `FenceTheorems.ReleasedLifecycleStaysOut` | internal/agent/fencing.go:548-604 | after a release answer nothing of the lifecycle runs, unless the answer did not write the retirement and power was lost since |
| `FenceTheorems.ReleaseAnswerSurvivesIff` | internal/agent/fencing.go:572-598 | the retirement behind a release answer is in every mark that may survive exactly when the call did not find the lifecycle already retired, or found that durable |
| `FenceRelease.QuietRun` | internal/agent/server_release.go:60-83 | after the release's unexport no run of other requests, crashes and power losses exports for the lifecycle again, given the generation rule |
| `FenceRelease.NoExportWhenTheOwnerIsRetired` | internal/agent/server_release.go:60-83 | although the lock is dropped in between, no export exists when the owner's retirement is written |
| `FenceRelease.ReleaseReplyMayBeForgotten` | internal/agent/fencing.go:572-573 | a run from an empty disk in which a release's retirement loses its sync, the retry answers "already retired", power is lost, and an export of the lifecycle runs |
| `FenceRelease.SectionIsARun` | internal/agent/fencing.go:317-365 | running a section to its end is the same as executing its effects one by one in the machine |
| `FencedVolumes.FencedVolume.WriteFencingMark` | internal/agent/fencing.go:819-841 | success means the mark is durable; a rename without sync leaves the old marks possible; otherwise nothing changed |
| `FencedVolumes.FencedVolume.PersistFencingMark` | internal/agent/fencing.go:729-739 | success means the mark is durable even when it was not rewritten |
| `FencedVolumes.FencedVolume.RunFencedMutation` | internal/agent/fencing.go:370-382 | the lifecycle is recorded as ended only after a successful delete; success is reported exactly when the mutation and, for a delete, that record succeeded, and then the record is durable |
| `FencedVolumes.FencedVolume.FencedChecked` | internal/agent/fencing.go:317-365 | has exactly the effects of its program; it refuses exactly for the listed reasons and then changes nothing, and without faults succeeds otherwise; success leaves the token's mark durable |
| `FencedVolumes.FencedVolume.FencedImport` | internal/agent/fencing.go:458-500 | has exactly the effects of its program; it refuses exactly for the listed reasons and succeeds exactly otherwise when the mark could be read and made durable; success leaves exactly the requested pin and policy durable |
| `FencedVolumes.FencedVolume.RetireFence` | internal/agent/fencing.go:548-604 | refuses exactly for the listed reasons and without faults succeeds otherwise; it asks for the unexport exactly when the lifecycle still owns; an owner is retired only after its unexport, with its pinned LV in place and, if preserved, idle; retiring a non-owner keeps owner, generation, ended flag and pins |
| `FencedVolumes.FencedVolume.RecheckFence` | internal/agent/fencing.go:613-646 | writes no mark and acts exactly for the owner's current token and pinned LV; under the invariant it acts under a durable mark exactly when its token had become durable, which holds for every token this process prepared |
| `FencedVolumes.FencedVolume.TransferVolumeOwnership` | internal/agent/server_recovery.go:136-232 | COMMITTED and ALREADY_COMMITTED imply a durable mark of the destination with that digest and policy, UNKNOWN a visible one with nothing rolled back, a refusal no change; a commit had an authentic authorization, the old owner, its generation and stopped evidence, and such a request commits when the write succeeds |
| `FencedVolumes.FencedVolume.ReleaseVolume` | internal/agent/server_release.go:48-83 | at most two passes, each with its own I/O outcomes; success leaves the lifecycle retired; a retired owner leaves no export and had its pinned LV in place and, if preserved, idle, with other requests between the sections; undisturbed and without faults an owner is released exactly with a current token and that LV in place, and a non-owner in one pass |
| `RecoveryEvidence.AdmitsInitiatorsIff` | internal/agent/server_recovery.go:431-433 | an export admits initiators exactly when some host can do I/O through it |
| `RecoveryEvidence.VerifyTransferEvidence` | internal/agent/server_recovery.go:376-424 | accepts exactly when the observation proves that nobody on the node or the network reaches the pinned LV |
| `NativeExclusion.ManagedAndNativeNeverCoexist` | internal/agent/filesystem_legacy.go:29-93 | for a dataset of either type, in every run and on every mark pair that may survive, a managed and an adopted lifecycle are never both active |
| `NativeExclusion.WhoActedExcludesTheOther` | internal/agent/filesystem_legacy.go:29-93 | by history: in every directory that may survive, a lifecycle for which a managed mutation other than a revoke ever ran, and which has not ended, shares the dataset with no active adoption; the converse holds for lifecycles that published natively; none of them is forgotten |
| `NativeExclusion.StepKeepsInv` | internal/agent/server_filesystem.go:201-206 | every step of the two-lock protocol keeps the exclusion, by marks and by history, also half-way through both sections and beside the unguarded import |
| `NativeExclusion.ManagedActsUnlessAdopted` | internal/agent/filesystem_legacy.go:51-93 | from every state that the invariant allows, with the locks free and no adoption active, a managed section that is not refused can run to its mutation |
| `NativeExclusion.AdoptsUnlessManaged` | internal/agent/filesystem_legacy.go:29-49 | likewise an admissible import of a filesystem becomes the durable owner unless a managed owner is active |
| `NativeExclusion.AdoptedOwnerActs` | internal/agent/server_filesystem.go:180-318 | likewise an admissible publication of the adopted owner can run to its mutation |
| `NativeExclusion.CrashFreesTheLocks` | internal/agent/server_filesystem.go:201-206 | a process crash or power loss leaves neither lock taken |
| `NativeExclusion.NativeOpNeedsAnOwner` | internal/agent/server_filesystem.go:352-375 | an operation other than an import does nothing unless its adopted lifecycle is active |
| `FsPolicy.DesiredClients` | internal/agent/server_filesystem.go:655-665 | an exact export records the union of old and new clients and hands over the new ones; an ordinary one keeps the record |
| `FsPolicy.RecordGrowsFirst` | internal/agent/server_filesystem.go:624-633 | the record written before publishing covers the old and the new policy |
| `FsPolicy.ShrinkIsCoveredIff` | internal/agent/server_filesystem.go:645-651 | the record written after publishing covers the policy exactly when an ordinary ACL export kept no unrecorded grant |
| `FsPolicy.FixedModeIsCovered` | internal/agent/server_filesystem.go:607-653 | with a fixed ACL mode the record covers the policy after every export |
| `FsPolicy.GrantIsCovered` | internal/agent/server_filesystem.go:761-783 | a grant is recorded before the manager admits the client |
| `FsPolicy.DenyIsCovered` | internal/agent/server_filesystem.go:803-820 | a denial is covered by the record before and after it shrinks, and the client is no longer admitted by an ACL |
| `FsPolicy.ModeChangeLosesAClient` | internal/agent/server_filesystem.go:769-771 | a change of ACL mode, a failed export, a grant and a retry leave a client admitted that the record does not list |
| `AdoptedFilesystems.AdoptedFilesystem.Open` | internal/agent/server_filesystem.go:180-318 | before anything is touched the admitted token is durable; only an admissible request with a pinned source is opened, and every one without faults; a request of a lifecycle that does not own is skipped without effect |
| `AdoptedFilesystems.AdoptedFilesystem.PrepareTarget` | internal/agent/filesystem_proxy.go:127-158 | a missing target is claimed durably and made; an existing one must be owned and mounted or empty and is not changed; the exact conditions of success, and after a failure the directory is as before if the clean-up worked |
| `AdoptedFilesystems.AdoptedFilesystem.EnsureProxy` | internal/agent/filesystem_proxy.go:40-106 | success means a claimed, mounted proxy, under exactly the stated conditions of the node; a failure is rolled back if the clean-up worked; a mounted, foreign or non-empty target stays as it was |
| `AdoptedFilesystems.AdoptedFilesystem.RemoveProxy` | internal/agent/filesystem_proxy.go:226-290 | success means no target is left, exactly for an absent or owned empty one whose calls succeed; a failure at most unmounts it; an unowned one is untouched |
| `AdoptedFilesystems.AdoptedFilesystem.Withdraw` | internal/agent/server_filesystem.go:667-693 | nothing is exported afterwards, and the proxy stays exactly for a local publisher |
| `AdoptedFilesystems.AdoptedFilesystem.CommitExport` | internal/agent/server_filesystem.go:634-651 | a failed retry of a live export withdraws nothing; a failed first export leaves nothing exported once the manager withdrew it, and neither record nor proxy once the undo succeeded |
| `AdoptedFilesystems.AdoptedFilesystem.Publish` | internal/agent/server_filesystem.go:622-652 | publishes the requested policy under a record that covers it at each step |
| `AdoptedFilesystems.AdoptedFilesystem.TeardownMutation` | internal/agent/server_filesystem.go:909-938 | a deletion with any admitted client, or any release of an attached filesystem, is refused without effect; without faults a release goes on exactly otherwise on a removable target, clients on record or not |
| `AdoptedFilesystems.AdoptedFilesystem.Import` | internal/agent/server_filesystem.go:522-551 | success records the requested source for an open lifecycle of the token, and touches neither export nor proxy; without faults it succeeds exactly for an admissible request on a dataset with no managed owner |
| `AdoptedFilesystems.AdoptedFilesystem.Export` | internal/agent/server_filesystem.go:553-590 | success leaves a mounted proxy and the requested policy: everybody, the exact clients, or the kept grants |
| `AdoptedFilesystems.AdoptedFilesystem.Allow` | internal/agent/server_filesystem.go:736-783 | success means the client is recorded and admitted |
| `AdoptedFilesystems.AdoptedFilesystem.Deny` | internal/agent/server_filesystem.go:785-820 | success means the client is neither listed nor admitted by an ACL; a non-owner changes nothing |
| `AdoptedFilesystems.AdoptedFilesystem.Unexport` | internal/agent/server_filesystem.go:695-734 | success leaves nothing exported; the proxy is kept exactly when locally attached |
| `AdoptedFilesystems.AdoptedFilesystem.SetLocal` | internal/agent/server_filesystem.go:822-864 | attach leaves a mounted proxy; detach keeps it exactly when exported |
| `AdoptedFilesystems.AdoptedFilesystem.Restore` | internal/agent/server_filesystem.go:962-981 | the proxy of an attached or to-be-exported filesystem is mounted again, without faults exactly on a usable target |
| `AdoptedFilesystems.AdoptedFilesystem.Teardown` | internal/agent/server_filesystem.go:885-896 | success leaves no export, no proxy and no claim, and a deletion found no client admitted; without faults it succeeds exactly when nothing is attached, a deletion has no client on record and the target is removable |
| `AdoptedFilesystems.AdoptedFilesystem.RetireFence` | internal/agent/fencing.go:548-604 | an owner is retired after its teardown with nothing exported and the end durable; a non-owner's retirement leaves the owner's mark alone; without faults it fails exactly for an empty lifecycle or a stale token of the owner |
| `AdoptedFilesystems.AdoptedFilesystem.Crash` | internal/agent/fencing.go:819-841 | the node resumes from any step of the last section with any mark that could survive, and the invariant holds |
| `AdoptedFilesystems.AdoptedFilesystem.Serve` | internal/agent/server_filesystem.go:607-938 | over every run of sections, crashes inside them and outside events, at every step and for every mark that may survive: it is of a live lifecycle and lists each admitted client, it claims the proxy it publishes through, and a target directory appears only under a durable claim and changes only under recorded ownership |
| `AdoptedFilesystems.AdoptedFilesystem.ServeFenced` | internal/agent/server_filesystem.go:180-318 | every such run, imports, retirements and crashes inside sections included, is a run of the fencing machine that leaves the same disk |
| `AdoptedFilesystems.AdoptedFilesystem.ReleaseFilesystem` | internal/agent/server_filesystem.go:866-907 | with other requests in between, success leaves the lifecycle retired, nothing exported for it, and for a deletion no client was admitted at teardown; undisturbed and without faults an owner is released exactly when nothing is attached, a deletion has no client on record and the target is removable, and a non-owner always |
| `AdoptedFilesystems.AdoptedFilesystem.ReconcileFilesystem` | internal/agent/server_filesystem.go:940-997 | with other requests before each export, success leaves the proxy mounted and exactly the last listed policy; undisturbed and without faults it succeeds exactly on a usable target; with nothing to publish the target is untouched |
| `FsRefinement.ReplayIsTheProgram` | internal/agent/server_filesystem.go:298-318 | replaying the recorded mark writes of a mutation gives the same disk as executing its program in the fencing machine |
| `FsRefinement.MachineAllowsSection` | internal/agent/server_filesystem.go:180-318 | all disks that an operation, an import or a retirement may leave, after any write and any failure, are disks of its fenced program |
| `FsRefinement.FsProgramIff` | internal/agent/server_filesystem.go:180-318 | the fenced program of a filesystem request is empty for every request that is not admissible, and for no other when nothing fails |
| `FsRefinement.SectionIsAFencedRun` | internal/agent/server_filesystem.go:180-318 | every disk that a filesystem section may leave is reached by a run of the fencing machine, which keeps the machine's invariant |
| `FsRefinement.CrashInside` | internal/agent/fencing.go:819-841 | a process crash or power loss inside a filesystem section is one of the fencing machine inside the same section |
| `DrainGate.MarkerFindsNoHandlerRunning` | internal/agent/server_drain.go:39-55 | with any number of RPCs, no handler runs when the drain marker is written |
| `DrainGate.NoHandlerStartsAfterTheMarker` | internal/agent/server_drain.go:99-114 | none starts afterwards, not even one that passed the first check in time |
| `DrainGate.ExactlyOneDrainWins` | internal/agent/server_drain.go:39-55 | over every run, of all drains called exactly one goes for the marker and the others report the node as drained already |
| `DrainGate.DrainCanFinish` | internal/agent/server_drain.go:39-114 | from every reachable state the handlers can leave and the winning drain can write its marker and return |
| `DrainGate.UndrainedNodeServes` | internal/agent/server_drain.go:99-114 | from every reachable state of a node that is not drained, a request that arrives can be served |
| `DrainGate.DrainedNodeRefuses` | internal/agent/server_drain.go:99-114 | on a drained node a request is turned away at whichever check it meets |
| `DrainGate.ServedMeansStarted` | internal/agent/server_drain.go:99-114 | over every run, as many handlers were started as requests run or were served |
| `DrainGate.StepKeepsInv` | internal/agent/server_drain.go:39-114 | once a drain took the gate, no step starts a handler |
| `RestoreGate.Reconcile` | internal/agent/protocol_handler.go:391-426 | all entries with a target are prepared, then exactly the prepared ones are linked, and an entry succeeds exactly when all three phases did |
| `RestoreGate.LinksComeLast` | internal/agent/protocol_handler.go:391-426 | when an entry is linked its own prepare succeeded and the prepare of every entry with a target was attempted before |
| `RestoreGate.ActsAre` | internal/agent/protocol_handler.go:391-426 | an entry is prepared exactly when its target was built, and linked exactly when its prepare succeeded as well |
| `RestoreGate.ActsAreDistinct` | internal/agent/protocol_handler.go:391-426 | no entry is prepared or linked twice |
| `RestoreGate.OnlyACompleteRequestLinksWhilePending` | internal/agent/server_reconcile.go:43-70 | over every run with restarts, in which batches with failed entries step through the handler's own trace: a link while the restore is pending belongs to a complete request, and every reconcile link comes after all prepares of its batch |
| `RestoreGate.CompleteRequestOpensTheGate` | internal/agent/server_reconcile.go:57-59 | whatever entries fail, a complete request attempts the link of every prepared entry and opens the gate |
| `RestoreGate.SinglesLinkIffOpen` | internal/agent/server_reconcile.go:43-70 | a single export that arrives can be linked exactly when the restore is over |
| `RestoreGate.RestartGatesAgain` | internal/agent/server_reconcile.go:43-70 | after every restart, until a complete request has finished, each link belongs to a complete request |
| `LockOrder.LockTargets` | internal/agent/protocol_handler.go:513-535 | the locks of exactly the batch's targets are taken, once each, in strictly increasing order |
| `LockOrder.PlanLocks` | internal/agent/protocol_handler.go:391-426 | the drain gate, the locks of a batch and the fences of its entries, and nothing else, form a thread that acquires in order |
| `LockOrder.NoCyclicWait` | internal/agent/protocol_handler.go:513-535 | any number of requests with the order of lockTargets and their fences, and the drain, never wait for each other in a circle, the drain gate included |
| `PortMdts.CollectFloors` | internal/agent/protocol_handler.go:474-499 | the floor of an endpoint is the least valid non-zero limit on it, and absent when there is none |
| `PortMdts.SetPortMdtsFloors` | internal/agent/protocol_handler.go:474-507 | every target gets the floor of its endpoint in place; one without a floor keeps its field |
| `PortMdts.FloorIsUnique` | internal/agent/protocol_handler.go:474-507 | the floor depends on the set of targets only, not on their order |
| `PortMdts.EndpointsAgreeIff` | internal/agent/protocol_handler.go:474-499 | targets share a floor exactly when they have the same address and the same port, where 0 and 4420 are the same |
| `PortMdts.BatchNeverConflicts` | internal/agent/nvmeof/configfs.go:958-1019 | linking a batch with one floor on an idle port succeeds in any order |
| `PortMdts.SizeRoundTrips` | internal/agent/nvmeof/configfs.go:901-915 | every valid size is recovered from its param_mdts value, and no limit stays no limit |
| `PortMdts.ValidSizeIff` | internal/agent/nvmeof/configfs.go:891-899 | the accepted sizes are 0 and the powers of two from 2^13 to 2^30 |
| `PortMdts.ConflictIff` | internal/agent/nvmeof/configfs.go:990-1005 | a port in use refuses an export exactly when it advertises more bytes than the export allows |
| `PortMdts.IdlePortAdvertises` | internal/agent/nvmeof/configfs.go:1007-1019 | an idle port advertises the smaller of the export's limit and the floor, where 0 and absence are no limit |
| `PortMdts.BatchAdvertisesTheFloor` | internal/agent/nvmeof/configfs.go:958-1019 | a batch on an idle port leaves it advertising exactly the floor, so no export is offered more than it allows |
| `PortMdts.FloorsServeEveryOrder` | internal/agent/nvmeof/configfs.go:958-1019 | targets that hold the floor of their endpoint link to an idle port in any order |
| `PortMdts.PreparePorts` | api/v1alpha1/pillarprotocol_types.go:102-116 | after the floors of a fresh batch are set, its targets link to an idle port in any order without a conflict |
| `NvmeIdentity.Export.Resolve` | internal/agent/nvme_identity.go:73-119 | each identifier is the live one, else the one recorded for this lifecycle, else the derived one; it is remembered for the lifecycle and recorded exactly when it cannot be derived; without faults it succeeds exactly for a valid identity |
| `NvmeIdentity.ResolutionIs` | internal/agent/nvme_identity.go:73-119 | a record counts for its own lifecycle only; that of another one is ignored |
| `NvmeIdentity.IdentityIsStable` | internal/agent/nvme_identity.go:70-119 | over every sequence of resolves, applies and losses of one lifecycle the identity stays the first one, an apply makes it live, and a record exists exactly when it differs from the derived one |
| `MarkNames.FencingFilename` | internal/agent/fencing.go:215-230 | the builder loop computes the encoded name |
| `MarkNames.EncodingIsAPrefixCode` | internal/agent/fencing.go:211-230 | encode(a) is a prefix of encode(b) exactly when a is a prefix of b |
| `MarkNames.DecodeEncode` | internal/agent/fencing.go:211-230 | every volume ID is recovered from its encoded name |
| `MarkNames.ReadableIff` | internal/agent/fencing.go:211-230 | exactly the IDs of letters, digits, dots and dashes are their own encoded names |
| `MarkNames.DistinctIdsHaveDistinctFiles` | internal/agent/fencing.go:211-230 | distinct volume IDs never share a mark file |
| `MarkNames.NamesArePortable` | internal/agent/fencing.go:211-230 | mark and temp file names hold letters, digits, dots, dashes and underscores only, so no path separator |
| `MarkNames.MarkAndTempNamesNeverCollide` | internal/agent/fencing.go:830-836 | no temp file is a mark file of any ID, nor taken for one |
| `MarkNames.ScanSelectsNativeMarks` | internal/agent/filesystem_legacy_owner.go:46-60 | the scan's prefix test selects exactly the IDs under "filesystem/" |
| `MarkNames.HasActiveZfsFilesystemOwner` | internal/agent/filesystem_legacy_owner.go:20-62 | inactive exactly when every native mark is readable and inactive; otherwise the first mark that is not decides: active for a consistent active one, failure for any other |
| `ReconcileVolumes.Reconcile` | internal/agent/server_reconcile.go:75-115 | every export of a resolvable volume goes to exactly one call, one call per protocol in first-seen order; a volume reports its resolution error, else the first error of its own exports, else success |
| `ReconcileVolumes.ResolveVolumeHandlers` | internal/agent/server_reconcile.go:121-161 | reports the first resolution error, and extends the protocol list in first-seen order by what it looked up |
| `ReconcileVolumes.FirstSeenIsOrdered` | internal/agent/server_reconcile.go:134-146 | the protocol list is ordered by first appearance |
| `ReconcileVolumes.BatchIsExact` | internal/agent/server_reconcile.go:84-101 | a batch holds exactly the exports of its protocol of resolvable volumes |
| `ReconcileVolumes.BatchIsInRequestOrder` | internal/agent/server_reconcile.go:84-101 | within a protocol exports keep the request order and none is listed twice |
| `ReconcileVolumes.SucceedsIffAllApplied` | internal/agent/server_reconcile.go:103-115 | the handlers report success for a volume exactly when each of its own exports was applied |
| `ReconcileVolumes.FirstFailureIsFirst` | internal/agent/server_reconcile.go:109-113 | the error reported for a volume is that of its first failed export |

## Left out

- Real file, mount, configfs, device and network I/O: every outcome is an input of the model.
- Signatures, TLS, digests and snapshot binding of a recovery transfer: one boolean input.
- Backends and the kernel: a mutation succeeds or fails, and its log entry names the LV behind the volume.
- The NFS manager: only its contract, a call that fails leaves the old or the new policy.
- The observation behind the release of a preserved LV (internal/agent/server_release.go:117-151): one boolean input, as it is a chain of single checks.
- gRPC status codes, telemetry, request validation and error texts beyond done, refused, failed and unknown.
- The iSCSI handler, which has the same two phases as NVMe, and the CHAP and endpoint checks.
- Kubernetes reconcilers, CRDs, the node plugin and the command line programs.
- The mapping from an adopted dataset to its legacy volume name: the lookup is taken as consistent, and a dataset keeps its type.
- Generations are unbounded naturals; the 64-bit width is not modelled.
- FsPolicy.FixedModeIsCovered: needs the ACL mode fixed for the volume's lifetime, as the export spec records it.
- FenceRelease.NoExportWhenTheOwnerIsRetired: takes the controller's rule that a grant carries a generation below the one that releases (api/v1alpha1/pillarvolumestate_types.go:719-729).
- AdoptedFilesystems.AdoptedFilesystem.RetireFence: a retirement after a teardown takes the same rule, as a grant at or above the release's generation may have published again.
- AdoptedFilesystems.AdoptedFilesystem.Serve: takes the same rule for the tokens of the run.
- NvmeIdentity.IdentityIsStable: record writes are atomic, and a resolve whose record is unchanged claims no power-loss durability.
