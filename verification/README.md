# Verified model of Crabbox's hardest state machines

Crabbox leases machines from cloud providers and runs work on them. This project models, in Dafny 4.11, the
parts of it that decide whether a machine is paid for twice, a snapshot is lost, a cached image is corrupted
or a runner serves the wrong registration, and proves what those parts promise for every input and every
run. `dafny verify dfyconfig.toml` checks all of it.

| file(s) | what it models |
|---|---|
| `AwsErrors`, `AwsLaunch`, `AwsLauncher` | the EC2 launch search over regions, instance types and markets, with the durable attempt of a fixed lease |
| `AwsLaunchSafety`, `AwsLaunchTheorems`, `AwsLaunchTerminal`, `AwsLaunchPass` | what every run of that search keeps |
| `AwsLaunchRequests`, `AwsLaunchRegions` | that every request is the one of its try, and where the search goes and stops |
| `AwsLaunchWorld`, `AwsLaunchHazard`, `AwsLaunchSingle`, `AwsLaunchRelease` | exactly when it stops keeping it: failures recorded without EC2's word, two launches in one run; and why the shipped callback prevents both |
| `AwsCheckpoint` | resumable deletion of an image and its snapshots |
| `ImageStaging`, `ImageStagingSafety`, `ImageStagingProgress` | writers, cloners, cleaners and crashes around the image cache |
| `ImageCopy`, `Qcow2`, `Qcow2Exact` | the sparse copy loops; validation of a qcow2 header with 64-bit arithmetic |
| `RunnerRegistration`, `RunnerActivation` | claim, guest settings, GitHub and listener of an Actions runner |
| `ActionsCapture`, `ActionsScript`, `Heredoc` | capture and rendering of local composite actions; the heredoc printer |
| `AzureCleanup`, `AzureCleanupRun`, `AzureCleanupEnd`, `AzureCleanupHealthy` | revalidate-then-delete against a world that changes, when it gives up and when it goes through |
| `YamlNodes`, `WorkflowPins`, `WorkflowJobs`, `WorkflowPinsSearch`, `WorkflowPinsTheorem`, `WorkflowPinsExact`, `WorkflowPinsUnfollowed`, `WorkflowPinsChecker` | the workflow pin checker on node graphs with aliases, merges and cycles |
| `Signing`, `JsonKeys` | the signing encoding; the duplicate-key scan |
| `Shards`, `ShardSelection` | test sharding |
| `CaptureCheck` | the exact device-to-snapshot correspondence of a captured image |
| `Relay` | the adapter relay's two bounded pools |

## How it is modelled

Cloud APIs, callbacks, clocks and file systems are oracles. In the launch search and in the Azure cleanup an
oracle answers as an arbitrary function of the whole history so far, so one `World` is one behaviour of the
environment and a statement for every `World` is a statement for every run; in the checkpoint deletion and in
the copy loops it is a schedule of arbitrary fates. Concurrency is a state machine whose steps are single
system or service calls: a statement about every execution covers every interleaving and every crash point.

Where the program updates variables in loops or fields of an object, the model has a method or a class that
does so, and the method is proved equal to a specification function about which the theorems are stated, or
its `ensures` states the property outright.

Errors are sets of the phrases that the program looks for in an error's text, because retryability is a
substring test; joining errors is the union of their phrases.

## What the proofs found

- `TerminalRejection` is set by a terminal rejection and never reset. If the rejected launch was not the
  first try of its region and the rollback recorded it, the joined error still names a retryable condition,
  the search moves to the next region, and there the key pair of an attempt whose outcome is unknown is deleted
  and the attempt recorded as failed. `AwsLaunchHazard.UnknownLaunchIsWrittenOff` builds such a run for every
  configuration, home and list of two or more regions. `AwsLaunchHazard.JustifiedIff` says exactly when a caller
  is safe from it in every world, for every control or none; for a fixed lease with a clear flag that is when
  there is no second region (`FixedLeaseJustifiedIff`). One pass entered with the flag down is always safe
  (`AwsLaunchPass.PassAddsOnlyJustified`).
- The same flag can start two instances in one call. Regions `a`, `b`, `c`, each with two types of which the first
  is refused for capacity: in `a` the second is refused with AuthFailure, in `b` the answer to the second is lost and
  the flag writes it off, and in `c` the first is launched. `AwsLaunchSingle.ThreeRegionsLaunchTwice` builds that run
  for every configuration, home, fixed lease and list of three or more regions. For a fixed lease with a clear flag,
  every request of a run but the last was definitely rejected, in every world, if and only if there are at most
  two regions (`FixedLeaseSingleLaunchIff`); `SingleLaunchIff` is the exact condition for every control or none.
- Both need a callback that admits an attempt after the lease's terminal rejection was recorded. The AWS backend's
  does not: recording one sets the intent's state to released, and a submission needs a prepared one
  (internal/cli/fixed_lease_claim.go:34-37, internal/cli/fixed_lease_engine.go:144-156). With any callback of that kind
  every run of a fixed lease is justified and sends no request after one that may have started an instance, over any
  number of regions (`AwsLaunchRelease.ReleasedLeaseIsSafe`).
- If the guest boots between the inspection that sees its listener stopped and the step that disables the
  boot service, new runner settings are written under a running listener that the claim does not know
  (`RunnerActivation.BootInBetweenBreaksIt`). `BrokenExactlyByInstall` shows that nothing else breaks the
  agreement, and `ListenerServesTheClaim` that it holds in every run without such a boot. What a caller can check
  beforehand: for one register call begun in any idle and fit state, every schedule keeps the agreement if and only if
  the boot service is disabled when the call begins (`RegisterStaysFitIff`).
- A checkpoint whose recorded account is white space skips the account check, which trims it, but counts as naming an
  account where the image is missing, which does not: its snapshots are deleted without proof of the account.
  `AwsCheckpoint.UnconfirmedAccountIsSafeIff` shows that this is the only way around the check.
- An empty candidate list for a type that was not asked for explicitly makes a region report success without
  a server (`AwsLaunchTerminal.SilentSuccessIff`).
- The length prefix of the signing encoding is 32 bits wide: a field of 2^32 bytes collides with 2^30 + 1
  empty ones (`Signing.LongValuesCollide`); below that length the encoding is injective
  (`Signing.DecodesIff` is exact).
- Jobs that a workflow's `jobs` mapping gets through a YAML merge are not scanned by the pin checker, although
  merges are followed everywhere else: `jobs: {<<: {build: {uses: owner/action@main}}}` passes in every
  repository (`WorkflowPinsExact.MergedJobPasses`). `WorkflowJobs.ScanIsCompleteIff` gives the exact condition on
  a document: every use of every job is scanned if and only if no merge into `jobs` brings in a job with a use that
  the entries of `jobs` do not have.
- A local reference that starts with `./.github/workflows/` and ends like a YAML file is not followed, although it can
  name a local action: a step that uses `./.github/workflows/../b.yml`, a directory whose `action.yml` uses
  `owner/action@main`, gives no finding (`WorkflowPinsUnfollowed.DetourPasses`; `UnfollowedActionPasses` for every
  repository with such a directory). The references that are followed reach every local action that any reference
  reaches if and only if whatever such a reference names is also reached by others
  (`WorkflowPinsExact.EveryActionIsFollowedIff`).
- Sharding is better than its documented purpose needs: heaviest-first placement stays within 4/3 - 1/(3 n) of
  every other placement's largest load (`Shards.GreedyIsBalanced`).

## Model

| member | source | states |
|---|---|---|
| `AwsErrors.RetryableIsMonotone` | internal/cli/aws.go:1540-1588 | joining an error with others never makes it less retryable, for a type or for a region |
| `AwsLaunch.ReportedError` | internal/cli/aws.go:834-843 | a terminal rejection is reported without any retryable phrase; a retryable report means a definite, non-terminal rejection |
| `AwsLaunchRequests.RequestsMatchTheirTries` | internal/cli/aws.go:618-648 | in every run, for every control or none: each request is noted as a try of its own type and market before anything else is sent, and that try succeeded exactly if an instance was started; the request could be prepared and is for the region last entered, with the group and the image found there for its type; a fixed lease sends the key bound there and the token of exactly that request, any other the lease id |
| `AwsLaunchRequests.RunIsTied` | internal/cli/aws.go:503-537 | a run that returns a server names the last request it sent, and that one started an instance |
| `AwsLaunchRequests.RegionPassIsTied` | internal/cli/aws.go:543-653 | a pass enters exactly its region, and all its requests belong there |
| `AwsLaunchRequests.BoundKeyIs` | internal/cli/aws.go:235-274 | a key is bound exactly if it was found foreign or ours, or was missing and imported; it is managed exactly if it has an id, the one found or imported |
| `AwsLaunchRegions.SearchVisitsInOrder` | internal/cli/aws.go:507-535 | the search visits the regions in the order of the list, passes over those without a client, goes on after a region exactly if that failed retryably with nothing pinned, and answers with its last success or with all errors |
| `AwsLaunchRegions.RunEntersTheVisited` | internal/cli/aws.go:503-537 | a run over several regions enters exactly the visited ones that have a client, in that order |
| `AwsLaunchRegions.RunEntersHome` | internal/cli/aws.go:503-537 | a run over at most one region enters the configured one; with an attempt pinned at entry no run does anything |
| `AwsLaunchRegions.AdmissionIs` | internal/cli/aws.go:820-833 | an attempt whose token is known to have failed is passed over as if there were no capacity, one that comes while another is pinned ends the sweep, any other is up to the callback |
| `AwsLaunchRegions.RollbackIs` | internal/cli/aws.go:558-583 | which key goes, in which order the failure is recorded, and that the answer holds every error there was |
| `AwsLaunchRegions.PassFailsWith` | internal/cli/aws.go:543-601 | a pass that cannot list candidates, bind its key, or look up image or group fails with that error, after the rollback where a key was bound |
| `AwsLaunch.EnsureKeyBinding` | internal/cli/aws.go:235-274 | a managed key has an id, it counts as created exactly when it was missing, and created keys are managed |
| `AwsLaunchSafety.AdmitKeeps` | internal/cli/aws.go:820-833 | nothing is admitted while an attempt is unresolved or with a failed token; an admitted attempt is recorded durably and pinned |
| `AwsLaunchSafety.SettleKeeps` | internal/cli/aws.go:834-849 | after a rejection the control mirrors the history, and a failure is recorded only on EC2's definite word |
| `AwsLaunchSafety.SendKeeps` | internal/cli/aws.go:834-855 | one request, whatever its outcome, keeps the whole invariant |
| `AwsLaunchSafety.TryAllKeeps` | internal/cli/aws.go:618-648 | a sweep over candidates keeps the invariant for every world |
| `AwsLaunchSafety.RollbackKeeps` | internal/cli/aws.go:558-583 | the deferred rollback deletes no key of an ambiguous attempt and records a terminal rejection only after the managed key is gone |
| `AwsLaunchSafety.RegionPassKeeps` | internal/cli/aws.go:543-653 | a whole region pass keeps the invariant |
| `AwsLaunchSafety.SearchRegionsKeeps` | internal/cli/aws.go:507-535 | so does the search over all regions |
| `AwsLaunchTheorems.RunKeeps` | internal/cli/aws.go:503-537 | every fixed-lease run ends with the control naming exactly the unresolved attempt; success names a launched, pinned attempt |
| `AwsLaunchTheorems.FixedLeaseRunIsSafe` | internal/cli/aws.go:503-537 | in every run, across regions, types and markets, each request directly follows its own durable record, uses no token that failed before the call or was recorded as failed earlier in the run, and is sent while nothing is unresolved; failures and key deletions are justified until the search moves past a terminal rejection |
| `AwsLaunchTheorems.OpenUntilRejected` | internal/cli/aws.go:820-849 | a launch stays the unresolved attempt until EC2 definitely rejects it |
| `AwsLaunchTheorems.NoDoubleLaunch` | internal/cli/aws.go:820-855 | in the part of a fixed lease's history that is not past a terminal rejection, every request followed by another was definitely rejected; whole runs are the subject of `SingleLaunchIff` |
| `AwsLaunchTheorems.SweepFollowsCandidates` | internal/cli/aws.go:618-648 | a sweep tries the candidates in order, stops exactly at a success or a non-retryable error, and collects exactly the errors and market fallbacks of its tries |
| `AwsLaunchTerminal.MarketsFollowPlan` | internal/cli/aws.go:602-652 | the on-demand round tries exactly the candidates whose spot refusal allows it, in order, and only after all were refused |
| `AwsLaunchTerminal.RegionFollowsPlan` | internal/cli/aws.go:543-653 | every region pass that launches anything follows that plan |
| `AwsLaunchTerminal.TerminalStopsSweep` | internal/cli/aws.go:627-629 | a terminal rejection ends its sweep at once |
| `AwsLaunchTerminal.TerminalInMarkets` | internal/cli/aws.go:602-652 | after a terminal rejection the joined error is region-retryable exactly when there were at least two tries |
| `AwsLaunchTerminal.TerminalRejectionLeavesRegionIff` | internal/cli/aws.go:539-541 | the search goes on to another region after a terminal rejection exactly when the rollback resolved the attempt and it was not the first try |
| `AwsLaunchTerminal.SingleTryStopsAtTerminal` | internal/cli/aws.go:525-529 | with one candidate and one market a terminal rejection ends the search |
| `AwsLaunchTerminal.SilentSuccessIff` | internal/cli/aws.go:618-652 | success without a launch happens exactly for an empty candidate list of a non-explicit type |
| `AwsLaunchHazard.UnknownLaunchIsWrittenOff` | internal/cli/aws.go:556-583 | for every configuration, home, list of two or more regions and control that can pin and clear: a run that deletes the key of an attempt of unknown outcome and records it as failed |
| `AwsLaunchHazard.StaleFlagIsRead` | internal/cli/aws.go:558-583 | a flag that is already up at entry is read in the first region, with the same result |
| `AwsLaunchHazard.JustifiedIff` | internal/cli/aws.go:503-583 | for every configuration, control or none, home and regions: in every world failures are recorded and keys deleted only on EC2's word if and only if no attempt can be pinned, or the flag is down at entry and there is either no way to clear an attempt or no second region |
| `AwsLaunchHazard.FixedLeaseJustifiedIff` | internal/cli/aws.go:503-583 | for a fixed lease with the flag down, exactly when there is at most one region |
| `AwsLaunchSingle.PassCloses` | internal/cli/aws.go:543-653 | a pass entered with every request rejected, whatever the flag and the callbacks, sends at most one that is not; that one stays pinned if attempts are recorded and the flag was down or cannot be acted upon |
| `AwsLaunchSingle.SingleEntryStartsOne` | internal/cli/aws.go:503-537 | within that number of regions every request of a run but the last was definitely rejected, in every world |
| `AwsLaunchSingle.ThreeRegionsLaunchTwice` | internal/cli/aws.go:503-583 | for every configuration, home, list of three or more regions and control that can pin and clear: a run that succeeds after an earlier request of unknown outcome |
| `AwsLaunchSingle.LooseEntryLaunchesTwice` | internal/cli/aws.go:503-583 | without a record of attempts, or with the flag up at entry, two regions are enough for that |
| `AwsLaunchSingle.SingleLaunchIff` | internal/cli/aws.go:503-583 | for every configuration, control or none, home and regions: in every world each request but the last was definitely rejected if and only if an attempt is pinned at entry, or attempts are recorded and never cleared, or there are at most two regions (at most one if attempts are not recorded or the flag is up) |
| `AwsLaunchSingle.FixedLeaseSingleLaunchIff` | internal/cli/aws.go:503-583 | for a fixed lease with the flag down, exactly when there are at most two regions |
| `AwsLaunchRelease.TerminalIsPinnedOrReleased` | internal/cli/aws.go:558-583 | after a terminal rejection the attempt is unresolved or the lease was released |
| `AwsLaunchRelease.PassStaysOver` | internal/cli/fixed_lease_engine.go:144-156 | a pass for a released lease sends nothing, records nothing and deletes no key of an unresolved attempt |
| `AwsLaunchRelease.ReleasedLeaseIsSafe` | internal/providers/aws/backend.go:275-283 | with a callback that refuses attempts of a released lease, every run over any number of regions is justified and sends no request after one that may have started an instance |
| `AwsLaunchPass.PassIsJustified` | internal/cli/aws.go:543-653 | a pass entered with the flag down keeps the history justified, whichever callbacks there are |
| `AwsLaunchPass.PassAddsOnlyJustified` | internal/cli/aws.go:543-583 | in one pass entered with the flag down, whatever went before: DefiniteFailure is recorded only for an attempt that EC2 rejected with a retryable or terminal code, no key is deleted while an ambiguous attempt is pinned, and a terminal rejection is recorded only after the managed key is gone |
| `AwsLaunchPass.SafeEntryIsJustified` | internal/cli/aws.go:503-537 | a call entered that way is justified in every world |
| `AwsLauncher.Launcher.Admit` | internal/cli/aws.go:820-833 | the durable gate, on the mutable control, is the specified one |
| `AwsLauncher.Launcher.Send` | internal/cli/aws.go:834-855 | request and settlement on the mutable control are the specified ones |
| `AwsLauncher.Launcher.TryAll` | internal/cli/aws.go:618-648 | the loop over candidates computes the specified sweep |
| `AwsLauncher.Launcher.Rollback` | internal/cli/aws.go:558-583 | the deferred rollback computes the specified one |
| `AwsLauncher.Launcher.RegionPass` | internal/cli/aws.go:543-653 | a region pass computes the specified one |
| `AwsLauncher.Launcher.SearchRegions` | internal/cli/aws.go:507-535 | the loop over regions computes the specified search |
| `AwsLauncher.Launcher.CreateServerWithFallback` | internal/cli/aws.go:503-537 | the whole search computes the specified one and keeps the safety invariant for a fixed lease |
| `AwsCheckpoint.UniqueKeeps` | internal/cli/gcp.go:753-765 | deduplication keeps exactly the non-blank ids, trimmed, each once |
| `AwsCheckpoint.ListIsExact` | internal/cli/aws.go:1040-1044 | the list a call works with names every undeleted backing snapshot and the durable list, and nothing else |
| `AwsCheckpoint.CallKeepsCustody` | internal/cli/aws.go:1026-1065 | no call, however it fails, loses an undeleted backing snapshot or touches another one; success means image and snapshots are gone |
| `AwsCheckpoint.EveryRunKeepsCustody` | internal/cli/aws.go:1026-1065 | the same over any sequence of failed or crashed calls resumed with the durable list |
| `AwsCheckpoint.SnapshotDeletedIff` | internal/cli/aws.go:1097-1124 | a snapshot is deleted if and only if some request within the attempts there are is confirmed, or told that there is no such snapshot, after others that were all answered with a retryable error and not cancelled; and that request is the last one made |
| `AwsCheckpoint.DefiniteRefusalEndsIt` | internal/cli/aws.go:1105-1121 | after a definite refusal or a cancelled wait exactly one request was made |
| `AwsCheckpoint.DeletionsStopAtFailure` | internal/cli/aws.go:1059-1063 | snapshots are deleted in order, and what comes after the first that cannot be deleted is not touched |
| `AwsCheckpoint.UnprovenCallTouchesNothing` | internal/cli/aws.go:1027-1048 | a call in another account, without proof that the image is gone, or with no snapshot to delete fails and touches nothing |
| `AwsCheckpoint.CallSucceedsIff` | internal/cli/aws.go:1051-1065 | any other call succeeds if and only if the list is saved, the image deregistered and every snapshot deleted, in that order; no snapshot is touched before the image is gone, nor the image before the list is saved |
| `AwsCheckpoint.UnconfirmedAccountIsSafeIff` | internal/cli/aws.go:1027-1039 | no world makes a call succeed in an account that neither was confirmed nor holds the image if and only if the expected account is empty or more than white space |
| `AwsCheckpoint.HealthyCallSucceedsIff` | internal/cli/aws.go:1026-1065 | with a healthy provider one more call finishes exactly if some snapshot was ever recorded or can be found |
| `AwsCheckpoint.Checkpoint.DeleteSnapshotWithRetry` | internal/cli/aws.go:1097-1124 | the retry loop is the specified one, which `SnapshotDeletedIff` describes |
| `AwsCheckpoint.Checkpoint.DeleteImageCheckpoint` | internal/cli/aws.go:1026-1065 | the call is the specified one, persisting before it deregisters or deletes |
| `ImageStaging.StepKeepsInv` | internal/applevmhelper/runtime_darwin_arm64.go:634-660 | every system call of every process keeps the lock and name invariant |
| `ImageStaging.NewcomerKeepsInv` | internal/applevmhelper/runtime_darwin_arm64.go:634-660 | so does the arrival of a new process |
| `ImageStagingSafety.ReachableIsConsistent` | internal/applevmhelper/runtime_darwin_arm64.go:634-765 | every reachable state satisfies it |
| `ImageStagingSafety.StagingFileIsSafe` | internal/applevmhelper/runtime_darwin_arm64.go:332-377 | in every interleaving a writer still staging finds its file under its name, locked by itself |
| `ImageStagingSafety.CleanupRemovesOnlyAbandoned` | internal/applevmhelper/runtime_darwin_arm64.go:706-765 | cleanup unlinks a staging name only when no live writer will use it again |
| `ImageStagingSafety.PublishedFileStays` | internal/applevmhelper/runtime_darwin_arm64.go:706-765 | no step but a publication under the same name changes a published file |
| `ImageStagingSafety.PublishesStagedFile` | internal/applevmhelper/runtime_darwin_arm64.go:332-377 | what is published is the file its writer staged and still holds locked |
| `ImageStagingSafety.RetiredStays` | internal/applevmhelper/runtime_darwin_arm64.go:706-765 | a name nobody will use again stays so, and its file never comes back |
| `ImageStagingSafety.FinishedCleanupLeavesNoOrphan` | internal/applevmhelper/runtime_darwin_arm64.go:706-765 | once a cleanup finishes without error, everything abandoned when it listed the directory is gone |
| `ImageStagingSafety.CrashAbandons` | internal/applevmhelper/runtime_darwin_arm64.go:706-765 | a writer's crash, at any point where it has a staging name, retires the name and abandons the file if it is there |
| `ImageStagingSafety.CrashedTempIsRemoved` | internal/applevmhelper/runtime_darwin_arm64.go:706-765 | in every execution a staging file whose writer crashed is gone once a cleanup that listed the directory after the crash has finished without error |
| `ImageStagingProgress.StagingCanPublish` | internal/applevmhelper/runtime_darwin_arm64.go:261-330 | in every execution a writer that has staged its file can publish it: the staging name is gone, the published name holds the file, nothing else in the directory changes |
| `ImageStagingProgress.WriterGoesThrough` | internal/applevmhelper/runtime_darwin_arm64.go:261-330 | from every state in which the directory is free, an undisturbed writer publishes a new file and leaves no lock, no staging file and no other change |
| `ImageStagingProgress.CloneGoesThrough` | internal/applevmhelper/runtime_darwin_arm64.go:332-377 | an undisturbed clone puts a new, locked file under the same staging name and changes nothing else |
| `ImageStagingProgress.CleanerGoesOn` | internal/applevmhelper/runtime_darwin_arm64.go:706-765 | whatever the others do, a cleaner that has listed the directory can always make its next call, and has then fewer to make |
| `ImageStagingProgress.EndedWriterLeavesNothing` | internal/applevmhelper/runtime_darwin_arm64.go:261-330 | in every execution a writer that ends otherwise than by a crash, published or failed, leaves no file under its staging name |
| `ImageCopy.SkipBlocks` | internal/applevmhelper/runtime_darwin_arm64.go:1129-1150 | the scan stops at the first block boundary where blocks change between zero and non-zero |
| `ImageCopy.WriteSparseBlocks` | internal/applevmhelper/runtime_darwin_arm64.go:1127-1158 | on success the bytes are laid down except in all-zero blocks, and no all-zero block is ever written |
| `ImageCopy.CopySparseImage` | internal/applevmhelper/runtime_darwin_arm64.go:407-441 | for any schedule of short reads a successful copy into an empty target equals the source and hashes exactly its bytes; a healthy disk and source mean success |
| `ImageCopy.CopyReaderAtRange` | internal/applevmhelper/runtime_darwin_arm64.go:1099-1125 | the same for a range, and nothing outside it changes |
| `Qcow2.RangeIsExact` | internal/applevmhelper/runtime_darwin_arm64.go:966-975 | the range check in 64-bit arithmetic decides what unbounded arithmetic decides |
| `Qcow2.MachineArithmeticIsExact` | internal/applevmhelper/runtime_darwin_arm64.go:867-964 | for every image no 64-bit computation used in a check overflows or underflows: the verdict is that of unbounded arithmetic |
| `Qcow2.ScanAcceptsExactlyChains` | internal/applevmhelper/runtime_darwin_arm64.go:977-1000 | the extension scan accepts exactly the well-formed chains that end at an empty end marker inside the bytes read |
| `Qcow2.AcceptedImageMapsEveryGuestOffset` | internal/applevmhelper/runtime_darwin_arm64.go:867-964 | every guest offset of an accepted image has an L1 index inside the table, and its eight bytes lie inside the file |
| `Qcow2.AcceptedImageIsBounded` | internal/applevmhelper/runtime_darwin_arm64.go:867-964 | its refcount table lies inside the file and its extensions form such a chain inside the first cluster |
| `Qcow2Exact.AcceptedIff` | internal/applevmhelper/runtime_darwin_arm64.go:868-962 | for every image and size an int64 can hold: accepted if and only if well formed, which is stated on the header fields: magic, version 2 or 3, no backing file, no encryption, cluster and disk size in bounds, only incompatible features 0, 3 and 4, refcount order at most 6, header length, an L1 table that covers the disk, the three tables aligned and inside the file, and a chain of extensions from the end of the header |
| `Qcow2.ValidateHeaderExtensions` | internal/applevmhelper/runtime_darwin_arm64.go:977-1000 | the loop accepts exactly such chains and reads only in range |
| `Qcow2.PinHeader` | internal/applevmhelper/runtime_darwin_arm64.go:1002-1011 | a read shows the validated header bytes wherever it overlaps them, and the file's bytes everywhere else |
| `RunnerRegistration.URLNamesScope` | internal/cli/actions_runner.go:65-68 | two scopes with the same URL are the same scope |
| `RunnerRegistration.NamesIsExact` | internal/cli/actions_runner.go:214-216 | settings written for a scope name exactly the registration with their id in that scope |
| `RunnerRegistration.StepKeepsCustody` | internal/cli/actions_runner.go:79-212 | every step of register, unregister and the world keeps every live registration named by the claim or the guest |
| `RunnerActivation.RegistrationsStayInCustody` | internal/cli/actions_runner.go:79-330 | in every run with crashes and lost acknowledgements, each live registration is so named, and there is at most one |
| `RunnerActivation.BreaksExactlyAtInstall` | internal/cli/actions_runner.go:92-206 | a step breaks the agreement of listener, settings and claim exactly if it configures the guest while a listener runs |
| `RunnerActivation.CalmStepKeepsFit` | internal/cli/actions_runner.go:92-206 | no step breaks it if the guest does not boot between inspection and clearing |
| `RunnerActivation.BrokenExactlyByInstall` | internal/cli/actions_runner.go:92-206 | in every run the agreement holds up to the first configuration under a running listener, and fails right after it |
| `RunnerActivation.RegisterStaysFitIff` | internal/cli/actions_runner.go:92-206 | for one register call begun in any idle and fit state, every schedule of its own steps, the guest's and GitHub's keeps a listener or boot service on the claimed registration or none, if and only if the boot service is disabled when the call begins |
| `RunnerActivation.ListenerServesTheClaim` | internal/cli/actions.go:3484-3511 | in every run without such a boot a running listener or enabled boot service has no settings or the claim's |
| `RunnerActivation.BootInBetweenBreaksIt` | internal/cli/actions_runner.go:410-418 | a concrete run in which a boot in between breaks it |
| `RunnerActivation.SettledWasListed` | internal/cli/actions_runner.go:116-205 | in every run, the registration that a call saves, records or starts a listener for is in every respect as requested, and GitHub listed it during that very call |
| `RunnerActivation.UnregisterDeletes` | internal/cli/actions_runner.go:276-329 | unregistering deletes the registration that the claim names and changes nothing else; it is done at once if GitHub lists none under that id, and refuses if it lists another |
| `RunnerActivation.DeletedIsGone` | internal/cli/actions_runner.go:190-196 | in every run, once an unregistration or a rollback has ended, GitHub lists nothing under the id it worked on, and whatever else was there still is |
| `RunnerActivation.ReuseGoesThrough` | internal/cli/actions_runner.go:98-141 | a registration that guest and GitHub still hold, as requested, becomes the claim, and its service and listener are started if the listener was stopped |
| `RunnerActivation.StoppedGuestIsAbsent` | internal/cli/actions_runner.go:98-146 | on a stopped guest without a live registration, fresh or with a consumed runner's settings, a call that accepts what it sees finds nothing to reuse |
| `RunnerActivation.AbsentIsConfigured` | internal/cli/actions_runner.go:147-166 | old settings that the call expects are cleared, and the guest is configured under the requested identity |
| `RunnerActivation.ConfiguredIsVerified` | internal/cli/actions_runner.go:172-189 | the configuration is verified against guest and GitHub |
| `RunnerActivation.VerifiedIsRecordedThenStarted` | internal/cli/actions_runner.go:190-205 | a verified registration becomes the claim, and only then can its service and listener start |
| `RunnerActivation.RegistrationGoesThrough` | internal/cli/actions_runner.go:92-206 | undisturbed, such a registration ends with the new registration live, its settings on the guest, its binding as the claim and its listener and service running; a call that does not accept what it finds stops before it changes anything |
| `ActionsCapture.CaptureLevel` | internal/cli/actions.go:1011-1036 | one breadth-first level handles exactly its steps, captures exactly the composite ones, and opens the steps of every text read for the first time |
| `ActionsCapture.PrepareSources` | internal/cli/actions.go:978-1039 | for every graph of actions, recursive ones included, exactly the composite steps reachable within the depth limit are captured |
| `ActionsCapture.RenderingIsSafe` | internal/cli/actions.go:1462-1504 | with those captured, rendering never dereferences a missing source |
| `ActionsCapture.AppendSteps` | internal/cli/actions.go:1141-1215 | the loop that appends one level computes the specified rendering, and ends |
| `ActionsCapture.AppendStep` | internal/cli/actions.go:1462-1514 | one step, with everything below it |
| `ActionsScript.RendersIff` | internal/cli/actions.go:1141-1215 | a workflow renders if and only if every step that some chain of uses reaches unskipped renders and concludes where it stands and, if it is a composite action, was captured, can be read, is one, and lies within the depth limit |
| `ActionsScript.ScriptIsInOrder` | internal/cli/actions.go:1141-1215 | the steps stand in the script in the order of the workflow, what an action uses right below it and before the step that follows |
| `ActionsScript.NothingTwice` | internal/cli/actions.go:1141-1215 | in such an order nothing stands twice |
| `ActionsScript.Hydrate` | internal/cli/actions.go:978-1039 | capture followed by rendering never crashes; there is a script exactly if every step reached unskipped is fine where it stands, and it holds exactly those steps, in order |
| `ActionsCapture.ScriptIsTheLiveChains` | internal/cli/actions.go:1141-1215 | a rendered script holds exactly the chains of unskipped steps, and none is longer than the depth limit: recursion is refused, never unrolled in part |
| `Heredoc.ContainsIsLine` | internal/cli/actions.go:1900-1907 | the padded substring test asks exactly whether the candidate is a line of the script |
| `Heredoc.CandidatesDiffer` | internal/cli/actions.go:1903-1905 | all candidates are distinct |
| `Heredoc.Delimiter` | internal/cli/actions.go:1900-1907 | the search ends on every script with the first candidate that is not a line of it |
| `Heredoc.ReadsBackIff` | internal/cli/actions.go:1886-1898 | reading the heredoc back gives the script and a newline, and nothing else is consumed, exactly when the delimiter is not a line |
| `Heredoc.AppendRunStep` | internal/cli/actions.go:1886-1898 | every accepted step reads back as its script, whatever follows; other shells are refused |
| `AzureCleanup.RevalidateIff` | internal/cli/azure_cleanup_retry.go:113-272 | a revalidation is accepted exactly when everything expected was read once and in order with the VM last, what was found is ours and in no other use, and what was absent is what was dropped |
| `AzureCleanup.UnattachedWithoutVM` | internal/cli/azure_cleanup_retry.go:264-270 | once the VM is gone, it passes only if no companion names any VM |
| `AzureCleanupRun.RetryReadsKeeps` | internal/cli/azure_cleanup_retry.go:84-98 | retried reads issue no batch and end in one complete revalidation of the set that was asked for |
| `AzureCleanupRun.CheckAllSees` | internal/cli/azure.go:2402-2461 | a clean batch means that every target was seen to be gone afterwards |
| `AzureCleanupRun.DeleteOnceKeeps` | internal/cli/azure.go:2360-2462 | one batch adds one batch, and loses nothing the history promised |
| `AzureCleanupRun.DeleteFromKeeps` | internal/cli/azure_cleanup_retry.go:24-71 | the rounds left issue at most that many more batches, each allowed where it is issued |
| `AzureCleanupRun.CleanupIsOrderly` | internal/cli/azure_cleanup_retry.go:17-72 | in every world each batch directly follows one complete successful revalidation, companions wait until the VM was seen absent, the set only shrinks, there are at most 14 batches, and success means everything was seen gone |
| `AzureCleanupEnd.GivesUpOnlyWithReason` | internal/cli/azure_cleanup_retry.go:17-98 | in every world a cleanup gives up at the first interrupted wait, thirteenth failed try to read, read of something that is not its own, or failed batch with nothing to try again or in the thirteenth round, and not before; besides these it fails only when a NIC or disk is attached to an absent or different VM; if it succeeds, none of these happened |
| `AzureCleanupEnd.DeleteOnceEnds` | internal/cli/azure.go:2360-2462 | a batch with all its checks is clean or not, and to be tried again or not, exactly as Azure answered |
| `AzureCleanupEnd.OursIsAccepted` | internal/cli/azure_cleanup_retry.go:113-272 | what a single read accepts, by kind: nothing that is ours and in no other use is refused, nothing else accepted |
| `AzureCleanupEnd.OnlyOursIsDeleted` | internal/cli/azure_cleanup_retry.go:17-72 | in every world, whatever a batch deletes was read in the revalidation right before it, carries our tags, has the identity it was first seen with and is used by nothing but this cleanup's VM and NIC; companions are attached to no VM at all |
| `AzureCleanupHealthy.HealthyCleanupSucceeds` | internal/cli/azure_cleanup_retry.go:17-72 | if every read is absent or ours, no delete fails and what was deleted is gone, the cleanup succeeds, and everything there was has been deleted or was read as absent |
| `AzureCleanupRun.Cleanup.RevalidateResources` | internal/cli/azure_cleanup_retry.go:113-272 | the reads and checks compute the specified revalidation |
| `AzureCleanupRun.Cleanup.RevalidateWithRetry` | internal/cli/azure_cleanup_retry.go:84-98 | the retry loop computes the specified one |
| `AzureCleanupRun.Cleanup.DeleteResources` | internal/cli/azure.go:2360-2462 | deletes and absence checks compute the specified batch |
| `AzureCleanupRun.Cleanup.DeleteRounds` | internal/cli/azure_cleanup_retry.go:24-71 | the main loop computes the specified rounds |
| `AzureCleanupRun.Cleanup.DeleteWithRetry` | internal/cli/azure_cleanup_retry.go:17-72 | the whole cleanup, with the guarantees of `CleanupIsOrderly` |
| `YamlNodes.Resolve` | scripts/workflow_action_pins.go:244-256 | resolution ends at a node that is no alias, and is a document only if that is empty |
| `YamlNodes.MappingValuesIff` | scripts/workflow_action_pins.go:209-242 | on every node graph the merge traversal ends and finds exactly the values that chains of merges lead to, cycles included |
| `WorkflowPins.ValidTargetIff` | scripts/workflow_action_pins.go:266-281 | a reference is accepted exactly if it is local, a container pinned by a sha256 digest, or an action at a full commit |
| `WorkflowPins.WorkflowUsesIff` | scripts/workflow_action_pins.go:185-207 | the nodes checked in a workflow are exactly the uses of its jobs and of their steps |
| `WorkflowPins.ManifestUsesIff` | scripts/workflow_action_pins.go:133-170 | those checked in a manifest are exactly the uses of its steps |
| `WorkflowJobs.ScanIsCompleteIff` | scripts/workflow_action_pins.go:185-207 | every use of every job, merged jobs included, is scanned if and only if no merge into `jobs` brings in a job with a use that the entries do not have |
| `WorkflowJobs.ScanIsPreciseIff` | scripts/workflow_action_pins.go:185-207 | nothing else is scanned if and only if what a merge key of `jobs` holds, taken for a job, has no use that no job has |
| `WorkflowJobs.PlainJobsAreScanned` | scripts/workflow_action_pins.go:192-194 | both hold for every document without a merge key in `jobs` |
| `WorkflowJobs.MergedJobIsMissed` | scripts/workflow_action_pins.go:192-194 | a document whose only job is merged in: nothing of it is scanned, and its use is not pinned |
| `WorkflowPinsSearch.YamlNamesAre` | scripts/workflow_action_pins.go:32-60 | the files taken for workflows are those whose names end in `.yml` or `.yaml` |
| `WorkflowPinsSearch.Manifests` | scripts/workflow_action_pins.go:99-121 | a local reference names exactly those of the two manifest names that exist in its directory, at least one; the three ways to fail |
| `WorkflowPinsSearch.LocalActionSettles` | scripts/workflow_action_pins.go:91-131 | a search without findings leaves every newly visited manifest good, and whatever it leads to visited |
| `WorkflowPinsTheorem.ReachedIsVisited` | scripts/workflow_action_pins.go:91-131 | whatever any chain of followed references reaches was visited, cycles included |
| `WorkflowPinsTheorem.NothingFoundIsScannedPinned` | scripts/workflow_action_pins.go:32-60 | no findings: everything scanned, or reached from it by the references that the search follows, is pinned |
| `WorkflowPinsTheorem.ScanIsExact` | scripts/workflow_action_pins.go:32-60 | for all inputs, nothing is reported if and only if everything scanned parsed and every reference in it, or in any local action that followed references reach, is good; references with the shape of a reusable workflow are not followed |
| `WorkflowPinsExact.EveryActionIsFollowedIff` | scripts/workflow_action_pins.go:91-98 | followed references reach every local action that any chain of references reaches, whatever their shape, if and only if what a reached reference with the shape of a reusable workflow names is also reached by followed ones |
| `WorkflowPinsExact.NothingFoundIsPinned` | scripts/workflow_action_pins.go:32-60 | if no merge into `jobs` hides a use and no local action is named by unfollowed references alone, no findings mean that every use of every job, and of every local action that any chain of references of any shape reaches, is pinned |
| `WorkflowPinsExact.PinnedIsNotReported` | scripts/workflow_action_pins.go:32-60 | if every such use is good and merges into `jobs` add none, nothing is reported |
| `WorkflowPinsExact.CheckIsExact` | scripts/workflow_action_pins.go:32-60 | under both conditions, nothing is reported if and only if everything parsed and every such use is good |
| `WorkflowPinsExact.MergedJobPasses` | scripts/workflow_action_pins.go:192-194 | a workflow whose only job is merged in and not pinned passes in every repository |
| `WorkflowPinsUnfollowed.UnfollowedActionPasses` | scripts/workflow_action_pins.go:93-98 | in every repository, a workflow whose only reference has the shape of a reusable workflow but names a local action with a bad manifest gives no finding, and not everything is pinned |
| `WorkflowPinsUnfollowed.DetourPasses` | scripts/workflow_action_pins.go:93-98 | one such repository: the reference is `./.github/workflows/../b.yml`, the action under it uses `owner/action@main` |
| `WorkflowPinsChecker.Lookup.Values` | scripts/workflow_action_pins.go:209-242 | the traversal that marks and unmarks computes the specified values and leaves the marks as they were |
| `WorkflowPinsChecker.Lookup.WorkflowUses` | scripts/workflow_action_pins.go:185-207 | the nested loops collect exactly the specified uses of a workflow |
| `WorkflowPinsChecker.Lookup.ManifestUses` | scripts/workflow_action_pins.go:144-150 | and those of a manifest |
| `WorkflowPinsChecker.Checker.CheckLocal` | scripts/workflow_action_pins.go:91-131 | the search over the shared marks computes the specified one |
| `WorkflowPinsChecker.Checker.CheckLocalManifest` | scripts/workflow_action_pins.go:133-170 | so does the scan of one manifest |
| `WorkflowPinsChecker.Checker.CheckFile` | scripts/workflow_action_pins.go:62-89 | a file that does not parse to its end reports that alone |
| `WorkflowPinsChecker.Checker.CheckDir` | scripts/workflow_action_pins.go:32-60 | the whole check reports nothing exactly when everything scanned or followed is pinned; no findings mean that everything reached in any way is pinned unless a use is hidden by a merge or a local action named by unfollowed references alone; no finding is spurious unless a merge adds a use |
| `Signing.LengthPrefixedBytes` | internal/cli/attest.go:305-315 | the buffer loop computes the encoding |
| `Signing.DecodesIff` | internal/cli/attest.go:305-315 | the encoding has a left inverse exactly on lists whose elements are shorter than 2^32 bytes |
| `Signing.EncodeIsInjective` | internal/cli/attest.go:305-315 | on those it is injective |
| `Signing.LongValuesCollide` | internal/cli/attest.go:310 | beyond that length it collides |
| `Signing.SigningBytesBind` | internal/cli/attest.go:281-303 | receipts with equal signing bytes agree on every field but the signature |
| `Signing.CommandBytesBind` | internal/cli/attest.go:270-272 | equal command encodings mean equal argument lists |
| `Signing.PrefixesSeparate` | internal/cli/attest.go:270-303 | what is signed for a receipt is never what is hashed for a command |
| `JsonKeys.ScanIsExact` | internal/cli/attest.go:500-543 | for every tree and whatever follows it, the scan reports a duplicate exactly when some object repeats a key, and otherwise consumes exactly the tree |
| `JsonKeys.Decoder.HasDuplicateKeys` | internal/cli/attest.go:500-543 | the recursion over the decoder computes that scan |
| `Shards.NothingIsLost` | scripts/test-go-shard.py:109-112 | every assignment spreads exactly the whole weight |
| `Shards.NextIsAtMostAThird` | scripts/test-go-shard.py:109-112 | when every shard carries something, the next test is at most a third of any makespan or still fits into it |
| `Shards.GreedyIsBalanced` | scripts/test-go-shard.py:109-112 | for every table and every other assignment, no shard carries more than 4/3 - 1/(3 count) of that assignment's largest load |
| `Shards.GreedyIsWithinTwice` | scripts/test-go-shard.py:109-112 | hence at most 2 - 1/count of it |
| `Shards.GreedyIsEven` | scripts/test-go-shard.py:109-112 | two shards differ by at most the heaviest test |
| `ShardSelection.FirstLeast` | scripts/test-go-shard.py:111 | the first index of the minimum |
| `ShardSelection.Place` | scripts/test-go-shard.py:109-112 | the loop over the loads assigns the owners of the greedy placement |
| `ShardSelection.SelectTests` | scripts/test-go-shard.py:99-116 | which inputs are refused and why, and otherwise exactly the tests this shard owns, in listing order |
| `ShardSelection.SelectionsPartition` | scripts/test-go-shard.py:113-120 | every test is selected by exactly one shard |
| `ShardSelection.MoreTestsMoveNone` | scripts/test-go-shard.py:113-120 | a longer listing moves none of the tests it had |
| `ShardSelection.ListedFollowGreedy` | scripts/test-go-shard.py:110-113 | listed tests run where the greedy placement put them |
| `ShardSelection.UnlistedAreHashed` | scripts/test-go-shard.py:113-120 | all others run where their hash says |
| `CaptureCheck.ReadMappings` | internal/cli/aws_checkpoint_capture.go:106-125 | the first loop accepts exactly mappings that fit; otherwise its first misfit alone decides between not yet and a definite difference |
| `CaptureCheck.MapsExactlyIff` | internal/cli/aws_checkpoint_capture.go:106-130 | counting suffices: the mapping is a one-to-one match with the source's devices, one snapshot each |
| `CaptureCheck.ReadSnapshots` | internal/cli/aws_checkpoint_capture.go:138-153 | the second loop accepts exactly distinct, matching, sound snapshots, as many as are mapped; it reports a mismatch exactly when the first one that is not so contradicts the mapping or is broken |
| `CaptureCheck.ObservedExactlyIff` | internal/cli/aws_checkpoint_capture.go:138-153 | which means that every mapped snapshot was observed exactly once, and nothing else |
| `CaptureCheck.SnapshotsEstablished` | internal/cli/aws_checkpoint_capture.go:105-154 | established exactly if the image maps exactly the source's devices and exactly those snapshots were observed as they should be; a mismatch exactly if what was read contradicts that |
| `CaptureCheck.WaitForCapture` | internal/cli/aws_checkpoint_capture.go:55-103 | the first round that decides anything decides, and success is reported exactly if it sees this image, owned and unfailed, with an established capture |
| `CaptureCheck.FindSourceDevices` | internal/cli/aws_checkpoint_capture.go:16-44 | the first instance with the id decides; its devices and volumes are complete and not empty |
| `Relay.EveryRunKeeps` | internal/cli/adapter_connect.go:270-331 | in every interleaving each pool's slots are its unfinished workers, at most 64 and 8, and no request has two response writes |
| `Relay.SlotsCanBeReleased` | internal/cli/adapter_connect.go:303-310 | an answered worker can always give its slot back |
| `Relay.RefusedIff` | internal/cli/adapter_connect.go:294-317 | a request is refused as busy exactly when that many earlier requests of its own kind are unfinished |
| `Relay.WritesAreTheAnswers` | internal/cli/adapter_connect.go:270-331 | in every interleaving the responses on the wire are exactly the answers and refusals, in the order given, and the relay is cancelled exactly if one could not be sent |
| `Relay.NoRequestIsLost` | internal/cli/adapter_connect.go:270-331 | each request that arrived is being handled or refused, or its response was written, unless some response could not be encoded |
| `Relay.ReaderStopsIff` | internal/cli/adapter_connect.go:270-331 | the reader has stopped exactly if a read failed or a refusal could not be sent |
| `Relay.NothingReceivedAfter` | internal/cli/adapter_connect.go:270-331 | after that nothing is received |
| `Relay.Backoff` | internal/cli/adapter_connect.go:178-190 | the delay doubles with every attempt up to the maximum |

## Left out

- The key-pair description and import behind `EnsureKeyBinding`, AMI and security-group lookup, tags, user data and the parameter hash of a launch: oracles with arbitrary results.
- A checkpoint deletion without a persistence callback, which is refused before anything is touched.
- Snapshot ids that EC2 reports carry no white space around them; ids in the durable list may, and are trimmed as the program does.
- Region candidates and their deduplication: the launch search takes the list as an input.
- The portable receipt, the Windows script variants and the version checks of the runner commands: they add one-branch behaviour to the same steps.
- `config.sh` is one atomic step that registers the runner and writes its settings; a registration that GitHub made while the guest lost its settings file is not modelled apart from the lost acknowledgement of that step.
- ImageStagingSafety.PublishedFileStays: that the cleaner's name filter (a leading dot and `.tmp-`) passes no published name is assumed: staging names and published names are different constructors.
- Publishing a cached image is one rename; file contents, `fsync` and clone fallbacks are not part of the staging model, and staging names are never reused.
- The guest disk format below the qcow2 header and the third-party qcow2 reader.
- Expression freezing, interpolation, environment save and restore, and the conditions of steps: `ActionsCapture` takes their outcome as an arbitrary function of where a step is rendered.
- Shells other than for the reading of a quoted heredoc; `TrimSpace` knows ASCII white space, NEL and the no-break space, not the other Unicode spaces.
- Azure tag validation and the caller's VM validation: each read carries their verdict. Case folding is an arbitrary function.
- YAML and JSON text parsing: the models start from node graphs and token streams. A graph is what a parser builds: aliases point at anchored values and documents are not nested.
- Path cleaning in the pin checker: where a local reference leads is an arbitrary function; listing the workflow directory is an input.
- SHA-256 and Ed25519: the encodings that go into them are modelled, the digests are not.
- The regular expression that finds test names, sorting and hashing in the shard script: the sorted listing, the heaviest-first order of the table and the hash are inputs.
- `adapterRelay.handle`, request decoding and timeouts: a worker's handling is one step of arbitrary length.
- Security-group convergence, helper process termination, CLI flags, login, portal and live smoke scripts.
