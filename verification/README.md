# Verification of xrayctl

xrayctl installs, upgrades and configures an Xray core on a Linux host. Most of its
difficulty is in keeping several things in step although every call to the operating
system may fail: six symlinks (`current` and `previous` for core, assets and
configuration), the directories they point to, and the JSON `ManagerState` that names
the same directories. This project models that logic in Dafny and proves what holds
after every operation and over whole runs, and what a crash in between can leave: for the
pointer primitives after every single file operation, and for every command after every call
that changes the disk.

`dafny verify dfyconfig.toml` checks everything.

## Modules

| module | what it models |
|---|---|
| `Prelude`, `Sorting`, `Domain` | options and results; stable sorting and filtering; generation names, pointer pairs and `ManagerState` |
| `Pointers` | the unix pointer primitives, one file operation at a time with every crash state, and the map-based fake file system they refine |
| `Retention` | the pruning loop |
| `Transactions` | legal host steps on values, the invariant they keep, and runs of them |
| `Host` | the operating system as a mutable object whose calls may fail |
| `Application` | `apply_config` and the manual rollbacks of `ManagerService` |
| `Installer` | `ArchInstaller`: core quarantine, install, repair, upgrade, purge |
| `Session` | any sequence of commands from an empty host |
| `Tun` | the selective TUN policy in a small kernel model |
| `Probe` | the probe scheduler as an interleaving of atomic steps |
| `Registry`, `LinuxBackends`, `Bootstrap` | backend resolution, the production Linux factories and their probes, and the gate before every privileged operation |
| `Subscriptions` | subscription refresh and the selected node |

Objects that the source updates in place are classes; each method is proved against
functions and predicates on values, and the laws are lemmas about those.

## Fault model of the transactions

Every port call returns success or failure arbitrarily, and every read of a symlink may fail.
`Host` keeps ghost records, which only its own calls change, each in its own contract:

- `lapses` counts the calls that fell short of what they are for, as listed below;
- `refusals` counts the compensating calls that reported failure to a caller who acts on it;
- `faults` counts the other calls that reported failure to a caller who asked;
- `shortfalls` counts the rounds of pruning that gave up or could not read an entry;
- `signals` lists every call to the services and to the policy and every round of pruning, with
  its limit, and `process` what xray.service was last started with;
- `history` lists every disk that a crash could have left.

An operation promises four things. If no call lapsed while it ran, it ends in full or with
everything back, and pointers and state agree; only a purge may stop between two trees, which is
`PurgedHalfway`. Whatever lapsed, pointers and state end in a stated set (`DeployReaches`,
`LinksReach`, `StateReaches`, `UpgradeReach`), and if they agree, which can be checked
(`Host.Agrees`), that end is a legal one. It fails if a call it asked about failed, and otherwise
only if what it asks for was not there: no failure is overlooked. And a success has made exactly the
service calls it should have made, in order, with the pointers it leaves.

A lapse is one of these:

- A `switch_generation` that fails with an effect. The fake file system never does so; the native
  switch does not promise it. `FailedSwitchMustBeClean` shows that this cannot be weakened:
  of everything a failed native switch can leave behind, only the unchanged pair keeps
  pointers and state in agreement. It is also what a crash between the switch and the
  state write leaves. After a failed switch that moved `current`, `apply_config` moreover
  deletes the directory `current` is on (`DeletedCandidateDangles`).
- A `switch_generation` that succeeds without having saved `current`, because it could not read it.
  That failed read is swallowed (`crates/xray-manager-platform/src/portable.rs:483`);
  `SkippedSwitchAgreesIff` shows that link and field then agree if and only if nothing was
  current.
- A failed read of the link of an unchanged component in an installer, which is then switched all
  the same (`crates/xray-manager-platform/src/linux/arch.rs:550`,
  `crates/xray-manager-platform/src/linux/arch.rs:554`). Its field does not follow: they
  agree if and only if the switch could not read the link either (`SpuriousSwitchAgreesIff`).
- A failed read of a pointer that is set, in pruning. It protects
  nothing (`crates/xray-manager-platform/src/portable.rs:427-428`,
  `crates/xray-manager-platform/src/linux/arch.rs:1568-1569`); `Retention.SurvivesIff` says which
  unprotected directory goes.
- A failed commit write that changed the generation fields. `write_atomic` replaces the file
  and then returns the error of the directory sync
  (`crates/xray-manager-platform/src/portable.rs:292-296`). The upgrade, the manual
  rollbacks, the recording of identities and the health stamps keep their promises under
  such a fault, and there it is no lapse. The two commit writes that are followed by restoring
  the pointers and not the state do not keep them:
  `crates/xray-manager-core/src/application.rs:982` and
  `crates/xray-manager-platform/src/linux/arch.rs:615`. `StrandedApply` and `StrandedInstall` show
  the exact condition: with the pointers back, agreement holds after the first if
  and only if the write had no effect, and after the second if and only if nothing was new.
- A compensating call without its effect: `restore_generation`, the second swap of a rollback, the
  write of the old state, the rename back of a core version. Where the source discards
  its error only the effect counts (`crates/xray-manager-core/src/application.rs:857`,
  `crates/xray-manager-platform/src/linux/arch.rs:500`). The restore after a failed activation of
  `apply_config` must report success too, since its error ends the undoing.
- A `remove_dir_all` of a purge that stops within its tree.

What else is assumed:

- Commands run one after another, each in a new process whose memory is loaded from
  disk. The state is loaded before the lock is taken
  (`crates/xrayctl/src/composition.rs:32`, `crates/xray-manager-core/src/application.rs:1596-1609`),
  so nothing is claimed about processes that overlap.
- Generated names are fresh. The manager and the installer each number their names with a
  counter of their own in one format, timestamp, process id and counter
  (`crates/xray-manager-core/src/application.rs:882`,
  `crates/xray-manager-platform/src/linux/arch.rs:1521`), and both name config generations; that
  the two never meet is part of the assumption. Release tags are not fresh, and the core
  directory of a tag may be replaced.
- `remove_dir_all` of one generation removes it or leaves it; a half-removed directory counts
  as present. A purge that fails may have removed any part of the tree it was at.

Legal ends that are not plain success or plain failure: a failing final health stamp
returns an error after a full commit, stamped or not, in `apply_config` and in
`activate_install`; a failed install may have recorded identities it created; an installer
command that committed still returns an error when the state cannot be reloaded afterwards
(`crates/xray-manager-core/src/application.rs:1624-1625`); and where the undoing of a failed
operation had no effect at all, its new pointers and its new state stay together.

## Fault model of the TUN policy

Every `ip` and `nft` call may fail. `NetworkStack.failures` counts the removals of a rule, of a
device route, of a table or of the nft table that failed while there was something to remove.
What an operation does exactly is stated for calls in which no removal failed, since nobody
retries one; that a success is fail-closed, and that rules never grow past one but by failed
removals, is stated for all. One pass removes at most 32 rules of a family (`FewRules`): what is
beyond that is left by one `routes_down`, and the exact results say so.

Fail-closed means that in both families a marked packet is led to the owned table and that the
table holds its fallback route at metric 32767. That alone does not stop a leak: the routing
table is named by the user (`crates/xray-manager-core/src/config.rs:140`), an up does not flush
it, and a route of a lower metric that was already there decides (`ForeignDefaultLeaks`). The
exact condition is on the table an up finds (`Sheltered`): every foreign route below the
fallback metric comes after a blackhole (IPv4) or unreachable (IPv6) route that is not at metric
100, where attaching would replace it. After a successful up no run of attachments, detachments
and interface losses leaks if and only if that holds (`NeverLeaksIff`). The runs attach and
detach in either family; routes of the table more specific than the default count as metrics
below zero.

## Results that are negative

- An install or a repair over a running service leaves the old process running: it uses
  `systemctl enable --now` and not `restart`
  (`crates/xray-manager-platform/src/linux/arch.rs:679-683`). The process runs what was installed if
  and only if none was running, or one with the same directories
  (`Installer.ArchInstaller.InstallOrRepair`). The health check then asks the old process.
- The native `rollback_generation` succeeds when only `previous` exists and leaves both
  pointers on one directory, where the fake file system refuses (`Pointers.RunBoth`).
  `previous` set implies `current` set in every reachable state, so no command meets this case.
- The symlink move and the state-field move agree exactly on pairs whose `previous` is
  not alone (`Transactions.SwitchAgreesWithShift`).
- A purge that stops between `/var/lib` and `/opt` breaks agreement exactly when a core or
  asset pointer was set (`Installer.PurgedHalfway`). A partial removal keeps it only where it
  took all pointers with the state, or no pointer (`Transactions.RemovalIsLegal`).
- Repeating PolicyUp is the identity exactly when no family holds more owned rules than
  the 32 one pass removes (`Tun.PolicyUpIdempotentIff`).
- The bootstrap exception lets an unsupported capability through only when the
  commands it lacked have appeared since it was probed (`Bootstrap.OpenMeansReady`).
- A table that already has a default route of a lower metric leaks marked packets after a
  successful PolicyUp (`Tun.ForeignDefaultLeaks`, exact condition in `Tun.NeverLeaksIff`).
- A switch that could not read `current` breaks agreement exactly when something was current
  (`Transactions.SkippedSwitchAgreesIff`).
- A crash between the switch and the state write of an apply, or between the restoring of one
  and of the other, breaks agreement; no other crash does (`Application.ApplyCrashAgreesIff`).
  The same holds of a manual rollback (`Application.RollbackCrashAgreesIff`).
- Replacing a core version leaves a moment without it, so that a crash there can leave a core
  pointer dangling (`Installer.ArchInstaller.InstallOrRepair`).
- A failed commit write that took effect leaves the new fields with the old pointers
  (`Application.StrandedApply`, `Installer.StrandedInstall`).
- A failing state write at the end of a subscription refresh leaves the new node list
  with the old selection in memory (`Subscriptions.SubscriptionService.RefreshSubscriptions`).
- Two due subscriptions of one name: the later one replaces what the earlier one fetched
  (`Subscriptions.RefreshReplacesBySubscription`).

## Model

| member | source | states |
|---|---|---|
| `Pointers.PointerDirectory.SwitchGeneration` | crates/xray-manager-platform/src/portable.rs:478-495 | every state a crash can leave is crash-consistent; success is the switch, or, when `current` could not be read, the switch without saving it |
| `Pointers.PointerDirectory.RollbackGeneration` | crates/xray-manager-platform/src/portable.rs:350-353 | success swaps a full pair; with `previous` alone, or with a `current` that cannot be read, both pointers end on it; without `previous` nothing happens |
| `Pointers.PointerDirectory.ReplacePointer` | crates/xray-manager-platform/src/portable.rs:497-515 | at every step the pointer is the old or the wanted one and the other pointer is untouched |
| `Pointers.PointerDirectory.RestoreGeneration` | crates/xray-manager-platform/src/portable.rs:355-364 | success is the wanted pair; every crash state is the old pair, the new current with the old previous, or the wanted pair |
| `Pointers.CrashStatesAreSwitchRemains` | crates/xray-manager-platform/src/portable.rs:478-495 | the possible remains of a switch are exactly the pairs where current is old or new and never lost, previous is old or the old current, and a new current implies that previous is the old current |
| `Pointers.FakeFileSystem.SwitchGeneration` | crates/xray-manager-platform/src/fake.rs:203-218 | the map operation performs the same switch in one step |
| `Pointers.FakeFileSystem.RollbackGeneration` | crates/xray-manager-platform/src/fake.rs:220-236 | succeeds exactly for a full pair, and then swaps it |
| `Pointers.FakeFileSystem.RestoreGeneration` | crates/xray-manager-platform/src/fake.rs:238-260 | the pair becomes the wanted one |
| `Pointers.RunBoth` | crates/xray-manager-platform/src/fake.rs:203-260 | the native pointers refine the map for switch, rollback and restore, except for two cases: rollback with `previous` alone, and a `current` that could not be read, where they agree if and only if `previous` already was it |
| `Retention.GenerationRoot.Prune` | crates/xray-manager-platform/src/portable.rs:420-463 | the targets of pointers that can be read and unlisted entries stay; a fault-free run leaves exactly min of what was unprotected and what `keep` allows beyond the protected, all at least as new as everything removed; with everything readable and both targets listed it leaves min(all, max(keep, protected)) directories |
| `Host.Host.Prune` | crates/xray-manager-platform/src/portable.rs:420-463 | a round over one component: targets stay unless a set pointer could not be read, and if nothing failed between min(all, `keep`) and max(`keep`, targets) directories are left |
| `Retention.GenerationRoot.RemoveExcess` | crates/xray-manager-platform/src/portable.rs:451-462 | the counted loop removes exactly the excess of the listing, or a part of it when a removal fails |
| `Retention.ExcessCount` | crates/xray-manager-platform/src/portable.rs:451-462 | the excess is unprotected and is exactly what the limit on further directories does not cover |
| `Retention.ExcessIsOldest` | crates/xray-manager-platform/src/portable.rs:450-462 | of the unprotected directories none that stays is older than one that goes |
| `Retention.SurvivesIff` | crates/xray-manager-platform/src/portable.rs:450-462 | an unprotected directory, such as a target whose pointer could not be read, stays if and only if fewer unprotected ones are before it than the limit allows |
| `Retention.PruneEnds` | crates/xray-manager-platform/src/portable.rs:420-463 | the loop's result read off the directories before and after: protected stay, the count is exact, the newest are kept |
| `Retention.SortedListing` | crates/xray-manager-platform/src/portable.rs:450 | sorting newest first keeps the listing complete and free of repetition |
| `Transactions.SwitchAgreesWithShift` | crates/xray-manager-core/src/application.rs:979-981 | moving the symlinks and moving the state fields agree if and only if `previous` is not set alone |
| `Transactions.StepKeepsInv` | crates/xray-manager-platform/src/linux/arch.rs:428-467 | any legal step keeps agreement of pointers and fields, order, existence of targets and validation together |
| `Transactions.RunsKeepInv` | crates/xray-manager-core/src/application.rs:835-1078 | in every state of every run from an empty host the pointers target exactly the existing directories the state names |
| `Transactions.RollbackTargetIsReal` | crates/xray-manager-core/src/application.rs:1714-1772 | in every reachable state a set `previous` exists as a directory, differs from `current`, can be exchanged, and for configurations had passed `test_config` |
| `Transactions.RollbackIsAnInvolution` | crates/xray-manager-core/src/application.rs:1714-1772 | two successful rollbacks of one component restore all pointers and generation fields |
| `Transactions.FailedSwitchMustBeClean` | crates/xray-manager-platform/src/portable.rs:478-495 | of all remains of a failed native switch only the unchanged pair keeps the invariant |
| `Transactions.SkippedSwitchAgreesIff` | crates/xray-manager-platform/src/portable.rs:478-495 | a switch that could not read `current` agrees with the shifted field if and only if nothing was current |
| `Transactions.SpuriousSwitchAgreesIff` | crates/xray-manager-platform/src/linux/arch.rs:547-570 | an unchanged component that is switched because its link could not be read agrees with its field if and only if the switch could not read it either |
| `Transactions.AdvanceIsStep` | crates/xray-manager-platform/src/linux/arch.rs:445-456 | advancing any subset of the three pairs alike on disk and in state is a legal step |
| `Transactions.StrandedWrite` | crates/xray-manager-platform/src/linux/arch.rs:608-655 | after a state write with the pointers as they were, the invariant holds if and only if the generation fields are those that were there |
| `Transactions.DeletedCandidateDangles` | crates/xray-manager-core/src/application.rs:960-977 | after a failed switch and the deletion of its candidate every target exists if and only if `current` did not move |
| `Transactions.RemovalIsLegal` | crates/xray-manager-platform/src/linux/arch.rs:1164-1241 | a partial removal that keeps the invariant took all pointers with the state, or no pointer |
| `Application.ManagerService.PrepareGeneration` | crates/xray-manager-core/src/application.rs:869-954 | a candidate is fresh, present, and has passed `test_config` with the active core and assets; failures touch no pointer and no state; a crash leaves nothing but new configuration generations |
| `Application.ManagerService.CommitGeneration` | crates/xray-manager-core/src/application.rs:955-1000 | success moved both; a failure in which no call lapsed has put both back; under any faults the end is one of those listed, and every disk a crash could leave is on the way of the switch |
| `Application.ManagerService.RestorePrevious` | crates/xray-manager-core/src/application.rs:1031-1056 | success, or a failure in which no call lapsed, has pointers and disk back; it fails if and only if the restore or the write reported failure; memory is back before `RollbackSucceeded` is emitted |
| `Application.ManagerService.Confirm` | crates/xray-manager-core/src/application.rs:1001-1078 | activating and stamping a committed generation: confirmed with pointers as committed, or restored before the success event; `Compensating` if and only if a compensating call reported failure; the service calls in order |
| `Application.ManagerService.Deploy` | crates/xray-manager-core/src/application.rs:955-1078 | events, and the exact pointers and state of each end under any faults; if no call lapsed, committed as wanted or everything back, and no configuration pointer dangles in any crash on the way |
| `Application.ManagerService.PrepareAndDeploy` | crates/xray-manager-core/src/application.rs:869-1078 | events, reached ends and crash states of both halves of an apply together, and failure only after a call that failed |
| `Application.ManagerService.ApplyConfig` | crates/xray-manager-core/src/application.rs:869-1078 | if no call lapsed: committed, or restored, or committed with the health stamp reported missing, in agreement, and no crash on the way leaves a dangling pointer; it fails if and only if a call failed; the state on disk has the selection and the candidate, or the reason of the restoring, and keeps backends and identities; a success made the policy and service calls, restarted the service with the final pointers and, with a node selected, had it answer; exact event log, `RollbackSucceeded` only with everything back; success ends with the active triple tested together; under any faults at all the end, and every crash on the way, is one of a stated list, and an end in agreement is legal |
| `Application.ApplyCrashAgreesIff` | crates/xray-manager-core/src/application.rs:955-1078 | of the crash states of an apply, under any faults, exactly those agree in which pointers and state are both the candidate's or both as before; `current` is always the old or the candidate |
| `Application.RollbackCrashAgreesIff` | crates/xray-manager-core/src/application.rs:1714-1772 | a crash during a manual rollback leaves no dangling pointer, and agreement if and only if pair and state are both as before or both exchanged |
| `Application.ManagerService.CommitGenerationRollback` | crates/xray-manager-core/src/application.rs:835-867 | success keeps the swapped pair and the rollback state; a failure in which no call lapsed has swapped back and has the old state on disk, a write that took effect included; `Compensating` if and only if that write reported failure |
| `Application.ManagerService.ManualRollback` | crates/xray-manager-core/src/application.rs:1714-1772 | if no call lapsed it exchanges one pair on disk and in state together, or leaves pointers and state as they were; it fails if and only if a call failed; a success keeps selection, backends and identities, names its reason, and restarted the service with the final pointers, which answered if a node is selected; a failed activation restarts it with the old ones; under any faults an end in agreement is one of these, and every crash leaves each pointer on one of its two directories |
| `Application.ManagerService.WriteState` | crates/xray-manager-core/src/application.rs:678-688 | memory changes only after the disk did |
| `Application.RollbackMoves` | crates/xray-manager-core/src/application.rs:1714-1772 | swapping pair and fields of one component is a legal step that keeps the invariant |
| `Application.DeployedIsLegal` | crates/xray-manager-core/src/application.rs:955-1078 | of the pointers and state that a deployment can leave under any faults, those that agree make exactly one of the legal ends |
| `Application.RollbackIsLegal` | crates/xray-manager-core/src/application.rs:835-867 | whatever the faults, a rollback that ends in agreement has exchanged the pair or left it, as its result says; only failed undoing leaves it exchanged with an error |
| `Application.StrandedApply` | crates/xray-manager-core/src/application.rs:982-1000 | a failed commit write with the pointers back keeps the invariant if and only if it had no effect |
| `Application.RollbackIsLast` | crates/xray-manager-core/src/application.rs:1031-1056 | `RollbackSucceeded` can only be the last event of an apply, after a failed activation |
| `Application.ConfigCommitted` | crates/xray-manager-core/src/application.rs:960-1000 | switching to a fresh validated generation while shifting its field is a legal step |
| `Installer.ArchInstaller.PrepareCore` | crates/xray-manager-platform/src/linux/arch.rs:189-293 | the version directory has its entry content or content whose staged copy answered `version`; if it was there it is gone only if a rename that should have put it back failed; in any crash no other version is missing; on success the directory answered `version` in place |
| `Installer.ArchInstaller.ReplaceVersion` | crates/xray-manager-platform/src/linux/arch.rs:245-292 | quarantine, publish and check: other versions are untouched, and a name that was occupied is occupied afterwards unless a compensating rename was tried and failed |
| `Installer.ArchInstaller.WithdrawVersion` | crates/xray-manager-platform/src/linux/arch.rs:268-285 | a version that does not run is taken away and the former one is back, or it could not be taken away; where there was a former one the name ends empty if and only if both compensating renames were tried and failed |
| `Installer.ArchInstaller.PrepareAssets` | crates/xray-manager-platform/src/linux/arch.rs:295-332 | builds one fresh generation and touches no other |
| `Installer.ArchInstaller.PrepareInitialConfig` | crates/xray-manager-platform/src/linux/arch.rs:383-426 | the generation returned is fresh and was tested with the given core and assets |
| `Installer.ArchInstaller.ReusableCore` | crates/xray-manager-platform/src/linux/arch.rs:334-355 | what is reused is named by symlink and state and is there; on an agreeing host it is the active core exactly when the link can be read and the core answers `version` |
| `Installer.ArchInstaller.ReusableAssets` | crates/xray-manager-platform/src/linux/arch.rs:357-381 | what is reused is named by symlink and state; on an agreeing host it is the active assets, present, exactly when the link can be read and every file is valid |
| `Installer.ArchInstaller.SwitchAll` | crates/xray-manager-platform/src/linux/arch.rs:568-615 | if no call lapsed: all changed components switched, or all three pairs as before; under any faults each pair, and each crash state, is within its switch, and an unchanged component is not touched |
| `Installer.ArchInstaller.SwitchChanged` | crates/xray-manager-platform/src/linux/arch.rs:547-614 | success has every wanted component current; if every link could be read and no switch lapsed, exactly the components whose target is new have advanced, or on failure none |
| `Installer.ArchInstaller.CommitInstall` | crates/xray-manager-platform/src/linux/arch.rs:547-655 | pointers and state both advanced; or, on a failure in which no call lapsed, pointers and generation fields as before |
| `Installer.ArchInstaller.WriteInstalled` | crates/xray-manager-platform/src/linux/arch.rs:428-467 | each field shifts exactly when its name is new, and identities and backends are merged |
| `Installer.ArchInstaller.UndoInstall` | crates/xray-manager-platform/src/linux/arch.rs:615-740 | from whatever the switching left: if no restore and no write was without effect, all pairs are the old ones and, after a failed activation, the state too |
| `Installer.ArchInstaller.ActivateInstall` | crates/xray-manager-platform/src/linux/arch.rs:510-775 | if no call lapsed: all changed components and the state, or none, with the health stamp the only error after a commit; `Compensating` if and only if the write of the old state reported failure; the service calls in order, and a restart after undoing if there was a core; under any faults every pair is within its switch and the state is one of a stated list, for every crash on the way too, and an end in agreement is legal |
| `Installer.StrandedInstall` | crates/xray-manager-platform/src/linux/arch.rs:615-655 | a failed commit write that took effect keeps the invariant, with the pointers back, if and only if nothing was new |
| `Installer.InstallCrashStands` | crates/xray-manager-platform/src/linux/arch.rs:547-755 | a crash during an activation leaves every pointer on an existing directory until pruning starts, and agreement if and only if pointers and state are both as before or both moved |
| `Installer.ArchInstaller.ApplyInstallActions` | crates/xray-manager-platform/src/linux/arch.rs:1022-1162 | on any path only identities and backends of the state change; after success every identity that had to be created is recorded |
| `Installer.ArchInstaller.InstallOrRepair` | crates/xray-manager-platform/src/linux/arch.rs:1371-1414 | if no call lapsed: everything advanced or nothing moved, in agreement; an install that succeeds has the release as its core; a repair with core, assets and configuration reusable moves no pointer and no field; selection and recorded identities stay and a success names the backends in use; the process runs the installed directories if and only if none ran before or one with the same; in any crash no pointer dangles but to the version being replaced; it fails if a call failed, and otherwise only for an invalid tag; success ends with the active triple tested; under any faults the fields on disk are all old or all new |
| `Installer.ArchInstaller.ActivateUpgrade` | crates/xray-manager-platform/src/linux/arch.rs:835-938 | if no call lapsed: switched with the state shifted, or pointers and state as on entry, also after a failed state write that took effect; a success restarted the service with the final pointers, which answered if a node is selected; a failed one restarted it with the old ones; under any faults each pair is within its switch and the state is the old or the shifted one, for every crash on the way too |
| `Installer.ArchInstaller.UndoUpgrade` | crates/xray-manager-platform/src/linux/arch.rs:890-926 | from whatever the switching left: if no restore and no write was without effect, pointers and state are as on entry |
| `Installer.ArchInstaller.ApplyUpgrade` | crates/xray-manager-platform/src/linux/arch.rs:777-940 | if no call lapsed: all or nothing for every target, in agreement, and in any crash no pointer dangles but to the version being replaced; what was not asked for does not move, and of the state only generation fields; moved pointers end as a tested triple with which the service was restarted and, with a node selected, answered; it fails if a call failed, and otherwise only for an invalid tag or without an active configuration |
| `Installer.ArchInstaller.ApplyRemoval` | crates/xray-manager-platform/src/linux/arch.rs:1164-1241 | uninstall moves nothing; a purge that succeeds ends empty; if no call lapsed whole trees are there or gone; a failed one has only removed things, cores and assets only after the state, in every crash on the way too |
| `Installer.AgreementDecides` | crates/xray-manager-platform/src/linux/arch.rs:1164-1241 | after a removal the invariant is exactly agreement of what is left |
| `Installer.PurgedHalfway` | crates/xray-manager-platform/src/linux/arch.rs:1164-1241 | halfway keeps the invariant if and only if no core or asset pointer was set |
| `Installer.UpgradeIsLegal` | crates/xray-manager-platform/src/linux/arch.rs:835-926 | an upgrade's switched links with its shifted fields, around its preparation, are one legal step |
| `Installer.InstallIsLegal` | crates/xray-manager-platform/src/linux/arch.rs:547-755 | every end of an activation, after its preparation, is a legal step or idle |
| `Session.RunCommands` | crates/xrayctl/src/composition.rs:30-35 | for every command sequence under any faults: between commands the invariant holds for as long as pointers and state agree; if no call lapsed they stop agreeing only in a purge that stopped halfway; if no call failed every applicable command succeeds, and if all commands succeeded no call failed; if no call lapsed, no crash in a run without removals leaves a dangling pointer but to a version being replaced |
| `Session.Execute` | crates/xray-manager-core/src/application.rs:1609-1772 | a command that ends in agreement is a legal step, also one that committed and then failed to reload the state; it ends so if no call lapsed, unless it was a purge that stopped halfway; an apply that succeeds has the selection on disk; apply, install and repair that succeed end with the active triple tested, and apply and rollback with the service running the final pointers |
| `Tun.FailClosedNeverLeaks` | crates/xray-manager-platform/src/linux/mod.rs:390-429 | a fail-closed kernel leads marked packets only to the device or the fallback (blackhole for IPv4, unreachable for IPv6) if and only if every foreign route of the table has a better route that does |
| `Tun.AttachmentsKeepFailClosed` | crates/xray-manager-platform/src/linux/mod.rs:452-548 | from a fail-closed table whose foreign routes are all sheltered, no run of attach, detach and interface loss leaks or loses the fallback |
| `Tun.NeverLeaksIff` | crates/xray-manager-platform/src/linux/mod.rs:390-548 | after an up, no run of attachments leaks if and only if every foreign route below the fallback metric that the up found came after a fallback route not at the device metric |
| `Tun.ForeignDefaultLeaks` | crates/xray-manager-platform/src/linux/mod.rs:390-429 | a default route of metric 50 found in the table: the up is fail-closed and marked packets take that route |
| `Tun.NetworkStack.PolicySession` | crates/xray-manager-platform/src/linux/mod.rs:283-314 | for the imperative commands, on any table found: after a successful PolicyUp every run of attachments stays free of leaks if and only if the table was sheltered, and then this run does |
| `Tun.RuleCountAfterUp` | crates/xray-manager-platform/src/linux/mod.rs:566-575 | the effect of an up takes c owned rules to max(c, 32) - 31; `PolicyUp` has that effect when no removal failed |
| `Tun.PolicyUpIdempotentIff` | crates/xray-manager-platform/src/linux/mod.rs:316-429 | repeating an up changes nothing if and only if at most 32 rules were found per family |
| `Tun.NetworkStack.RemoveRule` | crates/xray-manager-platform/src/linux/mod.rs:566-575 | removes min(32, count) rules when no removal fails, never more |
| `Tun.NetworkStack.FamilyUp` | crates/xray-manager-platform/src/linux/mod.rs:390-429 | one family grows past one rule only by failed removals; success has its rule and its fallback route |
| `Tun.NetworkStack.RoutesUp` | crates/xray-manager-platform/src/linux/mod.rs:382-429 | success is fail-closed in both families; rules never grow past one but by failed removals; a failure in which no removal failed leaves no owned route and no rule that one pass could remove |
| `Tun.NetworkStack.PolicyUp` | crates/xray-manager-platform/src/linux/mod.rs:294-301 | success is fail-closed with the table loaded; when no removal failed it is exactly one up, with max(c, 32) - 31 rules for c found, and a failure leaves nothing that was not there before |
| `Tun.NetworkStack.AttachTun` | crates/xray-manager-platform/src/linux/mod.rs:452-513 | only device routes are added, whatever fails |
| `Tun.NetworkStack.DetachTun` | crates/xray-manager-platform/src/linux/mod.rs:515-548 | only device routes are removed; if no removal failed one default route through the device is gone in each family that is in use |
| `Tun.NetworkStack.RunTunInternal` | crates/xray-manager-platform/src/linux/mod.rs:283-314 | each of the eight actions has exactly its effect when no removal failed, attach and detach none without TUN |
| `Tun.NetworkStack.RunActions` | crates/xray-manager-platform/src/linux/mod.rs:283-314 | from a clean kernel, after every action of every run, each family has at most one owned rule and one more for each removal that failed |
| `Tun.TunManager.TunEnable` | crates/xray-manager-core/src/application.rs:1773-1801 | success is fail-closed, and free of leaks for all later attachments if and only if the table found was sheltered; it enabled and started the policy unit and restarted xray.service, and a failed restart stops the unit again; when no removal failed: success is one up, and a second one unless the unit was active, which are the same for at most 32 rules; a failure leaves nothing that was not there before, so nothing from down; unit enablement is not undone |
| `Tun.TunManager.StartUnit` | crates/xray-manager-platform/src/templates.rs:51-54 | starting the oneshot unit runs PolicyUp unless it is active |
| `Tun.TunManager.StopUnit` | crates/xray-manager-platform/src/templates.rs:51-54 | success ends the unit; stopping an active unit runs PolicyDown, and nothing else changes the network |
| `Tun.TunManager.TunDisable` | crates/xray-manager-core/src/application.rs:1802-1810 | asks the unit to stop first; when no removal failed no owned route or table is left and no rule that one pass could remove, whatever is reported; nothing at all for at most 32 rules |
| `Probe.StepKeepsInv` | crates/xray-manager-core/src/probe.rs:36-99 | every atomic step keeps permits plus holders equal to the limit, each task's events equal to its history, and outcomes equal to the joined tasks |
| `Probe.SchedulerSafety` | crates/xray-manager-core/src/probe.rs:36-99 | over all interleavings free and held permits make max(1, concurrency); a task emits one cancelled, or one started followed by at most one result; once it has reported exactly the events of that report: succeeded for a latency, failed for an error |
| `Probe.CancellationBound` | crates/xray-manager-core/src/probe.rs:46-65 | after the flag is set at most max(1, concurrency) further probes start |
| `Probe.EveryActionDecreases` | crates/xray-manager-core/src/probe.rs:36-113 | every action decreases a natural measure, so no run is infinite |
| `Probe.SomeActionEnabled` | crates/xray-manager-core/src/probe.rs:36-113 | no deadlock: until all tasks are joined the scheduler can move without cancellation or a panic |
| `Probe.CompleteConserves` | crates/xray-manager-core/src/probe.rs:101-114 | without panics the answered ids are exactly the input ids with multiplicity; with panics they are among them |
| `Probe.FlagIsTheCause` | crates/xray-manager-core/src/probe.rs:46-57 | no task answers that it was cancelled unless the flag was set |
| `Probe.PhasesReport` | crates/xray-manager-core/src/probe.rs:46-99 | in every state of every run what a task will answer is what one of the actions reported for it, and only that |
| `Probe.AnswersAreReports` | crates/xray-manager-core/src/probe.rs:79-82 | in every state of every run a joined task has been answered with exactly what was reported for it |
| `Probe.ProbeAll` | crates/xray-manager-core/src/probe.rs:28-114 | any fair or unfair schedule terminates and answers every node once, with what its probe reported, or cancelled, which needs the flag; the outcomes are exactly those pairs with multiplicity, streamed in returned order unless the listener hung up |
| `Registry.BackendRegistry.Resolve` | crates/xray-manager-platform/src/registry.rs:49-171 | the two loops compute the resolution function about which the lemmas below speak |
| `Registry.CollectIff` | crates/xray-manager-platform/src/registry.rs:54-74 | collecting succeeds if and only if every probe answers and ids are distinct, and files each factory under its id |
| `Registry.OrderIndependence` | crates/xray-manager-platform/src/registry.rs:49-171 | resolution depends on the multiset of factories and not on their order |
| `Registry.ResolutionIsHonest` | crates/xray-manager-platform/src/registry.rs:49-171 | one status for each required capability in order; supported means a contract-1 provider whose probe succeeded; whoever decides is followed; otherwise the least available id is chosen |
| `Registry.SelectionsAreSound` | crates/xray-manager-platform/src/registry.rs:77-168 | every selection is that of the command line, else of the configuration file, else of the installed state, under that source, each unless absent or "auto"; and otherwise automatic and the least available provider, or the least of contract 1 if none is available; every status that names a backend has its selection |
| `Registry.ChoiceFailsIff` | crates/xray-manager-platform/src/registry.rs:91-126 | resolving one capability fails if and only if the one who decides names no provider, or an unavailable one that is not of the installed state |
| `Registry.CommandLineSettles` | crates/xray-manager-platform/src/registry.rs:78-90 | a backend named on the command line is the selection, whatever configuration and installed state say, and two preferences that agree on it give the same selection and status |
| `Registry.InOrderIsComplete` | crates/xray-manager-platform/src/registry.rs:77 | a required capability is resolved exactly once and no other is |
| `LinuxBackends.MissingReason` | crates/xray-manager-platform/src/linux/mod.rs:58-112 | a probe's reason starts with "missing:" if and only if a required command is missing, whatever else is wrong |
| `LinuxBackends.OneProvider` | crates/xray-manager-platform/src/linux/mod.rs:175-235 | every capability is declared by exactly one production backend, and by which |
| `LinuxBackends.ProductionNeeds` | crates/xray-manager-platform/src/linux/mod.rs:58-112 | for each production backend exactly what makes its probe find it available |
| `Bootstrap.ProductionIsCovered` | crates/xray-manager-platform/src/linux/adapters.rs:20-43 | every command whose absence can excuse a bootstrap capability of a production factory is one the advisor reports and the filter keeps |
| `Bootstrap.ResolutionIsFaithful` | crates/xray-manager-core/src/application.rs:1466-1497 | a status that looks like a missing command comes from a factory that missed one, whatever is registered |
| `LinuxBackends.PackagesAreExact` | crates/xray-manager-platform/src/linux/adapters.rs:45-64 | each providing package once, in order; none if and only if nothing is missing |
| `LinuxBackends.PackageBrings` | crates/xray-manager-platform/src/linux/adapters.rs:45-64 | which programs each package brings: the table of programs read the other way |
| `LinuxBackends.ArchPackageAdvisor.MissingRequirements` | crates/xray-manager-platform/src/linux/adapters.rs:20-43 | exactly the advised commands that are absent, in order |
| `LinuxBackends.ProductionIsRegistrable` | crates/xray-manager-platform/src/linux/mod.rs:175-235 | over the nine production factories collecting fails only when systemd cannot be asked |
| `LinuxBackends.ResolvedIsInstantiable` | crates/xray-manager-platform/src/registry.rs:173-203 | what resolves over factories that can build what they declare is built if and only if the installer is not selected or does not refuse |
| `LinuxBackends.ProductionIsBuildable` | crates/xray-manager-platform/src/linux/mod.rs:115-167 | the production factories can build everything they declare |
| `Bootstrap.OperationGate.AddPlatformRequirements` | crates/xray-manager-core/src/application.rs:1499-1518 | a requirement is put in front of the plan if and only if a needed command is missing and an advisor exists |
| `Bootstrap.LeftoverExactly` | crates/xray-manager-core/src/application.rs:1499-1518 | a program is still asked for if and only if it is advised, absent, no namespace tool, and no routing tool of a host without TUN |
| `Bootstrap.RequiredBy` | crates/xray-manager-core/src/application.rs:2010-2055 | which operations ask for a capability, for each capability: the table of operations read the other way |
| `Bootstrap.OperationGate.FirstUnsupported` | crates/xray-manager-core/src/application.rs:1209-1213 | passes if and only if every capability is supported or excused |
| `Bootstrap.OperationGate.PlanInternal` | crates/xray-manager-core/src/application.rs:1168-1250 | succeeds exactly under its conditions, and the plan is the demand for packages, the actions of the platform and the group of the user who installs, each where it applies |
| `Bootstrap.OperationGate.PlanDemand` | crates/xray-manager-core/src/application.rs:1499-1518 | the first package demand of such a plan is the advisor's if there is one, and otherwise the platform's |
| `Bootstrap.OperationGate.Execute` | crates/xray-manager-core/src/application.rs:1546-1609 | the operation starts if and only if it is no dry run and capabilities, packages, confirmation, privilege and lock all allow it, and it is previewed if and only if it is a dry run that can be planned; with exactly the planned actions |
| `Bootstrap.OpenMeansReady` | crates/xray-manager-core/src/application.rs:1466-1518 | for any factories the advisor covers, an open gate means each required capability was reported supported, or its backend was short of commands when probed and has all of them now |
| `Bootstrap.GateIsExact` | crates/xray-manager-core/src/application.rs:1466-1518 | while no command appears, the gate opens if and only if every required capability is supported and nothing the advisor asks for is missing |
| `Bootstrap.RestorableIff` | crates/xray-manager-core/src/application.rs:1466-1497 | the bootstrap exception never depends on who chose the backend: what resolved and is short of commands was chosen automatically or by the installed state |
| `Bootstrap.ComposedFailsIff` | crates/xray-manager-platform/src/registry.rs:49-171 | over the production registry resolution fails if and only if systemd cannot be asked or an explicit choice cannot be honoured |
| `Bootstrap.ExplicitFailsIff` | crates/xray-manager-platform/src/registry.rs:91-126 | once every probe has answered, a choice is refused if and only if no factory of that id and capability is there, or its probe reports it unavailable and the choice is not of the installed state |
| `Bootstrap.ComposeAndExecute` | crates/xrayctl/src/composition.rs:30-76 | composition fails if and only if loading configuration, state or overrides fails, an HTTP client cannot be built, systemd cannot be asked, or an explicit choice cannot be honoured; otherwise the operation starts if and only if every required capability was reported supported and the rest of the gate is open |
| `Subscriptions.SubscriptionService.RefreshSubscriptions` | crates/xray-manager-core/src/application.rs:1080-1162 | exactly the enabled subscriptions are fetched, or the named one if it is enabled, in the order of their names; success writes the list in the order of the names, with the feed of each of them and the old nodes of all others, and the followed selection, and nothing else of the state; failures before the node list is written change nothing; a failed write leaves the old or the new value on disk and the selection in memory as it was |
| `Subscriptions.SubscriptionService.Fetch` | crates/xray-manager-core/src/application.rs:1106-1140 | the loop merges exactly the due subscriptions, and fails if and only if one of them cannot be fetched or parsed |
| `Subscriptions.RefreshReplacesBySubscription` | crates/xray-manager-core/src/application.rs:1106-1141 | the list is sorted by name and holds, for every subscription name, exactly its last due feed or its old nodes |
| `Subscriptions.RefreshConserves` | crates/xray-manager-core/src/application.rs:1106-1141 | with unique names the list is a permutation of the other subscriptions' old nodes and everything fetched |
| `Subscriptions.RefreshIsIdempotent` | crates/xray-manager-core/src/application.rs:1106-1141 | refreshing again from unchanged feeds gives the same list, ties included |
| `Subscriptions.ReselectionIsExact` | crates/xray-manager-core/src/domain.rs:223-238 | the selection changes only when its node vanished and exactly one node has the same subscription and normalised name, and then to that node |
| `Subscriptions.LostIff` | crates/xray-manager-core/src/domain.rs:223-238 | the selection is reported lost if and only if its node vanished and not exactly one node has the same subscription and normalised name |
| `Subscriptions.OthersKeepTheSelection` | crates/xray-manager-core/src/application.rs:1143-1160 | refreshing other subscriptions never moves the selection |

## Left out

- Subscription and URI parsing, Base64, JSON and TOML encoding, node ids: a feed is a function from a subscription to its parsed nodes or a failure; trimming and lower-casing names is a function parameter.
- Rendering of Xray JSON, unit files and nft rules: rendering may fail and is otherwise opaque; the nft table is present or absent.
- Downloads, release lookup, archive extraction, health checks, the `xray` process, systemctl, chown: calls that succeed or fail.
- `upgrade_manager`, which replaces the manager's own binary.
- Windows pointers and the durability that directory syncs buy; renames are atomic and seen in order.
- Doctor and status queries, command line, text interface, logging, KDE proxy, application namespaces.
- `write_routing_and_apply`: a failing node load after the write leaves the new routing.toml in place (crates/xray-manager-core/src/application.rs:806), so it is no transaction.
- `GenerationService` and the policy commands of the interface, which repeat logic modelled here in a simpler form.
- Processes that overlap: see the fault model.
- Momentary gaps while `routes_up` removes and re-adds a rule, and between firewall and routes in PolicyUp: fail-closed is stated between completed operations.
- Tun.NeverLeaksIff: looks at the owned rule and the owned table only; a rule of another owner that is consulted earlier, or another program that changes the table between two commands, is not modelled. The runs may attach in either family at any time, since whether IPv6 is enabled can change while the routes stay.
- Warnings returned by a refresh, beyond whether the selection was kept, moved or lost.
- Operations on services, subscriptions files, application profiles and the desktop proxy, which pass the gate without touching pointers or kernel policy.
- Sequential consistency: the probe scheduler's relaxed cancel flag is read as if memory were sequentially consistent, so the cancellation bound counts from the moment the flag is visible.
- A panic inside a probe's cancellation branch or event sink; only the probe itself may panic.
- Bootstrap.ComposeAndExecute: takes it that no command appears on PATH between the probes and the advisor's look; `Bootstrap.OpenMeansReady` says what an open gate means without that.
- Subscriptions.RefreshConserves: asks for unique names among the due subscriptions; each name comes from the content of its file and the source does not check it (crates/xray-manager-core/src/application.rs:702-719). `Subscriptions.RefreshReplacesBySubscription` needs no uniqueness. Both rely on parsing to stamp each node with its subscription's name.
- Installer.ArchInstaller.ReusableCore: the answers of `version` and of the asset files, and whether the link can be read, are parameters, so that a repair can be said to find everything healthy; the same holds for `Installer.ArchInstaller.ReusableAssets`.
- A crash within one port call other than the pointer moves and the removals: a directory is made, renamed or removed, and state.json replaced, as a whole.
- A service that dies, or that anyone else starts or stops: `process` is what the manager last started it with. Which of several services a call concerns is in `signals`; units other than xray.service and the policy are not.
