# Verification of openvpn-docker's control plane

A Dafny model of the parts of openvpn-docker that must not go wrong: the file journal that is
joined to the SQLite journal, the IPv4 allocator and the client lifecycle over it, the protocols
between supervisor, appliers and management broker, the two recoveries of whole data directories,
the firewall chains an instance owns, and the rotating log with its reader.

`dafny verify dfyconfig.toml` checks the whole project.

| file | what it models |
|---|---|
| Results.dfy, Faults.dfy | options and results; an environment in which any step may fail or crash, finitely often |
| ArtifactJournal.dfy | `internal/artifact/local.go`: staging, installing through backups, commit, rollback |
| StateJournal.dfy | the operation journal and artifact metadata in SQLite |
| ManifestLimit.dfy | which operations have manifests small enough to be read back |
| Recovery.dfy | `internal/recovery/operations.go` and the refresh protocol of `internal/derived/service.go`, over both stores |
| Ipam.dfy, Order.dfy, Remap.dfy | address layout, allocator, and the three-phase remap of `internal/configuration/plan.go` |
| Clients.dfy, AddressBatch.dfy, AddressSheet.dfy | client lifecycle, batches of address changes, and the sheet in which they are edited |
| Supervisor.dfy | supervisors, control handlers and configuration appliers over one runtime lock |
| Broker.dfy | the broker's exchanges, reload gate and initialization waiters |
| Initialize.dfy, Migration.dfy | first initialization, resumed forward, and migration, restored from a snapshot |
| Firewall.dfy | the iptables chains of an instance |
| RotatingLog.dfy | log rotation and the ring buffer that reads it back |

## How runs are modelled

Code that changes state step by step is a class whose methods take the same steps. Every durable
step goes through `Faults.Environment.Step`, which may proceed, fail, or crash the process, at an
arbitrary point but only finitely often. What a method ensures for every outcome therefore holds
for a crash at every point of it, and the `...ThroughCrashes` methods run an operation and then
its recovery again and again until it finishes.

The concurrent protocols are state machines: a function gives the world after one step of one
party, a run is any sequence of steps, and the theorems speak of every run from the start.

## Main results

- A refresh cut anywhere, with recoveries cut anywhere, beside any operations interrupted before it on
  other keys, leaves files and metadata both new or both old, as SQL's commit alone decides
  (`Recovery.RefreshThroughCrashes`, `Recovery.RefreshBeside`); recovery of any set of
  interrupted operations never meets a conflict (`Recovery.RecoverOperations`).
- Interrupted operations can be reopened, and so recovered, exactly if their manifests are at most
  1 MiB, which a bound on the plan ensures at every crash point (`ArtifactJournal.JournaledIsReadable`,
  `ManifestLimit.JournaledWithinBound`).
- Rollback never refuses what an installation or an earlier rollback can leave, and restores it
  exactly (`ArtifactJournal.Operation.Rollback`).
- A remap succeeds exactly if the static clients fit, and puts each client where the clients' old addresses
  alone decide: it stays, keeps its host bits, or takes the least free address in its turn
  (`Remap.RemapAddresses`, `Remap.RemapSucceeds`, `Remap.RemapKeeps`, `Remap.RemapIdentity`).
- Every client operation keeps one invariant from which all addresses on the network are distinct
  (`Clients.GlobalDistinctness`), gives the client what its selection grants and touches nobody else
  (`Clients.ClientStore.Reissue`, `AddressBatch.ApplyAddresses`); a batch may permute addresses
  (`AddressBatch.BatchInsertable`).
- Children run only under the shared lock, appliers exclude them, READY means that children and rules
  are gone, and a resumed runtime is current (`Supervisor.ChildrenUnderLock`, `Supervisor.ApplyExcludesRuntime`,
  `Supervisor.ReadyHolds`, `Supervisor.ResumedRunsCurrent`). For a first start, for firewall rules and for
  the management API the exact conditions are `Supervisor.FirstStartCurrent`,
  `Supervisor.RulesWithoutLock` and `Supervisor.ApiUnderApplier`; for the life of each child it is
  `Supervisor.ChildLives`.
- A reload reports success only if its own command was answered with success and OpenVPN has initialized
  since (`Broker.ReloadSawInit`); no other client command is exchanged during it, no waiter misses its initialization and no
  channel is closed twice (`Broker.ReloadIsExclusive`, `Broker.InitWaiterWakes`, `Broker.NoPanic`).
- Migration ends all or nothing through any crashes, and so does initialization, except exactly if a failed
  clean-up spoils the directory or a temporary marker litters it (`Migration.ApplyThroughCrashes`, `Initialize.InitializeThroughCrashes`).
- Foreign firewall rules survive every run, reconciling is idempotent, and an interrupted run can be repeated
  exactly if the instance still recognizes its chains (`Firewall.Reconcile`, `Firewall.ReconcileIdempotent`,
  `Firewall.ReconcileThroughFaults`).
- The log is always the end of what was written, and the reader returns its last lines
  (`RotatingLog.Log.Write`, `RotatingLog.Tail`).

## Where the code falls short of its promise

Each of these is proved; where the promise is kept under a condition, the member named states it.

- Client mutations do not look for interrupted operations before they start. If one shares a key with
  an interrupted one, the later rollback of that one can undo what the mutation has committed, or be
  refused; `ArtifactJournal.LateRollback` says exactly when, whatever was committed. The plainest case is a
  retry: it commits the file that the interrupted one has already put in place, and the rollback deletes it
  (`ArtifactJournal.RetryIsUndone`, `Recovery.RetryBreaksAuthority`).
- Manifests are saved at any size but read back only up to 1 MiB. A larger one, which an operation over
  some thousands of files has (client mutations journal the whole PKI tree), blocks every recovery for
  ever (`ManifestLimit.TooManyEntries`, `ManifestLimit.OversizedOperation`); one within the bound of
  `Recovery.WorldWithinLimit` does not.
- A first start reads its revision before it holds the runtime lock and may run an outdated one; it does
  exactly if an apply came in between (`Supervisor.FirstStartCurrent`, `Supervisor.FirstStartMayBeStale`).
  Runtimes that have been through a yield cannot.
- Firewall rules can outlive the lock, because a failed reconciliation is not cleaned up again and the errors
  of the last cleanup are ignored (`Supervisor.RulesWithoutLock` says exactly when, `Supervisor.RulesOutliveLock`).
- Yielding stops openvpn and the broker but not the management API (`Supervisor.ApiUnderApplier`,
  `Supervisor.ApiOutlivesYield`).
- A supervisor that is killed outright drops its lock but leaves its children running
  (`Supervisor.ChildrenOutliveKill`); `Supervisor.ChildrenUnderLock` says that this is the only way.
- A line left over on a connection that was dropped is taken for an answer to what is sent on the next one
  (`Broker.StaleReaderAnswers`); an answer is from its own connection exactly if that is still the current
  one when the line is read (`Broker.ReaderServesOwn`).
- The clean-up after a failed staging ignores errors. If only the stage cannot be removed, its marker is gone
  all the same. If writing the prepared marker failed in its last sync, the marker is there; should its
  removal fail too after parts of the stage are gone, recovery finds entries missing. Either way the data
  directory is refused for ever (`Initialize.DataDirectory.AbandonStage`, `Initialize.DataDirectory.Initialize`).
- A crash while the first or the prepared marker is written can leave its temporary file, which recovery does
  not remove; the directory then never counts as empty again (`Initialize.DataDirectory.WriteMarker`,
  `Initialize.InitializeThroughCrashes`).
- A migration interrupted after its snapshot but before its marker, or after a recovery but before
  its next marker, is refused from then on because the snapshot exists; so is one interrupted while
  the snapshot's temporary file exists (`Migration.DataDirectory.Apply`).
- The total size limit of a restore is checked only while extracting, when the live tree is already
  gone, and not when the snapshot is made (`Migration.DataDirectory.RestoreSnapshot`, `Migration.OversizedTree`).
- Two instances whose ids share their first twelve digits: an older chain of one blocks every
  reconciliation of the other (`Firewall.SharedPrefixBlocks`).
- A chain without jump and marker is nobody's. A kill or a failing command leaves one in two places: between
  making a chain and marking it, and, whenever chains are removed, between flushing a chain and
  deleting it. The instance can then never reconcile or clean up again (`Firewall.UnmarkedBlocks`,
  `Firewall.FlushedBlocks`; `Firewall.ReconcileThroughFaults` says that nothing else does this).
- Exactly 64 duplicate jumps are all removed and then reported as too many (`Firewall.Table.RemoveJump`).
- An address sheet of more than 1 MiB is written but never accepted back (`AddressSheet.SheetRoundTrip`,
  `AddressSheet.ClientsThatFit`, `AddressSheet.OversizedSheet`).

## Assumptions

- Saving a manifest or marker is a rename, which happens or does not, and a sync of the directory: if the
  sync fails, an error is returned and the new file stands. A temporary file left before the rename matters
  only where it is modelled, for the marker of an initialization and the snapshot of a migration. Removing a marker and committing an SQL
  transaction are single steps, which did not happen if they return an error.
- A log line is written as a whole or not at all.
- Artifact keys are Unicode text, so that their length in a manifest is that of their UTF-8 encoding.
- Digests are injective; artifact keys are flat names; generated identifiers are fresh.
- `BeginOperation` (directory and first manifest) and `cleanup` are single steps: a directory without
  a manifest makes `OpenOperation` refuse. Safety does not depend on it, success of recovery does.
- Operations interrupted together have disjoint keys. Configuration apply checks that nothing is interrupted;
  the other callers do not, and for them it is a hypothesis.
- A migration's result is found to be current by the next planning, and nothing but the migration
  writes the business tree between a snapshot and its recovery.
- The firewall tables change only through the instance's own commands while it reconciles.

## Model

| member | source | states |
|---|---|---|
| ArtifactJournal.RollbackRestores | internal/artifact/local.go:417-457 | For an entry in any state an installation or an interrupted rollback can leave, rollback is never refused, restores the original content and mode exactly, and doing it twice changes nothing more |
| ArtifactJournal.RollbackStaysRecoverable | internal/artifact/local.go:425-453 | Both intermediate file states of rolling one entry back can be rolled back again, also under an older manifest |
| ArtifactJournal.RollbackKeepsUntouched | internal/artifact/local.go:434-453 | An entry the installation never reached is left alone by rollback |
| ArtifactJournal.LateRollback | internal/artifact/local.go:417-457 | If a later operation has committed over an interrupted one, whatever it committed: exactly when rolling that one back leaves the committed state, and exactly when it is refused |
| ArtifactJournal.RetryIsUndone | internal/artifact/local.go:434-450 | A retry that commits the very file the interrupted operation had put where there was none is deleted by the rollback of that one, although there is no backup |
| ArtifactJournal.JournaledIsReadable | internal/artifact/local.go:630-689 | A manifest that a crash can leave behind passes all the checks made when it is read back exactly if its encoding is at most 1 MiB |
| ManifestLimit.JournaledWithinBound | internal/artifact/local.go:328-365 | However much evidence an operation has gathered, its manifest stays within a bound computed from its plan alone |
| ManifestLimit.TooManyEntries | internal/artifact/local.go:622-641 | With 9620 entries or more the manifest is too large to be read back, whatever the entries are |
| ManifestLimit.TooManyReplaced | internal/artifact/local.go:622-641 | So it is once 3772 existing files have been replaced |
| ManifestLimit.OversizedOperation | internal/artifact/local.go:622-641 | There is an operation, journaled as required, that can never be reopened |
| ArtifactJournal.LocalStore.BeginOperation | internal/artifact/local.go:145-166 | A new operation starts prepared and empty over the current targets; it is refused exactly if its id exists |
| ArtifactJournal.LocalStore.OpenOperation | internal/artifact/local.go:168-192 | An interrupted operation reopens with its durable manifest exactly if that is at most 1 MiB, which is the only reason to refuse it |
| ArtifactJournal.Operation.Stage | internal/artifact/local.go:223-280 | Journals a write exactly when state, mode, key, uniqueness and size allow it; targets stay as they are, and a fault leaves a recoverable journal |
| ArtifactJournal.Operation.Remove | internal/artifact/local.go:283-300 | Journals a deletion, also of an absent file, exactly when state, key, uniqueness and target mode allow it |
| ArtifactJournal.Operation.Preflight | internal/artifact/local.go:306-316 | Every staged file and target is checked before the first rename; a refusal names a target that cannot be installed over |
| ArtifactJournal.Operation.BackUpOriginal | internal/artifact/local.go:328-365 | Evidence is saved before the original is renamed into the backup, so every fault in between stays recoverable |
| ArtifactJournal.Operation.InstallEntry | internal/artifact/local.go:317-384 | One entry goes from untouched to installed; stopped anywhere, it can still be rolled back, and no other key moves |
| ArtifactJournal.Operation.Install | internal/artifact/local.go:302-391 | On success every planned key holds its new content or is gone; after any fault the journal is recoverable and keys outside the plan are untouched |
| ArtifactJournal.Operation.Commit | internal/artifact/local.go:393-408 | Refused exactly outside files-installed and committed; when it finishes the operation directory is gone |
| ArtifactJournal.Operation.Cleanup | internal/artifact/local.go:727-732 | The directory goes as a whole or stays as it was |
| ArtifactJournal.Operation.RestoreBackup | internal/artifact/local.go:425-431 | Puts one backup back over whatever is at the target, restartable after each of its two steps |
| ArtifactJournal.Operation.RestoreEntry | internal/artifact/local.go:417-457 | Rolls one entry back without ever being refused |
| ArtifactJournal.Operation.Rollback | internal/artifact/local.go:410-463 | Refused only for a committed operation; when it finishes all targets of the plan equal their values before the operation; interrupted, it can be run again |
| StateJournal.StateStore.PrepareOperation | internal/store/sqlite/journal.go:49-71 | A prepared row is inserted unless the id exists; on any fault nothing changes |
| StateJournal.StateStore.AdvanceOperation | internal/store/sqlite/journal.go:74-104 | Exactly the row named moves, and exactly if it is open and moves on; committed is reached only from files-installed, and a settled row stays as it is |
| StateJournal.UpsertedMeaning | internal/store/sqlite/client_operation.go:122-152 | Upserting a batch of metadata sets each of its keys and no other |
| StateJournal.RetiredMeaning | internal/store/sqlite/artifact_operation.go:61-86 | Retiring metadata removes exactly the rows whose key and owner are named |
| StateJournal.AppliedMeaning | internal/store/sqlite/artifact_operation.go:38-86 | Key by key: the row of an active item, none for a deletion under its owner, and else the old row |
| StateJournal.FollowingKeepsOwners | internal/store/sqlite/client_operation.go:122-152 | A commit hands no row to another owner or kind, and leaves every row with an owner that exists and fits its kind |
| StateJournal.AdmitsOne | internal/store/sqlite/artifact_operation.go:38-60 | Checking the rows of a batch one by one against the rows changed so far is the same as checking the whole batch at once |
| StateJournal.StateStore.UpsertAll | internal/store/sqlite/artifact_operation.go:38-60 | The loop accepts exactly the acceptable batches and then computes their rows |
| StateJournal.StateStore.RetireAll | internal/store/sqlite/artifact_operation.go:61-86 | The loop accepts exactly the acceptable deletions and then computes the remaining rows |
| StateJournal.StateStore.CommitArtifactOperation | internal/store/sqlite/artifact_operation.go:21-104 | Metadata and journal row change together, exactly from files-installed with acceptable metadata, or not at all: afterwards each active item has its row, a row deleted under its owner is gone, and every other row is as it was |
| Recovery.OperationElsewhere | internal/artifact/local.go:302-463 | What one operation does on its keys cannot disturb an interrupted operation on other keys |
| Recovery.WorldStep | internal/recovery/operations.go:62-125 | Replacing one operation's directory and row by consistent ones keeps the two journals in agreement for all of them |
| Recovery.RollBackFiles | internal/recovery/operations.go:64-74 | Never hits the conflict branch: an operation SQL has not committed is not committed in its files; its rollback is refused only for a manifest over 1 MiB, and then nothing changes |
| Recovery.MarkRolledBack | internal/recovery/operations.go:76-78 | Every pending row can be marked rolled back |
| Recovery.FinishCommit | internal/recovery/operations.go:105-113 | Never hits the conflict branch: an operation SQL has committed has its files installed, and finishing it moves no target; refused only for a manifest over 1 MiB |
| Recovery.RecoverPending | internal/recovery/operations.go:62-80 | After the first loop no row is pending and no commit is undone; with nothing pending it does nothing; it stops short only at a manifest over 1 MiB, which stays |
| Recovery.RecoverRemaining | internal/recovery/operations.go:81-125 | After the second loop no operation directory is left, whatever order it takes them in; it stops short only at a manifest over 1 MiB, which stays |
| Recovery.RecoverOperations | internal/recovery/operations.go:30-127 | For any finite set of interrupted operations on disjoint keys: never a conflict, and without faults it finishes exactly if every manifest is at most 1 MiB; then both journals are empty, every operation is all or nothing as SQL decided, and a second run takes no action |
| Recovery.WorldWithinLimit | internal/artifact/local.go:622-641 | Operations whose plans are within the bound can always be reopened, at whatever point they were interrupted |
| Recovery.Abandon | internal/derived/service.go:399-403 | The rollback closure leaves a state recovery can finish, and without faults leaves no trace |
| Recovery.StageAll | internal/derived/service.go:404-413 | Without faults staging succeeds exactly if keys, modes and sizes are acceptable and no key comes twice; it then journals exactly the intended writes and deletions |
| Recovery.IntendedMeaning | internal/derived/service.go:402-411 | What is staged is what was asked for: each write with its content and mode, each deletion, and no other key |
| Recovery.InstallAndCommit | internal/derived/service.go:414-422 | Stops before the SQL commit with unchanged metadata, or passes it with the files installed and the metadata applied |
| Recovery.CommitFiles | internal/derived/service.go:423-425 | An error after the SQL commit leaves a state that recovery completes |
| Recovery.Refresh | internal/derived/service.go:368-431 | Without faults a refresh succeeds exactly if it can be staged, installed over its targets and accepted by SQL, and else leaves both stores as they were; when SQL commits, each key written or deleted has its new file and row and every other row is as it was; however it ends, recovery can finish it, and whatever is pending beside it stays as it is |
| Recovery.WorldExtended | internal/recovery/operations.go:62-125 | An operation on keys of its own, started beside interrupted ones, leaves a state that recovery handles for all of them |
| Recovery.RefreshBeside | internal/derived/service.go:368-431 | A refresh started beside any interrupted operations on other keys leaves one more of them, however it ends |
| Recovery.RefreshThroughCrashes | internal/derived/service.go:391-425 | Two-store atomicity, beside any interrupted operations on other keys: cut anywhere, with recoveries cut anywhere, if SQL committed, every file asked for is written or gone and the rows follow the request, and if not, all files and rows are the old ones; other keys keep file and row; recovery gets there unless a manifest left behind is over 1 MiB, which the bounds on what was asked exclude |
| Recovery.RefreshKeepsAuthority | internal/store/sqlite/artifact_operation.go:21-104 | If SQL digests describe the files before a refresh that describes its own files, they do so after it |
| Recovery.RetryBreaksAuthority | internal/recovery/operations.go:64-78 | After a retry over an interrupted operation SQL is authoritative over its file, until recovery rolls the interrupted one back |
| Ipam.PrefixMaskMeaning | internal/ipam/ipv4.go:170-175 | The shifted 32-bit mask is 2^32 - 2^(32-prefix), for every prefix of section 3.1 of RFC 4632 |
| Ipam.BitAndLow | internal/configuration/plan.go:269-275 | Masking with 2^k - 1 is the remainder by 2^k |
| Ipam.BitOrDisjoint | internal/configuration/plan.go:275-275 | Or-ing host bits into an aligned network address adds them |
| Ipam.LayoutPartition | internal/ipam/ipv4.go:59-87 | A layout exists exactly for prefixes up to 30 and pools up to the capacity; static and dynamic regions are disjoint, have exactly the stated sizes and partition the addresses between server and broadcast, with no 32-bit wrap |
| Ipam.LayoutValues | internal/ipam/ipv4.go:68-85 | The exact bounds of every region, free of truncation |
| Ipam.LayoutRoundTrip | internal/store/sqlite/client_state.go:487-516 | The layout rebuilt from the stored pool bounds is the layout that was stored |
| Ipam.MembersSize | internal/ipam/ipv4.go:151-157 | A region holds as many addresses as its capacity says |
| Ipam.LeastFreeMeaning | internal/ipam/ipv4.go:141-148 | The search returns the least free address, and fails exactly when the region is full |
| Ipam.RoomLeft | internal/ipam/ipv4.go:128-148 | A region is full exactly when as many of its addresses are used as it has |
| Ipam.CheckStaticSet | internal/ipam/ipv4.go:113-126 | Accepts exactly the lists of distinct addresses of the static region |
| Ipam.NextStatic | internal/ipam/ipv4.go:130-149 | Refuses invalid lists; otherwise its result depends only on the set of used addresses and is the least free one |
| Remap.MapHostBitsMeaning | internal/configuration/plan.go:265-277 | For a canonical network the result is the network plus the host part of the address, and stays inside the network |
| Remap.OfferedMeaning | internal/configuration/plan.go:200-221 | One offering phase gives exactly the winners their candidate: a valid one, not taken before and not offered to an earlier client |
| Remap.KeptMeaning | internal/configuration/plan.go:200-208 | A client keeps its address exactly if it lies in the new region and no earlier client has the same one |
| Remap.HostBitsKept | internal/configuration/plan.go:210-221 | A client placed by the second phase keeps its host bits |
| Remap.FilledInOrder | internal/configuration/plan.go:222-240 | The remaining clients take the least free addresses in client order |
| Remap.AssignedMeaning | internal/configuration/plan.go:197-240 | The three phases succeed exactly if the static clients fit, and then every one has its own address of the region |
| Remap.RemapKeeps | internal/configuration/plan.go:197-208 | In the changes of a successful remap, a static client whose old address is its own and in the new region stays as it is, whatever happens to the others |
| Remap.RemapIdentity | internal/configuration/plan.go:166-246 | Remapping to a layout in which all static addresses are valid and unique succeeds, and no change changes anything |
| Remap.RemapSucceeds | internal/configuration/plan.go:166-240 | With well-formed assignments, succeeds exactly if the layout is valid, no dynamic client faces an empty pool, and the static clients fit |
| Remap.RemapSound | internal/configuration/plan.go:241-246 | On success one change for each assigned client, of unchanged kind and status, with pairwise distinct static addresses of the new region |
| Remap.OfferAll | internal/configuration/plan.go:200-221 | The loop over the clients still unset computes one offering phase and the addresses then in use |
| Remap.NextFree | internal/configuration/plan.go:226-237 | Asking the allocator with the used map as a list gives the least free address |
| Remap.FillAll | internal/configuration/plan.go:222-240 | The last loop computes the filling phase, and stops exactly when it has no address left |
| Remap.Collect | internal/configuration/plan.go:174-195 | Splits the clients, with the first objection in client order |
| Remap.AssignedIsPlacement | internal/configuration/plan.go:197-240 | The three phases put every static client where the rule on its own old address and those of the others says |
| Remap.PlanTellsPlacement | internal/configuration/plan.go:166-246 | The changes of the plan tell of each client its own place |
| Remap.FirstObjectionMeaning | internal/configuration/plan.go:174-195 | The error is that of the first client with a missing static address, or dynamic without a pool; there is none exactly if no client is so |
| Remap.RemapAddresses | internal/configuration/plan.go:166-254 | The changes, sorted by name and id, tell of every client with an assignment and of nobody else. A static client stays if its address is in the region and no earlier one has it; else it keeps its host bits if that address is in the region, kept by nobody and claimed by no earlier one; the rest take, in client order, the least address not given away; dynamic ones are unchanged. Otherwise the first client that cannot be remapped is named, or the static clients do not fit |
| Order.Sort | internal/configuration/plan.go:122-128 | Sorts by name and then id, losing and adding nothing |
| Order.LessMeaning | internal/configuration/plan.go:122-128 | One string is before another exactly if at the first difference it ends or has the lower character |
| Clients.ConsistentLoads | internal/store/sqlite/client_state.go:380-442 | Every reachable client passes the checks made when it is loaded: status, timestamps, assignment, lease, and owner, kind and key of its profile and CCD |
| Clients.KeysHaveOwnPaths | internal/derived/service.go:148-164 | No two profiles or CCDs are stored under the same path |
| Clients.GlobalDistinctness | internal/store/sqlite/client_state.go:444-472 | Network, server and broadcast address, all current static addresses and all leases are pairwise distinct |
| Clients.ChooseFits | internal/client/mutation.go:355-401 | A planned assignment is admissible and free, an automatic one is the least free address, and it fails exactly when the region is full |
| Clients.ChooseGrants | internal/client/mutation.go:355-401 | A choice is what the selection grants among the free addresses, and there is one exactly if it grants anything |
| Clients.ChangeKeepsConsistent | internal/store/sqlite/client_lifecycle_operation.go:28-46 | Any change that leaves other clients alone, fits the changed ones' own rows and clashes with nobody keeps the whole invariant |
| Clients.CreatedConsistent | internal/store/sqlite/client_operation.go:27-35 | Creating a client under a free name with an admissible address keeps the invariant |
| Clients.RenamedConsistent | internal/store/sqlite/client_operation.go:65-87 | Renaming moves the profile row and keeps the invariant |
| Clients.RevokedConsistent | internal/store/sqlite/client_lifecycle_operation.go:28-44 | Revoking retains or releases the one assignment, retires the CCD, and keeps the invariant |
| Clients.ReissueFits | internal/client/lifecycle.go:367-385 | A kept or newly planned assignment of a reissue clashes with no other client |
| Clients.ReissuedConsistent | internal/store/sqlite/client_lifecycle_operation.go:77-106 | Reactivating or replacing the assignment keeps the invariant |
| Clients.DeletedConsistent | internal/store/sqlite/client_lifecycle_operation.go:136-148 | Deleting keeps the invariant |
| Clients.LeasedConsistent | internal/store/sqlite/client_state.go:282-306 | Taking a lease over from whoever held it keeps leases injective and inside the dynamic pool |
| Clients.RevokeThenReissue | internal/client/lifecycle.go:367-374 | Reissuing a client revoked without release gives back its assignment and artifacts; only its lease is gone |
| Clients.RevokedAddress | internal/store/sqlite/client_lifecycle_operation.go:35-41 | A revoked client's address stays out of others' reach exactly if it was not released |
| Clients.RenameBack | internal/store/sqlite/client_operation.go:68-84 | Renaming a client and back restores every row |
| Clients.DeleteFrees | internal/store/sqlite/client_lifecycle_operation.go:136-148 | Deleting frees the client's name and address and leaves it no assignment, lease or artifact |
| Clients.ClientStore.PlanAssignment | internal/client/mutation.go:355-401 | The scan over the other clients grants a place in the pool, the address asked for if it is in the region and nobody else has it, or the least such address; it is refused exactly if there is none, as invalid if no tables could grant it and else as a conflict |
| Clients.ClientStore.Create | internal/client/mutation.go:86-226 | Succeeds exactly if the name is free and the selection can be granted beside the other clients; the client is then active with its own new row, holding what was granted, and nothing of others changes |
| Clients.ClientStore.Rename | internal/client/mutation.go:228-316 | Succeeds exactly for a current client and a free or unchanged name, and changes only name and profile; assignments, leases and all of others stay |
| Clients.ClientStore.Revoke | internal/client/lifecycle.go:20-105 | Succeeds exactly for an active client; it is revoked, its row is gone if released and else retained as it was, its lease is gone, and nothing of others changes |
| Clients.ClientStore.PlanReissue | internal/client/lifecycle.go:367-385 | Without a selection keeps the current row, reactivated; else, or without a row, plans a new row among the others, automatic by default |
| Clients.ClientStore.CommitReissue | internal/store/sqlite/client_lifecycle_operation.go:84-106 | The transaction does not fail on a planned row; the client is then active with exactly that row and without a lease, and nothing of others changes |
| Clients.ClientStore.Reissue | internal/client/lifecycle.go:107-233 | Without a selection a current client with a row gets that row back, with its identifier and address; with one, or without a row, it succeeds exactly if the selection, automatic by default, can be granted, and then has a new row under the new identifier with what was granted; nothing of others changes |
| Clients.ClientStore.Delete | internal/client/lifecycle.go:235-316 | Succeeds exactly for a current client; it becomes a tombstone without assignment and lease, and nothing of others changes |
| Clients.ClientStore.RecordLease | internal/store/sqlite/client_state.go:273-307 | Succeeds exactly for a current dynamic assignment and an address of the pool; the client then has that lease, whoever had that address has none, and every other lease stays |
| AddressBatch.PlannedFits | internal/client/address.go:134-176 | A resolved batch gives every client an admissible address that neither an unselected nor another selected client has |
| AddressBatch.PlannedPrefix | internal/client/address.go:136-176 | A later selection does not change what earlier ones got |
| AddressBatch.AutoBatchAscends | internal/client/address.go:151-159 | In an automatic batch the clients take the least free addresses in name order, ascending without gaps |
| AddressBatch.BatchInsertable | internal/store/sqlite/client_address_operation.go:59-87 | After releasing all selected rows, each single insert meets the uniqueness rules exactly if the final assignment is unique, also when a batch permutes addresses |
| AddressBatch.BatchRows | internal/store/sqlite/client_address_operation.go:59-113 | After a batch each client has the row of its own change, active or retained by its status, and all other rows and leases are as before |
| AddressBatch.BatchConsistent | internal/store/sqlite/client_address_operation.go:59-113 | A committed batch keeps the whole client invariant |
| AddressBatch.BatchPlaceable | internal/client/address.go:111-177 | The batch that the manager plans is always one that the transaction accepts |
| AddressBatch.CheckChanges | internal/store/sqlite/client_address_operation.go:33-58 | Accepts exactly the well-formed batches against current rows |
| AddressBatch.InsertAll | internal/store/sqlite/client_address_operation.go:69-87 | The insert loop succeeds exactly if the final assignment is unique and in range |
| AddressBatch.SwapCcds | internal/store/sqlite/client_address_operation.go:88-113 | Retires and then activates the CCD metadata of the batch |
| AddressBatch.CommitClientAddresses | internal/store/sqlite/client_address_operation.go:21-134 | Commits exactly the checked batches with a unique final assignment: each client has the row its own change asks for and no lease, nobody else's rows change; otherwise nothing changes |
| AddressBatch.Resolve | internal/client/address.go:144-174 | One selection against the used list yields the specified choice |
| AddressBatch.PlanBatch | internal/client/address.go:134-176 | The loop over the targets computes the specified plan |
| AddressBatch.PlannedResolves | internal/client/address.go:134-176 | Each selection comes to what it grants beside the unselected clients and the selections before it, or the first that grants nothing stops the plan |
| AddressBatch.ApplyAddresses | internal/client/address.go:111-178 | In name order each client gets a row under its own new identifier with what its own selection grants beside the unselected clients and the clients before it: the fixed address, the pool, or the least free address; rows and leases of others stay. If some selection can be granted nothing, no table changes |
| AddressBatch.ReleaseAddress | internal/client/address.go:63-77 | Succeeds exactly for a revoked client with a retained assignment; that assignment and any lease go, and nothing else changes in any table |
| AddressSheet.WriteSheet | internal/client/address.go:242-263 | The loop writes the header and one row for each target |
| AddressSheet.ValueMeaning | internal/client/address.go:242-263 | A target is written as dynamic or as the four octets of its address in dotted decimal, in order |
| AddressSheet.ParseAll | internal/client/address.go:291-304 | The loop rejects at the first bad, unknown or repeated row |
| AddressSheet.ParseSheet | internal/client/address.go:265-309 | Size, header, rows and completeness decide |
| AddressSheet.AcceptedIsTotal | internal/client/address.go:286-308 | Every accepted sheet has exactly one row for each selected client: a total one-to-one map to its values |
| AddressSheet.EditedIsAccepted | internal/client/address.go:265-308 | Rows of the selected clients in any order with any plain values are accepted and read as meant |
| AddressSheet.SheetRoundTrip | internal/client/address.go:242-308 | Parsing the unedited sheet returns the current selections exactly if it is at most 1 MiB; a larger one is always rejected |
| AddressSheet.ClientsThatFit | internal/client/address.go:242-280 | Every unedited sheet of up to 12945 clients is accepted, and none of more than 104856 |
| AddressSheet.OversizedSheet | internal/client/address.go:242-280 | 14400 clients with the longest names have a sheet that is written and never accepted |
| Supervisor.StartupFits | internal/runtime/supervisor.go:63-157 | A startup step acquires the lock only when it is free and starts children only under it |
| Supervisor.YieldingFits | internal/runtime/supervisor.go:187-217 | A yielding supervisor answers READY only once it has stopped its children, cleaned the network and released the lock |
| Supervisor.LeavingFits | internal/runtime/supervisor.go:137-145 | Each exit kills the children, then tries to clean the network if it counts as active, then releases the lock; being killed drops the lock and nothing else |
| Supervisor.TakeKeeps | internal/runtime/control.go:172-232 | Every step of every supervisor, handler, applier and mutation keeps the protocol invariant |
| Supervisor.ChildrenUnderLock | internal/runtime/supervisor.go:116-145 | In every interleaving openvpn and broker are alive, and the network counts as active, only while their supervisor holds the shared lock, unless it has been killed |
| Supervisor.ApplyExcludesRuntime | internal/configuration/apply.go:91-119 | While one applier holds its locks, no other does, and no supervisor that has not been killed has a child alive |
| Supervisor.ReadyMeansYielded | internal/runtime/control.go:203-216 | READY is written only after child death, removal of all rules and lock release |
| Supervisor.ReadyHolds | internal/runtime/control.go:213-222 | It stays so until the handler answers whether to resume |
| Supervisor.ResumedRunsCurrent | internal/runtime/supervisor.go:207-213 | A runtime that came back from a yield runs the current revision for as long as it runs under the lock |
| Supervisor.OkMeansCurrent | internal/runtime/control.go:224-232 | OK is answered only by a runtime that runs the current revision under the lock with openvpn and broker started, each alive unless it has died since it was started, or by one whose supervisor is already ending |
| Supervisor.WholeApply | internal/runtime/supervisor.go:187-217 | A run of a whole apply: yielded, resumed, and about to answer OK on the new revision with both children alive |
| Supervisor.ExitLeavesNothing | internal/runtime/supervisor.go:137-145 | However a supervisor leaves, it leaves no child, API or lock behind |
| Supervisor.RulesWithoutLock | internal/runtime/supervisor.go:97-145 | In every run, firewall rules stand without their supervisor's lock exactly if the last work on them abandoned them: rules of an earlier run never looked at, a failed reconciliation, or a final cleanup whose error was ignored |
| Supervisor.RulesOutliveLock | internal/runtime/supervisor.go:123-144 | A run in which a failed reconciliation leaves rules that stand while an applier works |
| Supervisor.OneRequestInService | internal/runtime/control.go:190-196 | A supervisor serves at most one control request at a time |
| Supervisor.FirstStartCurrent | internal/runtime/supervisor.go:42-76 | In every run, a supervisor that has not yielded runs the current revision exactly if what it had read was still current when it got the lock |
| Supervisor.FirstStartMayBeStale | internal/runtime/supervisor.go:42-76 | A run in which it was not |
| Supervisor.ChildLives | internal/runtime/supervisor.go:116-145 | In every run openvpn, broker and API are each alive exactly if started and since then neither dead nor ended by a step that stops, kills or loses it |
| Supervisor.ApiLives | internal/runtime/supervisor.go:116-122 | In every run the management API is alive exactly if it was started and has neither died nor been killed on an exit since; no step of a yield ends it |
| Supervisor.ApiUnderApplier | internal/runtime/supervisor.go:187-217 | While an applier holds its locks an API is alive exactly under that condition, and its supervisor is then yielded, about to relock, about to kill it on an exit, or killed |
| Supervisor.ApiOutlivesYield | internal/runtime/supervisor.go:116-123 | For each of those phases a run in which the API lives on beside an applier |
| Supervisor.ChildrenOutliveKill | internal/runtime/supervisor.go:137-145 | A run in which the children of a killed supervisor live on beside an applier |
| Broker.ExchangingOk | internal/broker/broker.go:274-341 | A step of connecting or exchanging keeps the gate, mutex and pending invariants, as all other calls may rely on |
| Broker.TakeKeeps | internal/broker/broker.go:188-429 | Every step of requesters, maintainer, readers and Close keeps the invariant and none panics |
| Broker.NoPanic | internal/broker/broker.go:353-356 | No run closes a reload gate or an initialization channel twice |
| Broker.OnePending | internal/broker/broker.go:311-340 | The pending response belongs to the call that holds commandMu and is exchanging it |
| Broker.NeverBusy | internal/broker/broker.go:313-317 | An exchange never finds the connection busy, and connecting never overwrites a live connection |
| Broker.OnlyOwnerOpens | internal/broker/broker.go:393-403 | Only the call that marked a reload opens its gate, and its finishReload always does |
| Broker.ReloadIsExclusive | internal/broker/broker.go:188-241 | In every run, between marking a reload and the marker's finishReload no other call exchanges a client command |
| Broker.GateWaiterWakes | internal/broker/broker.go:193-203 | A call waiting for a gate waits for an open one or for one whose owner is still to open it |
| Broker.InitWaiterWakes | internal/broker/broker.go:372-391 | A waiter cannot miss an initialization newer than its captured generation |
| Broker.ReloadSawInit | internal/broker/broker.go:216-239 | In every run a reload reports success only if a reader has read success as the first line of the response to its own command, and OpenVPN initialized after the reload passed its check |
| Broker.AnswerIsResponse | internal/broker/broker.go:332-340 | In every run an exchange succeeds exactly if its own response has no error and success as its first line |
| Broker.ReloadSucceeds | internal/broker/broker.go:188-241 | A run in which a reload reports success |
| Broker.ReaderServesOwn | internal/broker/broker.go:343-369 | A line is added to the response to what was sent on its own connection exactly if that connection is still current |
| Broker.StaleReaderAnswers | internal/broker/broker.go:343-369 | A run in which a line left over on a dropped connection answers the subscription of the next one |
| Initialize.DataDirectory.RemoveStage | internal/initialize/service.go:339-341 | A fault leaves any part of the stage behind |
| Initialize.DataDirectory.Advance | internal/store/sqlite/journal.go:74-104 | Allowed transitions of the initialization's row |
| Initialize.DataDirectory.InstallEntry | internal/initialize/service.go:257-285 | Refused exactly for an entry that is nowhere or in both places; otherwise it ends in place, and nothing built is lost |
| Initialize.DataDirectory.InstallEntries | internal/initialize/service.go:257-292 | From a complete stage all entries end in place with the content that was built, a fault leaves a resumable split, and the moved flags never lie; with an entry missing it never gets to the end |
| Initialize.DataDirectory.CommitInstalled | internal/initialize/service.go:301-335 | Row and marker advance without ever being refused, from any point an earlier run reached |
| Initialize.DataDirectory.InstallPrepared | internal/initialize/service.go:250-349 | Refused only if an entry is missing, and then for ever; otherwise ends with the installed tree, a committed row and no marker, or in a state to run it from again |
| Initialize.DataDirectory.Recover | internal/initialize/service.go:228-248 | A crash while staging goes back to a bare directory, without removing a temporary marker, a later one forward to the complete one, unless an entry is missing; without a marker nothing happens |
| Initialize.DataDirectory.BuildStage | internal/initialize/service.go:129-195 | A complete, validated stage with a prepared row, or a fault |
| Initialize.DataDirectory.WriteMarker | internal/initialize/service.go:464-497 | If only the sync after the rename fails, an error is returned although the marker is there; the temporary file stays only after a crash, or an error whose clean-up failed, before the rename |
| Initialize.DataDirectory.AbandonStage | internal/initialize/service.go:123-128 | Back to bare exactly if both removals succeed; the stage is left without its marker exactly if only its own removal failed; an entry is lost under a prepared marker exactly if that was there, its removal failed and the stage is no longer whole |
| Initialize.DataDirectory.Initialize | internal/initialize/service.go:76-214 | Leaves a directory that can be recovered, except exactly if its clean-up left the stage without the marker or the prepared marker over an incomplete stage; either is refused for ever, and so is one bare but for a temporary marker |
| Initialize.InitializeThroughCrashes | internal/initialize/service.go:228-348 | Whatever crashes strike it and its recoveries, the directory ends spoilt by the clean-up exactly in those two cases, and otherwise complete if the marker has ever said prepared and was not taken back, and bare if not; a bare one is refused for ever exactly if a temporary marker is left |
| Migration.TotalIsWeight | internal/migration/apply.go:624-628 | What a restore counts is the total size of the files of the tree |
| Migration.Archive | internal/migration/apply.go:507-517 | The archive extracts to the tree it was made of; it is made exactly if no file exceeds the per-file limit |
| Migration.AfterMeaning | internal/migration/apply.go:174-193 | The migrated tree has the staged version of the six installed entries and the old version of all others |
| Migration.DataDirectory.RestoreSnapshot | internal/migration/apply.go:580-646 | From any live tree back to the snapshot, entries absent then being absent again; refused exactly for totals over 1 GiB, by then with an incomplete tree |
| Migration.OversizedTree | internal/migration/apply.go:507-517 | There is a tree that is archived without objection and too large in total to be restored |
| Migration.DataDirectory.RecoverInterrupted | internal/migration/apply.go:461-490 | What the directory stands for never changes: before the commit marker the old tree comes back, after it the new one stays |
| Migration.DataDirectory.CreateSnapshot | internal/migration/apply.go:492-535 | A snapshot of the live tree, unless an unfinished one is in the way or a file is too large |
| Migration.DataDirectory.InstallEntry | internal/migration/apply.go:174-185 | Replaces one live entry by its staged one |
| Migration.DataDirectory.InstallEntries | internal/migration/apply.go:174-193 | Ends in the migrated tree, or interrupted with the snapshot intact |
| Migration.DataDirectory.Migrate | internal/migration/apply.go:140-209 | From marker to marker: the old tree, or the migrated one |
| Migration.DataDirectory.Apply | internal/migration/apply.go:84-211 | All or nothing; without faults it succeeds exactly if nothing is to be done, or an interrupted tree can be restored, or no snapshot, finished or not, is in the way and no file is too large |
| Migration.ApplyThroughCrashes | internal/migration/apply.go:461-490 | Cut anywhere, with recoveries cut anywhere, the tree ends as it was or migrated as a whole, and migrated exactly if the marker has ever said committed |
| Firewall.Table.RemoveJump | internal/network/network.go:322-338 | Removes all duplicates of one jump and nothing else; 64 or more count as too many |
| Firewall.Table.RemoveChain | internal/network/network.go:272-304 | Succeeds exactly if the chain is absent, or owned, jumped to less than 64 times and by nothing else; a chain that is not recognized is not touched |
| Firewall.Table.PrepareChain | internal/network/network.go:228-250 | Leaves the chain with just the owner's marker, and refuses an existing chain without it |
| Firewall.Table.InsertRules | internal/network/network.go:106-113 | The rules stand in order before the marker |
| Firewall.Table.EnsureJump | internal/network/network.go:264-270 | Exactly one jump, at the end |
| Firewall.Table.Build | internal/network/network.go:103-126 | Builds chain and jump where there was neither; foreign rules and chains stay, also when it fails |
| Firewall.TwoRemovals | internal/network/network.go:129-149 | Removing both chains of an instance, each as far as it goes, keeps every foreign rule in order and every unrecognized chain |
| Firewall.Cleanup | internal/network/network.go:129-149 | Removes exactly what the instance owns in both tables; foreign rules and chains stay on every run; however it ends, each table can be worked on again exactly if the instance recognizes its chains in it |
| Firewall.Reconcile | internal/network/network.go:68-127 | On success the filter chain holds egress, reply and marker exactly if NAT, redirection or routes ask for it, the NAT chain masquerade and marker exactly if NAT does, each with one jump, last, and nothing under the older name; foreign rules and chains, and another instance's older chain, stay on every run; without faults it succeeds exactly if the instance can remove what carries its names; however it ends, each table can be worked on again exactly if the instance recognizes its chains in it |
| Firewall.RulesFor | internal/network/network.go:83-127 | The rules that stand for each configuration, one by one |
| Firewall.CleanableExactly | internal/network/network.go:272-304 | Tables without too many or other jumps to the instance's chains, which every run keeps so, can be cleaned exactly if each of its chains is recognized |
| Firewall.ReconcileThroughFaults | internal/network/network.go:68-149 | Repeated for as long as it fails or is killed, reconciling ends as configured, as if nothing had failed, or refused for ever, and then exactly because a chain is not recognized any more |
| Firewall.ReconcileIdempotent | internal/network/network.go:83-127 | Reconciling again, also for another configuration, gives what the last one alone gives |
| Firewall.CleanupUndoes | internal/network/network.go:129-149 | Cleanup after Reconcile takes away exactly what was added |
| Firewall.UnownedBlocks | internal/network/network.go:291-293 | A chain under the older name that the instance does not recognize keeps it from reconciling |
| Firewall.UnmarkedBlocks | internal/network/network.go:233-249 | A chain made but not yet marked, as a kill or a failing command leaves it, blocks every later reconciliation; once marked it does not |
| Firewall.FlushedBlocks | internal/network/network.go:294-302 | So does a chain whose jumps and marker are gone when its deletion fails or is not reached, from any tables that could be cleaned before |
| Firewall.SharedPrefixBlocks | internal/network/network.go:160-166 | Two instances whose ids share twelve digits: the older chain of one blocks the other for good |
| RotatingLog.ScanText | internal/runtime/stream.go:165-172 | A file of whole lines is read back line by line, less up to two carriage returns at each line end |
| RotatingLog.RenameKeeps | internal/broker/broker.go:476-480 | Renaming a file to the free number above it keeps the history |
| RotatingLog.Log.Rename | internal/broker/broker.go:476-484 | Only the highest file can be overwritten |
| RotatingLog.Log.Rotate | internal/broker/broker.go:469-485 | Each file takes the number above, the highest one only where the one below moves onto it; the history stays, or loses just the lines of its oldest file; a failure in between keeps it in order |
| RotatingLog.Log.Write | internal/broker/broker.go:448-467 | Rotates exactly if the current file is not empty and would exceed the limit, and then the line starts a new file; else it is appended and nothing is lost. The files always hold the end of all lines written; a line is added as a whole or not at all, and at most the oldest file is dropped |
| RotatingLog.Ring.AppendLine | internal/runtime/stream.go:55-65 | The ring holds the last lines seen |
| RotatingLog.Ring.Ordered | internal/runtime/stream.go:66-74 | Unrolled from its oldest slot the ring is those lines in order |
| RotatingLog.LastMeaning | internal/runtime/stream.go:55-74 | The last lines are as many as asked for or all, and the final ones in order |
| RotatingLog.RotationPaths | internal/runtime/stream.go:116-145 | All numbered backups, highest first |
| RotatingLog.PathsGoDown | internal/runtime/stream.go:116-145 | Taking the numbered backups highest first and then the current file is going down all numbers |
| RotatingLog.DownwardsIsHistory | internal/runtime/stream.go:75-113 | Read downwards, the files of a log are its history |
| RotatingLog.StreamHistory | internal/runtime/stream.go:52-114 | Exactly the last lines, as many as asked for or there are, of the backups from the highest number down and the current file |
| RotatingLog.Tail | internal/runtime/stream.go:52-114 | A reader of the log gets the last lines of its history, and so the last lines ever written as long as they are kept |

## Left out

- Symbolic links, ownership, permission checks on directories, umask and nested directory keys of the real file system; only file maps and renames are modelled.
- Client mutations and configuration apply as drivers of the two journals; they follow the protocol of the refresh, and only their effect on the tables is modelled.
- Configuration commits that change the network itself; the client invariant is over one fixed network.
- Certificate, key and CRL artifacts of a client; its profile and CCD are modelled.
- Identifiers, fingerprints and certificate columns of the artifact tables, audit events, timestamps and recovery payloads.
- The order of pending operations by creation time; recovery is proved for every order.
- Supervisor.TakeKeeps: lock timeouts, HUP forwarding and the wait for the broker's socket are nondeterministic steps; supervisors of one instance that share a network namespace one after the other are told apart, and what an earlier one left is a parameter of the later one's start.
- Broker.OnePending: which lines a response gets after a timeout is not claimed; of a response line only whether it begins with SUCCESS or ERROR, is END, or is none of these is modelled, and of notifications only a completed initialization.
- Initialize.DataDirectory.InstallPrepared: instance validation is an arbitrary but fixed function of the installed trees; certificate expiry between staging and recovery is not captured.
- Migration.DataDirectory.BuildStage: conversion to the new schema is given as its resulting tree; leftover stage directories and empty nested directories are not captured.
- Firewall.Reconcile: enabling forwarding and finding the egress interface are a single step that may fail; rule text, command output and exit codes are not modelled.
- RotatingLog.Log.Write: a write cut short, which would leave the beginning of a line for the next one to continue, is excluded by assumption.
- RotatingLog.StreamHistory: following a growing file, the scanner's limit of 1 MiB a line, and logs whose limits were lowered, which keep stale backups, are not captured.
- AddressSheet.SheetRoundTrip: parsing of edited address texts, which is library code; clients keep their texts as written.
- Templates, X.509, Easy-RSA, YAML and JSON, the HTTP API, the command line, and repair planning.
