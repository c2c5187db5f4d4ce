# Fursoy vault: durable eviction and guarded removal

The native host moves the cookies of an account group out of the browser into an encrypted vault. One
move is an operation: begin, bind the snapshot, mark its durability unknown, replace the vault file,
mark it committed, let the extension remove the cookies, complete. Journal, vault and lease are three
files that are never written together, so a crash can fall between any two writes. This project models
that engine, the extension's side of the removal, and the components around them, and proves what they
keep over every run.

## How the project is laid out

- `JournalModel`, `AtomicFile`, `JournalStore`: the journal's phases, edits and validation, one durable
  file write with all its failure points, and the journal's file and memory together.
- `EngineSpec`: every handler of a group as a function on values. A state carries `log`, the list of
  durable states the handler passed through; a crash leaves one of them.
- `EngineRuntime`: the same handlers as the host runs them, a class whose methods update fields and
  files step by step. Each method is proved to reach the state, give the answer and pass through the
  durable states of its function, and a connection is proved to be a run.
- `EngineInvariant`, `EngineSafety`, `EngineRuns`: the invariant, its proof for every handler, and the
  theorems about whole runs with crashes.
- `EngineCommitFaults`: a commit whose vault write fails while the process goes on.
- `EngineAnswers`: for every message, exactly when the host takes it, what it answers and what changes.
- `EngineLeases`: leases and unresolved operations exclude each other; an unlock
  spends a capability.
- `CommitTransfer`: a whole snapshot through the host, from its chunks to the vault and to the
  authorisation of its removal.
- `GuardedRemoval`, `CookieIdentity`, `RemovalHost`, `Removal`: the extension's removal plan and loop,
  and host, extension, browser and message channels as one transition system.
- `RemovalReach`: a prepare of the committed snapshot goes through, and runs that delete exist.
- `OperationReferences`: the extension's durable references to operations.
- `Audit`, `AuditLog`, `AuditRuns`, `AuditLogger`: the chained audit log.
- `Capability`, `Staging`, `Chunks`, `Codec`, `Scopes`: capability ledger, staged vault deletion, chunk
  transfer, vault record format, scope ownership.

## Assumptions

SHA-256, HMAC, AEAD and JSON encoding are free constructors, so digests, MACs, tags and encodings are
injective. Rename is atomic. One process writes a profile. Messages of a connection arrive in order.
Unless a property says otherwise a run is crash-stop: an I/O error ends the process. Clocks, random
identifiers and nonces, and the platform's answers are parameters of the steps (`Env`, `WriteOutcome`,
`Fault`, function parameters). Identifiers are natural numbers with 0 for the nil UUID.

About the extension, `Removal` assumes what its single task queue gives: a prepare and its chunks are
sent without other messages between them, a removal loop runs without other handlers (only handshakes
and status queries are sent beside it), a result is reported only when no prepare is outstanding, and at
most one prepare is outstanding at a time. Everything else is free: messages of any content in any
order, any change of the browser's cookies at any moment, a delete call that removes any cookies,
crashes of the host at any write and in startup, restarts of the extension's worker.

## Properties the code does not have

Each has a lemma at a failing input or family and the exact condition under which the code meets it.

- A cookie that the site replaces between the loop's reading and the delete call is lost: of the
  identities the reading showed, a removed cookie is in the vault if and only if it is the one shown
  (`Removal.DeletedIsSealed`). The call may remove further cookies as a side effect; those too are in the
  vault if the reading showed them.
- `session.invalidate` looks at the pending operation in memory and not at the journal
  (native-host/src/dispatcher.rs:1129, compare 920). The vault of a committed operation is lost if and
  only if the host accepts an invalidation with nothing pending (`RemovalHost.HandleKept`); it still
  authorises the removal afterwards (`RemovalHost.CarelessInvalidationLosesVault`).
  `Removal.DeletedIsSealed` is about runs without such a message.
- A second prepare before the first is answered replaces the held snapshot, and the first authorisation
  then lets the loop work from the second reading. Whatever it deletes is sealed if and only if that
  reading shows nothing to delete that the first did not (`Removal.SecondPrepareSafeIff`,
  `Removal.SecondPrepareEscapes`).
- Cookies that agree in all identity fields are one to the extension, for example a host-only cookie and
  its domain twin; a reading shows every cookie if and only if there are none such
  (`CookieIdentity.ReadingHidesIff`, `CookieIdentity.HostOnlyTwinIsHidden`).
- The journal in memory can fall behind the file: exactly when a rename is visible, its sync fails and the
  read that would notice fails too (`JournalStore.InSyncIff`, `JournalStore.UnnoticedFirstBegin`).
- An operation that startup finds in Committed never completes
  (`EngineRuns.RestingCommittedNeverCompletes`).
- The repair of an enrollment's lease restores the lease id of the begin, which need not be the granted
  one (`EngineRuns.CompletionCrashInvisible` gives the exact condition).
- A prepare forgets the number of captured cookies, so a recovered enrollment that is asked to prepare
  a removal never completes (`EngineLeases.PreparedEnrollmentNeverCompletes`), and the success told for
  an enrollment is weaker than the journal's own test (`EngineLeases.ReportDecides`).
- A commit that would leave the vault unchanged is aborted, not committed, by a crash before its first
  write (`EngineRuns.CrashInsideCommit`).
- An append that stops early can leave an audit log that startup refuses: if and only if it left part of a
  line, or a new day's file without an entry that later is the last expired one
  (`AuditRuns.PartialAppendIff`, `AuditRuns.EmptyDayRefused`). Over whole runs the log is refused if and
  only if a line was torn, or written with memory behind the chain after a failed sync, or the last
  expired file is empty (`AuditRuns.ReopenResumesIff`, `AuditRuns.SoundRunIff`,
  `AuditLog.StaleRecordBreaksChain`).
- A clock set back by a day breaks the audit chain (`AuditLog.AppendVerifiesIff`), and so does a crash
  inside compaction (`AuditLog.CompactionCrash`).
- A config write that fails after replacing the file leaves a vault that no group owns, if and only if the
  group had one (`Staging.RemoveOrphansIff`, `Staging.PolicyOrphansIff`), or lets one be written later
  (`Staging.LateFailureForgetsGroup`).
- A record whose encoding has exactly the chunk target's size is accepted only as the first of its list
  (`Chunks.ChunkRecords`: success if and only if `Fits`).
- The host trims all leading dots of a scope, the extension one: they agree if and only if there are not
  two (`Scopes.SidesAgreeIff`), and a scope with two passes validation and does not match its own host
  (`Scopes.DoubleDotPassesValidation`).

## Model

| member | source | states |
|---|---|---|
| `JournalModel.Validate` | native-host/src/operation/model.rs:161-211 | the loader's loop accepts a journal if and only if it is of version 1 and this group, its sequences increase and end at the high-water mark, ids are distinct, every request is well formed under its own fingerprint and every claimed commit has a snapshot |
| `JournalModel.BeginKeepsValid` | native-host/src/operation/journal.rs:54-86 | a begin that creates an operation yields a journal the loader accepts |
| `JournalModel.BindKeepsValid` | native-host/src/operation/journal.rs:111-135 | binding a snapshot yields a journal the loader accepts |
| `JournalModel.TransitionKeepsValid` | native-host/src/operation/journal.rs:137-160 | every phase change the graph permits yields a journal the loader accepts |
| `JournalModel.BeginIff` | native-host/src/operation/journal.rs:54-86 | a request under a known id is a duplicate exactly if it repeats the first in all its parts and is refused otherwise; under a new id it becomes one more operation with the next sequence, not committed and without a snapshot |
| `JournalModel.BindIff` | native-host/src/operation/journal.rs:111-135 | a snapshot is bound exactly to an operation before its commit that has none or this one, and touches nothing else |
| `JournalModel.TransitionIff` | native-host/src/operation/journal.rs:137-160 | a phase change is taken exactly if the graph has it and a commit has a snapshot, and touches that phase alone |
| `JournalModel.EnteredFrom` | native-host/src/operation/model.rs:31-45 | for each phase, the phases from which it is entered |
| `JournalModel.BecomesIff` | native-host/src/operation/model.rs:31-51 | one phase can follow another over any number of changes if and only if nothing is committed yet, or it lies on the way from the commit to removal, completion or reconciliation; after a commit nothing is aborted or opened again |
| `JournalModel.EvolvesTransitive` | native-host/src/operation/model.rs:31-51 | the relation between a journal and a later one (operations appended, identities and snapshots write-once, terminal phases absorbing) composes |
| `AtomicFile.AtomicFile.WriteVerifiedDurable` | native-host/src/atomic_file.rs:52-109 | which of the three results each failure point gives, and that the file then holds the old or the new bytes: NotCommitted the old, Committed the new; a stale temporary makes the write fail once and is removed |
| `AtomicFile.UnknownIsSettledByDigest` | native-host/src/atomic_file.rs:111-131 | a result of unknown durability is settled if and only if the re-read succeeds: the object is then the target exactly when readers see it, otherwise the previous one, never a third; when the read fails both are possible |
| `JournalStore.JournalStore.Open` | native-host/src/operation/journal.rs:28-41 | opening succeeds exactly on readable contents and loads them |
| `JournalStore.JournalStore.Persist` | native-host/src/operation/journal.rs:162-208 | for every failure of the read before, the write and the read that settles it, from any state; started in agreement, memory stays what a restart would load if and only if a new journal was not written unnoticed |
| `JournalStore.InSyncIff` | native-host/src/operation/journal.rs:162-208 | memory equals the readable file after a persist if and only if it is not the case that the rename was visible, its sync failed, the re-read failed and the journal changed |
| `JournalStore.SuccessIsDurable` | native-host/src/operation/journal.rs:162-208 | success from any state means that file and memory are the new journal; a failure keeps memory, and the file unless the write went unnoticed |
| `JournalStore.PersistSucceedsIff` | native-host/src/operation/journal.rs:162-208 | a persist succeeds if and only if the journal is valid, the file could be read, no temporary is in the way, and the write is durable or found in the file when it is read again; every attempt to write leaves no temporary behind |
| `JournalStore.UnnoticedFirstBegin` | native-host/src/operation/journal.rs:186-192 | the failing input: the first operation of a fresh profile ends in the file but not in memory |
| `JournalStore.JournalStore.Begin` | native-host/src/operation/journal.rs:54-86 | a duplicate or refused request writes nothing; agreement is lost exactly when a created operation was written unnoticed |
| `JournalStore.JournalStore.BindSnapshot` | native-host/src/operation/journal.rs:111-135 | agreement is lost exactly when a new binding was written unnoticed |
| `JournalStore.JournalStore.Transition` | native-host/src/operation/journal.rs:137-160 | agreement is lost exactly when a new phase was written unnoticed |
| `EngineInvariant.StartupRecoverSettles` | native-host/src/operation/coordinator.rs:303-339 | recovery is total on every well-formed journal and any vault: no illegal phase change, and the unresolved operation ends in the phase that the vault's digest alone determines |
| `EngineInvariant.RecoverPhaseSettles` | native-host/src/operation/recovery.rs:18-79 | classification of the vault and the phase write, for every phase and any vault content |
| `EngineInvariant.StartupRecoverIdempotent` | native-host/src/operation/coordinator.rs:303-339 | a second recovery changes nothing, and what stays unresolved is committed with its target in the vault |
| `EngineInvariant.ReconciliationResolvesAll` | native-host/src/operation/coordinator.rs:181-209 | preparing a v6 reconciliation succeeds and leaves nothing unresolved |
| `EngineInvariant.TransitionShape` | native-host/src/operation/model.rs:31-51 | only the one unresolved operation can change phase; the graph's edges are taken exactly |
| `EngineSafety.OpenSafe` | native-host/src/dispatcher.rs:140-208 | from any disk a crash can leave, startup succeeds, every state it writes satisfies the disk invariant, and it ends with journal, vault and lease in agreement |
| `EngineSafety.LoadLeaseGood` | native-host/src/lease/metadata.rs:103-145 | loading never refuses a disk that satisfies the invariant; without a vault the lease becomes Uninitialized |
| `EngineSafety.PreparedTrue` | native-host/src/transaction.rs:164-236 | the prepared digests describe the current vault and the bytes to write; no write is needed exactly for an empty snapshot over a vault |
| `EngineSafety.PreparedIff` | native-host/src/transaction.rs:164-236 | records become the vault's next version, or its first, exactly within the size and sequence limits; an empty snapshot leaves a vault as it is and cannot make one; a file that is no record is never written over |
| `EngineSafety.CommitGood` | native-host/src/operation/coordinator.rs:211-281 | without an I/O error the commit of a host at rest succeeds, every one of its writes keeps the disk invariant, and it ends committed with the target in the vault |
| `EngineCommitFaults.FaultyCommit` | native-host/src/operation/coordinator.rs:252-280 | for every failure of the vault write and of the read that settles it: the phase the operation is left in, every durable state keeps the disk invariant, the vault holds the previous or the prepared bytes, success is reported exactly when the operation is Committed, and failure with the target in the vault exactly for a visible rename whose sync and re-read both failed |
| `EngineCommitFaults.RestartAfterFaultyCommit` | native-host/src/operation/coordinator.rs:252-280 | whatever failed, the next startup marks the operation Committed if and only if the vault holds the target, Aborted otherwise |
| `EngineCommitFaults.NoFaultIsCommit` | native-host/src/operation/coordinator.rs:211-281 | without a fault this is the commit of the runs |
| `EngineSafety.HandleSafe` | native-host/src/dispatcher.rs:830-907 | every message, whatever its contents, keeps the invariant at every single write and only lets the journal evolve |
| `EngineRuns.RunSafe` | native-host/src/dispatcher.rs:140-208 | the invariant holds at the end of every run of startups, messages and crashes |
| `EngineRuns.StartupAfterAnyRun` | native-host/src/dispatcher.rs:140-208 | after every run startup succeeds; an unresolved operation is Committed or BrowserRemovalPending with its target on disk, and the lease is Degraded with its id and vault sequence |
| `EngineRuns.VaultIsNeverUnclaimed` | native-host/src/lease/metadata.rs:103-145 | an Uninitialized lease never coexists with a vault file at any crash point, so the refusal at load never fires |
| `EngineRuns.JournalOfEveryRun` | native-host/src/operation/model.rs:161-211 | every reachable journal has sequences 1..high-water, distinct operation and attempt ids, only its last operation unresolved, and DurabilityUnknown only with a snapshot |
| `EngineRuns.RunEvolves` | native-host/src/operation/journal.rs:54-160 | between any two moments of a run operations are only appended, identities and snapshots never change and terminal phases are absorbing |
| `EngineRuns.RestingCommittedNeverCompletes` | native-host/src/operation/model.rs:31-45 | an operation that rests in Committed stays there or is given up, in every continuation |
| `EngineRuns.RepeatedBeginIsIdempotent` | native-host/src/dispatcher.rs:1542-1597 | repeating a begin with the same attempt writes nothing, creates nothing and is answered with the same operation |
| `EngineRuns.CrashInsideCommit` | native-host/src/operation/coordinator.rs:211-281 | for a crash after any number of writes of a commit the vault holds the previous or the prepared bytes, and startup marks the operation Committed iff it holds the target, Aborted otherwise |
| `EngineRuns.CompletionCrashInvisible` | native-host/src/dispatcher.rs:168-208 | a crash between the Completed write and the lease write is repaired to the very lease of the uncrashed run, if and only if the vault is present and an enrollment's begin carried the granted lease id |
| `EngineAnswers.OpenRefuses` | native-host/src/lease/metadata.rs:103-145 | from any three files startup refuses another group's lease, a vault that no lease knows, and a journal that is not valid |
| `EngineAnswers.LoadedLease` | native-host/src/lease/metadata.rs:103-145 | the lease startup works from is the file's, or the group's first one, written, exactly where there is none or it has lost its vault |
| `EngineAnswers.OpenedLease` | native-host/src/dispatcher.rs:140-208 | the whole lease after startup from any disk a crash can leave: what a completed operation makes of it, or Degraded, naming operation and vault sequence exactly if recovery found them committed, or the lease loaded |
| `EngineAnswers.HandshakeIff` | native-host/src/dispatcher.rs:350-416 | accepted exactly if every group takes it: the connection's first, naming this process's profile, with a protocol at least the floor, so that after protocol 7 a client of protocol 6 is refused; a group that does not take it writes nothing |
| `EngineAnswers.HandshakeLease` | native-host/src/lease/metadata.rs:76-88 | taken under protocol 6 it changes no lease; under protocol 7 it sets the floor, covers every issued operation by the high-water mark and counts one transition, also when another group refuses afterwards, and writes nothing if that holds already |
| `EngineAnswers.UnlockIff` | native-host/src/dispatcher.rs:1023-1099 | an unlock is granted exactly from a sealed vault, with authorisation and with nothing under way, for the requested time; a refusal changes nothing |
| `EngineAnswers.EnrollIff` | native-host/src/dispatcher.rs:941-1021 | an enrollment under protocol 7 is granted exactly to a group without lease and vault and with nothing under way, and only records the lease |
| `EngineAnswers.EnrollV6Iff` | native-host/src/dispatcher.rs:941-1021 | under protocol 6 the operation begins with the grant |
| `EngineAnswers.InjectResultIff` | native-host/src/dispatcher.rs:1101-1122 | taken exactly for the current lease; only a failed restore changes it, to Degraded |
| `EngineAnswers.InvalidateIff` | native-host/src/dispatcher.rs:1124-1201 | taken exactly with nothing pending and for the current lease or none; vault and lease go, the sequences against replay stay |
| `EngineAnswers.OperationBeginIff` | native-host/src/dispatcher.rs:1542-1630 | a new attempt begins exactly if the lease is the right one for its kind and nothing is pending or unresolved; journal, lease, memory and answer then name the same operation, and otherwise nothing changes |
| `EngineAnswers.KnownAttemptIff` | native-host/src/dispatcher.rs:1548-1575 | a known attempt is answered from the journal, exactly if it repeats the begin in all its parts, and nothing is written |
| `EngineAnswers.EvictBeginIff` | native-host/src/dispatcher.rs:1203-1297 | which v6 begins start an eviction, which a reconciliation and which are refused, by lease state, lease id and reason |
| `EngineAnswers.StatusIff` | native-host/src/dispatcher.rs:1632-1700 | answered exactly for an operation under this sequence and lease, with the action for its phase; with nothing pending an unresolved operation is taken up as far as the journal has it |
| `EngineAnswers.ToldToPrepare` | native-host/src/dispatcher.rs:1632-1842 | after a restart the extension is told to prepare the removal exactly for a committed operation, and the host then takes the prepare and authorises exactly the committed snapshot |
| `EngineAnswers.AskedForSnapshot` | native-host/src/dispatcher.rs:1542-1772 | after a begin that asks for the snapshot the host takes one chunk by chunk and commits it (`CommitTransfer.CommittedIsSent`) |
| `EngineAnswers.PrepareIff` | native-host/src/dispatcher.rs:1774-1797 | accepted exactly for the confirmed pending operation under all four parts of its binding, and then the buffer is empty; otherwise nothing changes |
| `EngineAnswers.ChunkBindingIff` | native-host/src/dispatcher.rs:1702-1772 | a chunk without the pending binding is refused; a repeated one is acknowledged exactly if it carries the same records; neither changes anything; one of unknown purpose is refused but remembered as seen |
| `EngineAnswers.ReportTakenIff` | native-host/src/dispatcher.rs:1844-1887 | a report is taken exactly for the confirmed pending operation under its whole binding; otherwise nothing changes |
| `EngineAnswers.RefusedOutright` | native-host/src/dispatcher.rs:830-907 | before a handshake no message is taken, and the messages of protocol 7 are not taken under protocol 6 |
| `EngineRuntime.GroupRuntime.Startup` | native-host/src/dispatcher.rs:140-208 | from every disk that satisfies the invariant the running startup succeeds, ends with journal, vault and lease in agreement, and every file it writes satisfies the disk invariant with a journal evolved from the one found; it refines `EngineSpec.Open` write for write |
| `EngineRuntime.GroupRuntime.LoadLease` | native-host/src/lease/metadata.rs:103-145 | refines the specification write for write; `EngineRuns.VaultIsNeverUnclaimed` shows its refusal never fires |
| `EngineRuntime.GroupRuntime.RepairLease` | native-host/src/dispatcher.rs:168-208 | refines the specification write for write; `EngineRuns.CompletionCrashInvisible` says when its result is the uncrashed lease |
| `EngineRuntime.GroupRuntime.StartupRecover` | native-host/src/operation/coordinator.rs:303-339 | the loop over active operations equals the recursive specification |
| `EngineRuntime.GroupRuntime.RecoverOne` | native-host/src/operation/coordinator.rs:303-339 | one turn of that loop; with a snapshot it ends in the phase the vault's digest determines, without one in Aborted |
| `EngineRuntime.GroupRuntime.RecoverVaultPhase` | native-host/src/operation/recovery.rs:53-79 | refines the specification write for write; `EngineInvariant.RecoverPhaseSettles` gives its outcome for every phase and vault |
| `EngineRuntime.GroupRuntime.ActiveIds` | native-host/src/operation/coordinator.rs:303-313 | the collected ids are those of the operations that are not terminal, in order |
| `EngineRuntime.GroupRuntime.PrepareForV6Reconciliation` | native-host/src/operation/coordinator.rs:181-209 | the loop equals the recursive specification |
| `EngineRuntime.GroupRuntime.ReconcileOne` | native-host/src/operation/coordinator.rs:181-209 | one turn of that loop; `EngineInvariant.ReconciliationResolvesAll` says nothing stays unresolved |
| `EngineRuntime.GroupRuntime.BeginV6` | native-host/src/operation/coordinator.rs:65-88 | refines the specification write for write; a new operation needs a group without unresolved ones |
| `EngineRuntime.GroupRuntime.IssueV7` | native-host/src/operation/coordinator.rs:90-117 | refines the specification write for write; a repeated id is an error |
| `EngineRuntime.GroupRuntime.Transit` | native-host/src/operation/journal.rs:137-160 | refines the specification write for write; `EngineInvariant.TransitionShape` says only the unresolved operation can change |
| `EngineRuntime.GroupRuntime.HasUnresolved` | native-host/src/operation/coordinator.rs:173-179 | true exactly when some operation is not terminal |
| `EngineRuntime.GroupRuntime.CommitSnapshot` | native-host/src/operation/coordinator.rs:211-281 | refines the specification write for write for every failure of the vault write and of the read that settles it; `EngineCommitFaults.FaultyCommit` gives the outcome |
| `EngineRuntime.GroupRuntime.HandleHandshake` | native-host/src/dispatcher.rs:350-416 | refines the specification write for write, also when the message or another group is refused, before or after this group; the lease keeps state, operation and vault sequence |
| `EngineRuntime.GroupRuntime.HandleLeaseRequest` | native-host/src/dispatcher.rs:909-939 | refines the specification write for write; refused while anything is pending or unresolved (`EngineLeases.RunExclusive`) |
| `EngineRuntime.GroupRuntime.Enroll` | native-host/src/dispatcher.rs:941-1021 | refines the specification write for write in both protocol versions: the operation is durable before the lease names it |
| `EngineRuntime.GroupRuntime.Inject` | native-host/src/dispatcher.rs:1023-1099 | refines the specification write for write; `EngineLeases.InjectGrantedIff` says when a session is unlocked |
| `EngineRuntime.GroupRuntime.HandleInjectResult` | native-host/src/dispatcher.rs:1101-1122 | refines the specification write for write; a failed restore degrades the lease |
| `EngineRuntime.GroupRuntime.HandleSessionInvalidate` | native-host/src/dispatcher.rs:1124-1201 | refines the specification write for write: the vault goes before the lease, so no crash leaves an unclaimed vault |
| `EngineRuntime.GroupRuntime.HandleEvictBegin` | native-host/src/dispatcher.rs:1203-1297 | refines the specification write for write: what is unresolved is given up before a reconciliation begins |
| `EngineRuntime.GroupRuntime.HandleSnapshotChunk` | native-host/src/dispatcher.rs:1299-1462 | refines the specification write for write, including what a failure leaves buffered; `CommitTransfer.CommittedIsSent` says what the last chunk leaves in the vault |
| `EngineRuntime.GroupRuntime.HandleEvictResult` | native-host/src/dispatcher.rs:1464-1540 | refines the specification write for write: journal before lease; `EngineLeases.ReportDecides` gives the outcome |
| `EngineRuntime.GroupRuntime.HandleOperationBegin` | native-host/src/dispatcher.rs:1542-1630 | refines the specification write for write; `EngineRuns.RepeatedBeginIsIdempotent` covers repetitions |
| `EngineRuntime.GroupRuntime.HandleOperationStatus` | native-host/src/dispatcher.rs:1632-1700 | refines the specification; it answers every reference the host issued (`OperationReferences.RecoveryQueryIsAnswered`) |
| `EngineRuntime.GroupRuntime.HandleSnapshotChunkV7` | native-host/src/dispatcher.rs:1702-1772 | refines the specification write for write; a repeated chunk with the same records changes nothing |
| `EngineRuntime.GroupRuntime.HandleRemovePrepare` | native-host/src/dispatcher.rs:1774-1797 | refines the specification; accepted only for the confirmed pending operation, and then the buffer is empty (`RemovalHost.ChunkTracks`) |
| `EngineRuntime.GroupRuntime.HandleRemovalChunk` | native-host/src/dispatcher.rs:1799-1842 | refines the specification write for write; `CommitTransfer.AuthorizedIffCommitted` gives its verdict |
| `EngineRuntime.GroupRuntime.HandleEvictResultV7` | native-host/src/dispatcher.rs:1844-1887 | refines the specification write for write; `EngineLeases.ReportDecides` compares what it tells with what it records |
| `EngineRuntime.GroupRuntime.Handle` | native-host/src/dispatcher.rs:830-907 | whatever the message, a host that satisfies the invariant satisfies it again, every durable state on the way does, the journal only evolves, leases and unresolved operations keep excluding each other, and the committed vault stays unless the message is a careless invalidation |
| `EngineRuntime.GroupRuntime.Dispatch` | native-host/src/dispatcher.rs:830-907 | the dispatcher refines the specification write for write |
| `EngineRuntime.RunConnection` | native-host/src/host_loop.rs:24-104 | a whole connection, started on the disk any past run left, is the continuation of that run: the host ends in the state of `EngineRuns.Run`, and every file it ever wrote satisfies the disk invariant |
| `EngineLeases.HandleExclusive` | native-host/src/dispatcher.rs:909-939 | every message keeps that an unresolved operation excludes the states Leased and Sealed |
| `EngineLeases.RunExclusive` | native-host/src/dispatcher.rs:909-939 | in every run, whenever the host is up, an unresolved operation means that the group is neither leased nor sealed |
| `EngineLeases.UnlockSpendsToken` | native-host/src/dispatcher.rs:1023-1099 | with the cancellation after a refused signature and the retry after a vanished credential: a session is unlocked if and only if the group is sealed with a vault and nothing pending or unresolved and one of the two attempts is granted; each unlock spends one token never spent before, recorded before the lease is written, and a refused request changes neither lease nor files and spends none |
| `EngineLeases.RetryNeedsCancellation` | native-host/src/dispatcher.rs:1040-1052 | after a reserved but ungranted attempt the retry is granted only if the platform refused to sign and the cancellation was recorded |
| `EngineLeases.ReportDecides` | native-host/src/dispatcher.rs:1464-1540 | the operation completes if and only if a removal left nothing or an enrollment kept exactly the captured number; the whole lease, the journal, the vault and the one answer follow; success is told without completion exactly for an enrollment with another positive count |
| `EngineLeases.PreparedEnrollmentNeverCompletes` | native-host/src/dispatcher.rs:1774-1797 | after a removal prepare every report of an enrollment ends in reconciliation |
| `CommitTransfer.CommittedIsSent` | native-host/src/dispatcher.rs:1299-1462 | after all chunks of a snapshot within the limits are delivered, the vault holds exactly its records, the journal's tag covers exactly them, the lease has the vault's sequence and memory the number captured; the last chunk is answered with one confirmation under the operation's binding and that sequence, which keeps the cookies if and only if the operation is an enrollment |
| `CommitTransfer.CommittedWhole` | native-host/src/operation/coordinator.rs:211-281 | the whole journal and lease after a commit: the operation waits for the removal under a binding that holds its context, the digests of the vault before and after, the vault's sequence and the count; nothing else in journal or lease changes but that sequence |
| `CommitTransfer.EmptyEnrollmentAborts` | native-host/src/dispatcher.rs:1373-1400 | an enrollment whose scope is empty ends aborted, without vault, lease or anything pending |
| `CommitTransfer.CommitTakesIff` | native-host/src/dispatcher.rs:1299-1372 | whatever chunks arrive for a fresh commit, all are taken if and only if they are the beginning of one well-formed transfer of this operation within the limits, and the buffer then holds exactly their records |
| `CommitTransfer.RemovalTakesIff` | native-host/src/dispatcher.rs:1933-1993 | the same for the new chunks of a removal snapshot, in which a chunk may be empty |
| `CommitTransfer.RepeatedChunkIff` | native-host/src/dispatcher.rs:1933-1993 | a removal chunk from before the next one is taken exactly with the same records and changes nothing |
| `CommitTransfer.UnsealableIsRefused` | native-host/src/dispatcher.rs:1402-1411 | a snapshot that cannot be sealed is refused with its last chunk: nothing is written and what was buffered is gone |
| `CommitTransfer.VerdictIff` | native-host/src/operation/coordinator.rs:136-171 | for the committing profile the tag comparison decides equality with the committed snapshot |
| `CommitTransfer.VerdictGivenIff` | native-host/src/operation/coordinator.rs:136-171 | a tag is compared exactly for an operation the journal has under this sequence and attempt, with a snapshot and a profile |
| `CommitTransfer.AuthorizedIffCommitted` | native-host/src/dispatcher.rs:1774-1842 | a prepare followed by all its chunks is answered with one authorisation under its binding if and only if the snapshot is the committed one; otherwise with a failed completion, the operation is given up, the lease degraded and the vault stays |
| `CommitTransfer.CommitThenRemove` | native-host/src/dispatcher.rs:1702-1842 | right after a commit, however both are cut into chunks, the same records are authorised for removal and no others |
| `GuardedRemoval.GetCookies` | extension/src/background.ts:1668-1673 | a reading holds exactly, for each identity in scope, the record found last among those in scope |
| `GuardedRemoval.ReadingShowsAllIff` | extension/src/background.ts:1668-1673 | a reading shows every cookie found if and only if no two different cookies share an identity, and in any case one cookie for each identity |
| `GuardedRemoval.NextStepMeaning` | extension/src/guarded-removal.ts:17-31 | Mutation exactly when some present record is not an expected one (the last fall-through never decides), Done exactly on an empty scope |
| `GuardedRemoval.DeleteIsExact` | extension/src/guarded-removal.ts:17-31 | a record chosen for deletion is present exactly as authorised, is the first such from the position on, and the position moves past it |
| `GuardedRemoval.GuardedRemovalPlan.Next` | extension/src/guarded-removal.ts:17-31 | the map, the test and the loop take the specified decision |
| `GuardedRemoval.RemoveAuthorized` | extension/src/background.ts:1195-1222 | against a browser that changes at will: at most authorised + 1 steps, no record twice, only exact authorised records read just before, success only after reads of an empty scope, and failure only for a reason the last reads show; in a browser that only the loop changes, every record is removed in order and the loop succeeds |
| `GuardedRemoval.LoopUndisturbed` | extension/src/background.ts:1202-1213 | from any position, in a browser that only the loop changes, the rest is removed in order with one decision each and a last one |
| `GuardedRemoval.LoopReasoned` | extension/src/background.ts:1202-1213 | a failed loop has seen an unexpected or already passed cookie, a record it cannot delete, the record just deleted, or a cookie left at the end |
| `GuardedRemoval.SnapshotsEqualMeaning` | extension/src/guarded-removal.ts:7-11 | on two readings the comparison is equality of the sets of records |
| `CookieIdentity.IdentityDecides` | extension/src/protocol.ts:211-219 | with no separator inside a field, identities are equal exactly when name, path, store, site and ancestor flag are and the domains are but for one leading dot and the case of letters |
| `CookieIdentity.HostOnlyTwinIsHidden` | extension/src/background.ts:1668-1673 | the failing input: a host-only cookie and its domain twin collapse into one record of a reading |
| `CookieIdentity.ReadingHidesIff` | extension/src/protocol.ts:211-219 | a reading hides a cookie if and only if two different cookies agree in all six identity fields |
| `RemovalHost.HandleKept` | native-host/src/dispatcher.rs:830-907 | a message keeps the vault of a committed, unresolved operation if and only if it is not an invalidation the host accepts with nothing pending |
| `RemovalHost.LockedKeeps` | native-host/src/dispatcher.rs:830-907 | while the committed operation is pending, only its own outcome can move the vault, at every write |
| `RemovalHost.OnlyPrecheckAuthorizes` | native-host/src/dispatcher.rs:1799-1842 | no other message is ever answered with an authorisation |
| `RemovalHost.VerifiedIsCovered` | native-host/src/operation/coordinator.rs:136-171 | the tag comparison succeeds only on the snapshot the vault holds |
| `RemovalHost.ChunkTracks` | native-host/src/dispatcher.rs:1774-1842 | over a prepare and its chunks, accepted or refused, an authorisation comes only with the last chunk and only when the whole snapshot is what the vault holds |
| `RemovalHost.CarelessInvalidationLosesVault` | native-host/src/dispatcher.rs:1124-1146 | every host with a recovered operation, after an invalidation, still authorises a removal although the vault is gone |
| `RemovalHost.RecoveredRests` | native-host/src/dispatcher.rs:140-208 | startup with an unresolved operation and a handshake lead to such a host |
| `Removal.StepInv` | extension/src/background.ts:1167-1222 | every step of host, extension, browser and crashes keeps the system's invariant |
| `Removal.DeletedIsSealed` | extension/src/background.ts:1195-1222 | in every run and interleaving, with any side effects of the delete call: everything the call removes that the last reading showed is in the vault, and a cookie of an identity the reading showed is in the vault if and only if it is the one shown |
| `Removal.UndisturbedDeletion` | extension/src/background.ts:1202-1211 | without a browser change since the reading, a cookie is in the vault if and only if the reading shows it; with distinct identities the call, side effects included, removes only sealed cookies |
| `Removal.NothingHeld` | extension/src/background.ts:1195-1222 | after its report or a restart of the worker the extension holds no snapshot, and no authorisation starts the loop |
| `Removal.SecondPrepareIff` | extension/src/background.ts:1167-1200 | after a second prepare the list the loop works from is still the one the host compared if and only if the second reading is empty or equals the first |
| `Removal.SecondPrepareSafeIff` | extension/src/background.ts:1167-1222 | after a second prepare every record the loop can come to delete, however the browser changes, is in the vault if and only if the removable records of the second reading are records of the first |
| `Removal.SecondPrepareEscapes` | extension/src/background.ts:1167-1176 | with a second prepare in between, the first authorisation deletes a removable record that is not in the vault |
| `RemovalReach.RemovalStartsIff` | extension/src/background.ts:1167-1200 | from any resting system with a committed operation, a prepare delivered in any number of chunks brings the loop to work on its reading if and only if the reading is the committed snapshot; otherwise the loop stays idle |
| `RemovalReach.EveryRecordIsReached` | extension/src/background.ts:1195-1222 | each record of the committed snapshot can then be the one the loop deletes, if and only if it passes the loop's test of a cookie found unchanged |
| `RemovalReach.DeletionIsReached` | native-host/src/dispatcher.rs:830-907 | from the empty disk there is a run that connects, stores any given cookie and, if it is removable at all, comes to delete it, so `Removal.DeletedIsSealed` is about runs that exist |
| `OperationReferences.OperationCoordinator.Begin` | extension/src/operation-coordinator.ts:51-68 | a live reference for the same lease and kind is returned, a live issued one for another is never replaced, and in every other case an unissued reference with a fresh attempt takes its place; other groups are untouched |
| `OperationReferences.OperationCoordinator.BindIssued` | extension/src/operation-coordinator.ts:70-78 | accepted exactly for the reference's attempt and lease and a well-formed identity; the rest of the reference stays |
| `OperationReferences.OperationCoordinator.AssertBinding` | extension/src/operation-coordinator.ts:106-115 | a host message is accepted exactly when it names the active reference |
| `OperationReferences.OperationCoordinator.RecoveryQuery` | extension/src/operation-coordinator.ts:93-100 | a query exists exactly for a reference that is past begin_pending and has not ended, and names its own group |
| `OperationReferences.OperationCoordinator.SetPhase` | extension/src/operation-coordinator.ts:80-83 | any phase is taken for any reference of this group and nothing else changes; an identity still exists exactly past begin_pending if and only if the phase is an end or fits whether the host has issued the reference |
| `OperationReferences.OperationCoordinator.Complete` | extension/src/operation-coordinator.ts:117-121 | removes exactly this group's reference |
| `OperationReferences.IssuedIsNeverReplaced` | extension/src/operation-coordinator.ts:51-78 | until an issued operation ends, no sequence of triggers changes its attempt, lease or kind |
| `OperationReferences.RecoveryQueryIsAnswered` | native-host/src/dispatcher.rs:1632-1675 | a reference bound from the host's answer is recognised by the host in every later journal |
| `Audit.VerifyChain` | native-host/src/audit.rs:520-590 | accepts exactly the logs without a torn line whose entries chain from the checkpoint, agree with the anchor and reach it, and returns their end |
| `Audit.AcceptedIff` | native-host/src/audit.rs:520-590 | field by field what verification accepts: version 2, sequences without a gap from the checkpoint, each entry under the MAC before it and its own, the anchor's MAC at its sequence and not beyond the end |
| `Audit.AgreeUpToAnchor` | native-host/src/audit.rs:520-590 | two logs accepted with the same checkpoint and anchor agree entry for entry up to the anchor |
| `Audit.TamperingIsRejected` | native-host/src/audit.rs:520-590 | a log that is shorter or differs anywhere below the anchor is rejected |
| `AuditLog.AppendVerifiesIff` | native-host/src/audit.rs:353-417 | an append verifies at the next open if and only if nothing was logged on a later day |
| `AuditLog.InStepIff` | native-host/src/audit.rs:353-417 | for every failure inside a record, a write that stops early included: the log stays acceptable if and only if no part of a line was left, and memory stays at the end of the chain if and only if the sync did not fail after the append |
| `AuditLog.StaleRecordBreaksChain` | native-host/src/audit.rs:353-417 | with memory behind the chain the next line that gets into the file makes the log unacceptable, whatever the anchor |
| `AuditLog.CompactionKeeps` | native-host/src/audit.rs:429-457 | a complete compaction keeps the log acceptable, its end and its remaining entries |
| `AuditLog.RetentionIsExact` | native-host/src/audit.rs:429-457 | a day's file is kept exactly when it is at most 90 days old |
| `AuditLog.CompactionCrash` | native-host/src/audit.rs:429-457 | after the checkpoint is written the log is accepted if and only if all expired files are removed |
| `AuditRuns.ReopenResumesIff` | native-host/src/audit.rs:161-185 | after every run on days that never go back, whatever failed inside records and wherever it crashed, reopening succeeds if and only if the log is sound and its last expired file has an entry, and then resumes at the last entry in the files, anchored or not |
| `AuditRuns.SoundRunIff` | native-host/src/audit.rs:353-417 | after a run the log is sound if and only if no step left part of a line or wrote a line with memory behind the chain |
| `AuditRuns.ReopenAfterWholeWritesIff` | native-host/src/audit.rs:161-185 | in a run whose writes are whole or absent, reopening succeeds if and only if no line was written with memory behind the chain |
| `AuditRuns.EventsOnce` | native-host/src/audit.rs:220-351 | in every run, whatever failed inside records, an event id occurs at most once in the retained chain, and every queued event is queued still or was logged |
| `AuditRuns.LogIsHistory` | native-host/src/audit.rs:220-417 | in every run, whatever failed and wherever it crashed, archive and files together hold exactly the records asked for whose lines got into readable files: body, time and event id of each, in order, queued ones included, and nothing else |
| `AuditRuns.RunFiled` | native-host/src/audit.rs:397-407 | in every run each entry is in the file of its own day, so a file's retention is that of its entries |
| `AuditRuns.PartialAppendIff` | native-host/src/audit.rs:407-408 | on a sound log, after an append that stopped early in an old or a new day's file, reopening succeeds if and only if no part of a line was left and the last expired file has an entry |
| `AuditRuns.EmptyDayRefused` | native-host/src/audit.rs:437-443 | the failing input: a new day's file left empty is refused once it is the last expired one |
| `AuditLogger.Logger.RecordInner` | native-host/src/audit.rs:353-417 | for every failure of open, write, sync and anchor: what file, memory and anchor are afterwards; the line that gets in carries exactly the given body, time and event id under the next sequence |
| `AuditLogger.EntryLands` | native-host/src/audit.rs:364-417 | a line that gets into readable files is one entry more, at the end unless a later day was logged, with exactly what was asked for |
| `AuditLogger.Logger.Contains` | native-host/src/audit.rs:232-243 | the scan answers by the first file that holds the event or ends in a torn line (`AuditLog.ScanIff`) |
| `AuditLog.ScanIff` | native-host/src/audit.rs:232-243 | yes exactly if some file holds the event and none before it holds it or is torn, no exactly if every file is whole and none holds it |
| `AuditLogger.Logger.RecordOnce` | native-host/src/audit.rs:220-252 | success means that the event was in the retained chain and nothing changed, or was not and one entry with its body, its time and its id is added; with every failure of the scan and of the record no logged event is lost |
| `AuditLogger.Logger.RecordOnceDeferred` | native-host/src/audit.rs:254-299 | the event is in the chain, or else in the outbox if and only if the outbox's file was replaced or had it already; after a failed sync the retry reports success and leaves memory behind the chain |
| `AuditLogger.Logger.EnqueueOutbox` | native-host/src/audit.rs:301-321 | an event id is queued once, unless the write fails before replacing the file |
| `AuditLogger.Logger.DrainOutbox` | native-host/src/audit.rs:323-351 | for any failure of each record: every queued event stays queued or is in the chain, nothing else is queued and nothing logged is lost; without failures exactly the events without an id stay queued, in order |
| `AuditLogger.DrainKeeps` | native-host/src/audit.rs:323-351 | from any position of the queue and for any failures, nothing is lost and events without an id stay queued |
| `AuditLogger.DrainLeaves` | native-host/src/audit.rs:323-351 | without failures, from any position of the queue, exactly the events without an id stay queued and the others are in the chain |
| `AuditLogger.DrainIsRun` | native-host/src/audit.rs:323-351 | the loop, with the failures of each record, is the drain steps of the runs, on days that never go back |
| `AuditLogger.Logger.CompactExpired` | native-host/src/audit.rs:429-457 | the loop and the removals are the specified compaction |
| `AuditLogger.CompactMeaning` | native-host/src/audit.rs:429-457 | exactly the files more than 90 days old go, the checkpoint is their last entry and day, and an empty last expired file is refused with nothing changed |
| `AuditLogger.Logger.OpenStrict` | native-host/src/audit.rs:161-185 | succeeds exactly when no line is torn, the chain is accepted and compaction is possible; the outbox is drained from the chain's end |
| `Capability.CapabilityLedger.Reserve` | native-host/src/lease/state_machine.rs:68-97 | when a reservation is drawn and what it holds; memory changes only when the write succeeded; the file changes unless the write failed before replacing it |
| `Capability.CapabilityLedger.CancelPending` | native-host/src/lease/state_machine.rs:99-105 | the same for a cancellation |
| `Capability.CapabilityLedger.VerifyAndConsume` | native-host/src/lease/state_machine.rs:107-165 | a token exactly when all checks pass and the write succeeded; file and memory then both record the consumption, with nothing pending and the last 128 nonces, this one last |
| `Capability.CapabilityLedger.AuthorizeInject` | native-host/src/transaction.rs:95-121 | a token exactly when the attempt is granted; it carries the next sequence and is recorded; a pending reservation refuses; a failed verification stays pending |
| `Capability.GrantsIff` | native-host/src/transaction.rs:95-121 | in every reachable ledger an attempt is granted if and only if nothing is pending, the payload comes back as drawn and signed within its lifetime with a nonce outside the window, and both writes are durable |
| `Capability.AttemptedIff` | native-host/src/transaction.rs:95-121 | an authorisation in a run yields a token exactly when it is granted; the token is new and the file records it |
| `Capability.SingleUse` | native-host/src/transaction.rs:71-121 | over every run with failed writes, crashes and restarts no sequence is handed out twice, tokens strictly increase and were handed out, the file's consumed sequence covers every token, consumed is at most issued, and the file's nonces are, element by element, the last 128 of all consumed |
| `Capability.StartedIff` | native-host/src/transaction.rs:71-93 | the ledger comes up exactly when its file is this group's or can be created and the write it needs is durable, with nothing pending and all else as recorded |
| `Capability.TokenAfterRecord` | native-host/src/lease/state_machine.rs:145-165 | at the step that yields a token the file records exactly that consumption |
| `Capability.AcceptedIff` | native-host/src/lease/state_machine.rs:107-145 | in every reachable ledger acceptance depends on the pending payload, signature, operation, expiry and on the nonce not being one of the last 128; the group and sequence tests decide nothing |
| `Capability.ReservedIsAcceptedOnce` | native-host/src/lease/state_machine.rs:68-165 | a reservation that comes back signed and unchanged in time is accepted unless its nonce repeats one of the window, and never after its consumption |
| `Staging.VaultStore.StageDelete` | native-host/src/vault/store.rs:45-59 | the vault moves aside byte for byte, a missing vault is no error, a second staging is refused |
| `Staging.VaultStore.RollbackStagedDelete` | native-host/src/vault/store.rs:61-74 | undoes the staging exactly (`Staging.RollbackRestores`), never over an existing vault |
| `Staging.VaultStore.CommitStagedDelete` | native-host/src/vault/store.rs:76-78 | only this group's staged file goes |
| `Staging.VaultStore.RecoverStagedDeletions` | native-host/src/vault/store.rs:80-98 | whatever the order of the directory, the loop restores every protected staged vault and removes the rest |
| `Staging.VaultStore.GroupRemove` | native-host/src/dispatcher.rs:597-629 | the group and its vault go together, or on a failed config write the vault is back; every vault has its group after the next startup if and only if it is not the case that the group had a vault and the write failed after replacing the file |
| `Staging.VaultStore.GroupSetPolicy` | native-host/src/dispatcher.rs:654-729 | the same for a switch to Monitor, which a busy group and a sealed session refuse |
| `Staging.InterruptionInvisible` | native-host/src/vault/store.rs:80-98 | recovery that crashes any number of times ends as one that does not |
| `Staging.DeletionCrash` | native-host/src/dispatcher.rs:597-738 | after a crash at any point and startup, the vault has its original bytes iff the config on disk protects the group and is gone otherwise, nothing is staged, other vaults are unchanged |
| `Staging.RemoveOrphansIff` | native-host/src/dispatcher.rs:616-623 | after a removal and startup every vault has its group if and only if not (the group had a vault and the config write failed after replacing the file) |
| `Staging.PolicyOrphansIff` | native-host/src/dispatcher.rs:693-712 | for a policy change the only failing family is a switch to Monitor of a group with a vault, neither busy nor sealed, whose write failed after replacing the file |
| `Staging.LateFailureForgetsGroup` | native-host/src/dispatcher.rs:740-751 | without a vault a late failure is harmful too: a vault written afterwards has no owner after the next startup |
| `Staging.RunClean` | native-host/src/dispatcher.rs:211-225 | in every run with failed writes, crashes and restarts but without a config write that fails after replacing the file, at rest nothing is staged, memory is the config on disk, and every vault belongs to a protected group |
| `Chunks.ChunkRecords` | extension/src/cookie-chunks.ts:57-77 | succeeds exactly when every record fits; the chunks concatenate to the records, are non-empty, at most target + 2 bytes, and two neighbours exceed the target |
| `Chunks.ChunkCount` | extension/src/cookie-chunks.ts:57-77 | at most 2 * total / target + 1 chunks |
| `Chunks.ChunkLimitNeverHit` | native-host/src/dispatcher.rs:1933-1993 | a snapshot within the host's byte limit has at most 164 chunks |
| `Chunks.OrderedChunkAssembler.Receive` | extension/src/cookie-chunks.ts:20-49 | answers from this key's transfer alone and touches no other |
| `Chunks.KeysNeverMix` | extension/src/cookie-chunks.ts:20-49 | under any interleaving each key is answered as if it were alone |
| `Chunks.TakenIff` | extension/src/cookie-chunks.ts:20-49 | whatever pieces arrive for a new transfer, up to its announced number all are taken if and only if they are the beginning of one well-formed transfer, which ends with exactly their records |
| `Chunks.MisplacedEnds` | extension/src/cookie-chunks.ts:38-41 | a piece that does not continue the pending transfer ends it, and only a first piece is taken next |
| `Chunks.ChunkThenAssemble` | extension/src/cookie-chunks.ts:20-77 | chunking then assembling is the identity, interleaved with any other transfers |
| `Chunks.HostAssembles` | native-host/src/dispatcher.rs:1933-1993 | within its limits the host takes every chunk of a removal snapshot and ends with exactly the records |
| `Codec.Encode` | native-host/src/vault/format.rs:149-155 | succeeds exactly on valid records and yields the layout |
| `Codec.EncodedBytes` | native-host/src/vault/format.rs:61-77 | the encoding byte for byte: where each field lies, with numbers low byte first |
| `Codec.EncodeHeader` | native-host/src/vault/format.rs:61-77 | succeeds exactly on valid headers and yields their fields in order |
| `Codec.Decode` | native-host/src/vault/format.rs:157-204 | accepts exactly the well-shaped byte strings |
| `Codec.Cursor.Take` | native-host/src/vault/format.rs:217-245 | returns the next bytes or leaves the position |
| `Codec.DecodeEncode` | native-host/src/vault/format.rs:149-204 | decoding what was encoded gives the record back |
| `Codec.EncodeDecode` | native-host/src/vault/format.rs:149-204 | encoding what was decoded gives the bytes back, and what was decoded is valid |
| `Codec.LengthIsExact` | native-host/src/vault/format.rs:173-188 | no accepted string is a proper prefix of another |
| `Codec.TagInput` | native-host/src/operation/fingerprint.rs:59-69 | the appended fields in order |
| `Codec.TagBytes` | native-host/src/operation/fingerprint.rs:59-69 | the input byte for byte: the domain, three identifiers, two numbers low byte first, the snapshot |
| `Codec.TagInputInjective` | native-host/src/operation/fingerprint.rs:59-69 | equal tag inputs come from equal contexts and snapshots |
| `Scopes.Validate` | native-host/src/config.rs:143-186 | accepts exactly the configs of version 3 with at most 32 groups whose ids are distinct, whose names are visible and whose scopes are well-formed names none of which equals or lies inside another, label by label |
| `Scopes.UnderIff` | native-host/src/config.rs:170-179 | a host lies under a scope if and only if the scope's labels are the host's last labels |
| `Scopes.LabelsMeaning` | extension/src/protocol.ts:182-186 | labels hold no dot and joined with dots give the name back, so a name has one list of labels |
| `Scopes.HostInScopeIff` | extension/src/protocol.ts:182-186 | a host is in a scope for the extension if and only if, one leading dot and case aside, the scope's labels are its last |
| `Scopes.ValidScopeIff` | native-host/src/config.rs:192-212 | a normalised scope is accepted if and only if it is localhost or a registrable name of at most 253 characters whose labels are non-empty and made of letters, digits and hyphens |
| `Scopes.TrimDropsDots` | native-host/src/config.rs:188-190 | normalising drops exactly the leading dots |
| `Scopes.LowerIff` | native-host/src/config.rs:188-190 | two texts have one lower-case form if and only if they agree but for the case of ASCII letters |
| `Scopes.DisjointScopes` | native-host/src/config.rs:170-179 | the overlap test fails if and only if no host lies under both scopes |
| `Scopes.ExtensionWithinHost` | extension/src/protocol.ts:182-186 | for every scope, a host in it for the extension is under the host's normalised scope |
| `Scopes.SidesAgreeIff` | extension/src/protocol.ts:182-186 | extension and host agree on every host if and only if the scope does not start with two dots |
| `Scopes.DoubleDotMissesOwnHost` | extension/src/protocol.ts:182-186 | a scope with two leading dots does not match its own host in the extension |
| `Scopes.DoubleDotPassesValidation` | native-host/src/config.rs:143-186 | such a scope passes the host's validation |
| `Scopes.OneOwner` | extension/src/protocol.ts:182-190 | in a valid config no host or cookie domain lies in two groups |
| `Scopes.FirstMatchSound` | extension/src/protocol.ts:192-194 | the lookup finds a group whose scope holds the host exactly when there is one |
| `Scopes.LookupIgnoresOrder` | extension/src/protocol.ts:192-194 | the first match does not depend on the order of the groups |

## Left out

- EngineSafety.CommitGood: the runs are crash-stop, so the branches of a failed vault write are in EngineCommitFaults and not in `EngineRuns`.
- EngineRuntime.GroupRuntime.Inject: the cookie chunks of the answer are not part of the reply; the ledger behind the authorisation is connected in `EngineLeases.UnlockSpendsToken`.
- EngineRuntime.GroupRuntime.HandleHandshake: the comparison of versions and capabilities and the other groups are one parameter that says who refuses.
- GuardedRemoval.GetCookies: the order in which a reading lists cookies (locale collation) is left open; every listing is admitted.
- Staging.VaultStore.GroupSetPolicy: the lease reset that follows a switch to Monitor is not modelled; a missing vault resets the lease at the next load.
- AuditLogger.Logger.Contains: a line that is whole but for its newline counts as torn; verification refuses it like any torn line, while the scan of the running process still reads it.
- AuditLogger.Logger.DrainOutbox: the write of the outbox after the loop does not fail; a crash before it is in `AuditRuns`.
- AuditRuns.Next: compaction is one step and outbox writes succeed in the runs; `AuditLog.CompactionCrash` and `AuditLogger.Logger.RecordOnceDeferred` have their failures.
- Staging.Next: startup follows a crash in the same event.
- Overflow of the 64-bit lease counters and of the audit sequence; the journal's and the vault's own sequence limits and the capability ledger's are modelled.
- Migration of version 1 leases, version 2 configs and the phase 5 directory.
- The aggregate byte count inside a snapshot binding and the byte widths of JSON numbers.
- Audit records written by the engine's handlers, monitor events and monitor polling.
- Group removal and policy changes inside the engine's runs; they are modelled with the staged deletion instead, and guarded removal is proved for a group that stays configured.
- A stale temporary file inside the engine's runs (it makes one write fail, which ends a crash-stop run); `AtomicFile` models it.
- Injecting cookies into the browser and the health check after it; only the lease's part is modelled.
- The quarantine that opening the audit log falls back to, and export.
- Canonical form of a partition key's site: the URL parser is a parameter of `CookieIdentity`.
- The public-suffix list and the IPv4 parser: a parameter of `Scopes`. Lower-casing is ASCII.
- Fail-closed bulk deletion and the tab, idle and alarm triggers: they are changes of the browser and messages of the environment in `Removal`.
- The v6 removal path of the extension, which deletes without a precheck.
- Persisting operation references when the browser's storage fails, and restoring them from storage.
- Padding and hashing inside HMAC, sealing and opening of the payload, key stores and the platform authorizer.
- User interface, update, framing, instance lock, profile recovery and WebAuthn decoding.
