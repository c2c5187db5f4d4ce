/** The durable eviction engine of one account group as functions on values: journal, vault file and
    lease file, the host's memory, and every message handler (native-host/src/operation/
    coordinator.rs and recovery.rs, lease/metadata.rs, GroupRuntime in dispatcher.rs, and the
    prepare step of transaction.rs).

    `St.log` lists every durable state the handler passes through, in order, one entry for each file
    it replaces or removes. A crash inside a handler leaves the disk as it was before, or one of
    these entries. */
module EngineSpec {
  import opened Base
  import opened JournalModel
  import AF = AtomicFile

  datatype GroupState = Uninitialized | Sealed | Unlocking | Leased | Evicting | Degraded

  datatype Lease = Lease(
    groupId: Uuid,
    state: GroupState,
    leaseId: Option<Uuid>,
    grantedAt: Option<nat>,
    expiresAt: Option<nat>,
    pendingOperationId: Option<Uuid>,
    vaultSequence: nat,
    transitionSequence: nat,
    protocolFloor: nat,
    operationHighWater: nat)

  function InitialLease(groupId: Uuid, vaultExists: bool): Lease {
    Lease(groupId, if vaultExists then Sealed else Uninitialized, None, None, None, None, 0, 0, 6, 0)
  }

  function Advance(l: Lease): Lease { l.(transitionSequence := l.transitionSequence + 1) }

  function NoLease(l: Lease): Lease { l.(leaseId := None, grantedAt := None, expiresAt := None) }

  datatype Disk = Disk(journal: Journal, vault: Option<VaultFile>, lease: Option<Lease>)

  /** A fresh profile directory. */
  function EmptyDisk(groupId: Uuid): Disk { Disk(JournalModel.Empty(groupId), None, None) }

  function VaultDigest(vault: Option<VaultFile>): Option<Digest> {
    if vault.Some? then Some(Digest(vault.value)) else None
  }

  datatype Pending = Pending(
    kind: Kind,
    operationId: Uuid,
    leaseId: Option<Uuid>,
    confirmed: bool,
    cookieCount: Option<nat>,
    chunkCount: Option<nat>,
    nextChunk: nat,
    cookies: seq<CookieRecord>,
    bytes: nat,
    operationSequence: nat,
    attemptId: Option<Uuid>,
    chunkDigests: map<nat, seq<CookieRecord>>)

  function NewPending(kind: Kind, operationId: Uuid, leaseId: Option<Uuid>, sequence: nat,
                      attempt: Option<Uuid>): Pending
  {
    Pending(kind, operationId, leaseId, false, None, None, 0, [], 0, sequence, attempt, map[])
  }

  datatype St = St(
    groupId: Uuid,
    disk: Disk,
    log: seq<Disk>,
    journal: Journal,
    lease: Lease,
    pending: Option<Pending>,
    profileId: Option<Uuid>,
    connected: bool,
    v7: bool,
    monitoringOnly: bool)

  // ---------------------------------------------------------------------------------------------
  // Durable writes
  // ---------------------------------------------------------------------------------------------

  function Write(st: St, d: Disk): St { st.(disk := d, log := st.log + [d]) }

  function PersistJournal(st: St, j: Journal): St { Write(st, st.disk.(journal := j)).(journal := j) }

  function PersistLease(st: St, l: Lease): St { Write(st, st.disk.(lease := Some(l))).(lease := l) }

  function WriteVault(st: St, v: Option<VaultFile>): St { Write(st, st.disk.(vault := v)) }

  function Transit(st: St, id: Uuid, next: Phase): (St, Result<()>) {
    match JournalModel.Transition(st.journal, id, next)
    case Err(e) => (st, Err(e))
    case Ok(None) => (st, Ok(()))
    case Ok(Some(j)) => (PersistJournal(st, j), Ok(()))
  }

  // ---------------------------------------------------------------------------------------------
  // Recovery
  // ---------------------------------------------------------------------------------------------

  datatype RecoveryClass = VaultNotCommitted | VaultCommitted | VaultConflict

  datatype Recovery = Recovery(needsReconciliation: bool, operationId: Option<Uuid>, vaultSequence: Option<nat>)

  const NoRecovery := Recovery(false, None, None)

  function ClassifyVault(o: Operation, vault: Option<VaultFile>): Result<RecoveryClass> {
    if o.snapshot.None? then Err(Protocol)
    else
      var s := o.snapshot.value;
      match AF.ClassifyObject(VaultDigest(vault), s.previousDigest, s.targetDigest)
      case Previous => Ok(if o.phase.IsPrecommit() then VaultNotCommitted else VaultConflict)
      case Target => Ok(VaultCommitted)
      case Missing => Ok(if o.phase.IsPrecommit() && s.previousDigest.None? then VaultNotCommitted else VaultConflict)
      case Neither => Ok(VaultConflict)
  }

  function RecoverVaultPhase(st: St, id: Uuid): (St, Result<RecoveryClass>) {
    if !Has(st.journal, id) then (st, Err(Protocol))
    else
      var o := Get(st.journal, id);
      match ClassifyVault(o, st.disk.vault)
      case Err(e) => (st, Err(e))
      case Ok(c) =>
        var target := match c
          case VaultNotCommitted => NotCommitted
          case VaultCommitted => if o.phase.IsCommitted() then o.phase else Committed
          case VaultConflict => ReconciliationRequired;
        if o.phase == target then (st, Ok(c))
        else
          var (st', r) := Transit(st, id, target);
          (st', if r.Err? then Err(r.error) else Ok(c))
  }

  /** Ids of the operations that are not terminal, in journal order. */
  function ActiveIds(ops: seq<Operation>): seq<Uuid> {
    if ops == [] then []
    else
      var rest := ActiveIds(ops[..|ops| - 1]);
      var last := ops[|ops| - 1];
      if last.phase.IsTerminal() then rest else rest + [last.operationId]
  }

  function RecoverOne(st: St, id: Uuid, r: Recovery): (St, Result<Recovery>) {
    if !Has(st.journal, id) then (st, Err(Protocol))
    else
      var r := r.(needsReconciliation := true);
      if Get(st.journal, id).snapshot.None? then
        var (st', t) := Transit(st, id, Aborted);
        (st', if t.Err? then Err(t.error) else Ok(r))
      else
        var (st', c) := RecoverVaultPhase(st, id);
        match c
        case Err(e) => (st', Err(e))
        case Ok(VaultNotCommitted) =>
          var (st'', t) := Transit(st', id, Aborted);
          (st'', if t.Err? then Err(t.error) else Ok(r))
        case Ok(VaultCommitted) =>
          (st',
           Ok(r.(operationId := Some(id),
                 vaultSequence := Some(Get(st.journal, id).snapshot.value.targetVaultSequence))))
        case Ok(VaultConflict) => (st', Ok(r))
  }

  function RecoverAll(st: St, ids: seq<Uuid>, r: Recovery): (St, Result<Recovery>)
    decreases |ids|
  {
    if ids == [] then (st, Ok(r))
    else
      var (st', r') := RecoverOne(st, ids[0], r);
      if r'.Err? then (st', r') else RecoverAll(st', ids[1..], r'.value)
  }

  function StartupRecover(st: St): (St, Result<Recovery>) {
    RecoverAll(st, ActiveIds(st.journal.operations), NoRecovery)
  }

  function ReconcileOne(st: St, id: Uuid): (St, Result<()>) {
    if !Has(st.journal, id) then (st, Err(Protocol))
    else
      var o := Get(st.journal, id);
      var (st', c) := if o.snapshot.Some?
      && o.phase.IsPrecommit() then RecoverVaultPhase(st, id) else (st, Ok(VaultConflict));
      if c.Err? then (st', Err(c.error))
      else if !Has(st'.journal, id) then (st', Err(Protocol))
      else Transit(st', id, if Get(st'.journal, id).phase.NotCommitted? then Aborted else ReconciliationRequired)
  }

  function ReconcileAll(st: St, ids: seq<Uuid>): (St, Result<()>)
    decreases |ids|
  {
    if ids == [] then (st, Ok(()))
    else
      var (st', r) := ReconcileOne(st, ids[0]);
      if r.Err? then (st', r) else ReconcileAll(st', ids[1..])
  }

  function PrepareForV6Reconciliation(st: St): (St, Result<()>) {
    ReconcileAll(st, ActiveIds(st.journal.operations))
  }

  // ---------------------------------------------------------------------------------------------
  // Opening a group at startup
  // ---------------------------------------------------------------------------------------------

  function RepairLease(st: St, r: Recovery, vaultExists: bool): St {
    var l := st.lease;
    if l.pendingOperationId.Some? && Has(st.journal, l.pendingOperationId.value) &&
       Get(st.journal, l.pendingOperationId.value).phase.Completed? then
      var o := Get(st.journal, l.pendingOperationId.value);
      var l1 := if o.kind.Enrollment? then l.(state := Leased, leaseId := o.leaseId) else NoLease(l).(state := Sealed);
      var l2 := l1.(pendingOperationId := None,
                    vaultSequence := if o.snapshot.Some? then o.snapshot.value.targetVaultSequence
                      else l1.vaultSequence);
      PersistLease(st, Advance(l2))
    else if r.needsReconciliation && (!l.state.Uninitialized? || vaultExists) then
      PersistLease(st, Advance(l.(state := Degraded,
                                  pendingOperationId := r.operationId,
                                  vaultSequence := if r.vaultSequence.Some? then r.vaultSequence.value
                                    else l.vaultSequence)))
    else st
  }

  function Boot(groupId: Uuid, monitoringOnly: bool, d: Disk): St {
    St(groupId, d, [], d.journal, InitialLease(groupId, d.vault.Some?), None, None, false, false, monitoringOnly)
  }

  /** Loading the lease: a missing file is initialised, a lease without a vault is reset, and a
      vault without a lease state is refused. */
  function LoadLease(st: St): (St, Result<()>) {
    var vaultExists := st.disk.vault.Some?;
    match st.disk.lease
    case None => (PersistLease(st, InitialLease(st.groupId, vaultExists)), Ok(()))
    case Some(l) =>
      if l.groupId != st.groupId then (st, Err(Format))
      else if l.state.Uninitialized? && vaultExists then (st, Err(Format))
      else if !l.state.Uninitialized? && !vaultExists then (PersistLease(st, InitialLease(st.groupId, false)), Ok(()))
      else (st.(lease := l), Ok(()))
  }

  function Open(groupId: Uuid, monitoringOnly: bool, d: Disk): (St, Result<()>) {
    var (st1, loaded) := LoadLease(Boot(groupId, monitoringOnly, d));
    if loaded.Err? then (st1, loaded)
    else if !JournalModel.Valid(st1.journal, groupId) then (st1, Err(Format))
    else
      var (st2, recovered) := StartupRecover(st1);
      if recovered.Err? then (st2, Err(recovered.error))
      else (RepairLease(st2, recovered.value, d.vault.Some?), Ok(()))
  }

  // ---------------------------------------------------------------------------------------------
  // Committing a snapshot
  // ---------------------------------------------------------------------------------------------

  datatype Prepared = Prepared(
    bytes: VaultFile,
    previousDigest: Option<Digest>,
    targetDigest: Digest,
    vaultSequence: nat,
    commitRequired: bool)

  /** Sealing the records over the current vault; `fits` is whether the payload is within the
      format's size limit and `nonce` is the fresh AEAD nonce. */
  function PrepareAfterSnapshot(vault: Option<VaultFile>, cookies: seq<CookieRecord>, nonce: nat,
                                fits: bool): Result<Prepared>
  {
    match vault
    case Some(Foreign(_)) => Err(Format)
    case Some(Record(sequence, _, _)) =>
      var previous := Digest(vault.value);
      if cookies == [] then Ok(Prepared(vault.value, Some(previous), previous, sequence, false))
      else if sequence >= U64_MAX || !fits then Err(Format)
      else
        var bytes := Record(sequence + 1, cookies, nonce);
        Ok(Prepared(bytes, Some(previous), Digest(bytes), sequence + 1, true))
    case None =>
      if cookies == [] then Err(Protocol)
      else if !fits then Err(Format)
      else
        var bytes := Record(1, cookies, nonce);
        Ok(Prepared(bytes, None, Digest(bytes), 1, true))
  }

  function TagFor(st: St, profileId: Uuid, o: Operation, cookies: seq<CookieRecord>): Tag {
    Tag(profileId, st.journal.groupId, o.operationId, o.sequence, o.baseVaultSequence, cookies)
  }

  function CommitSnapshot(st: St, id: Uuid, cookies: seq<CookieRecord>, p: Prepared): (St, Result<nat>) {
    if !Has(st.journal, id) || st.profileId.None? then (st, Err(Protocol))
    else
      var binding := Binding(TagFor(st, st.profileId.value, Get(st.journal, id), cookies), p.previousDigest,
                             p.targetDigest, p.vaultSequence, |cookies|);
      match JournalModel.BindSnapshot(st.journal, id, binding)
      case Err(e) => (st, Err(e))
      case Ok(bound) =>
        var st1 := if bound.Some? then PersistJournal(st, bound.value) else st;
        var (st2, marked) := Transit(st1, id, DurabilityUnknown);
        if marked.Err? then (st2, Err(marked.error))
        else
          var st3 := if p.commitRequired then WriteVault(st2, Some(p.bytes)) else st2;
          var (st4, committed) := Transit(st3, id, Committed);
          (st4, if committed.Err? then Err(committed.error) else Ok(p.vaultSequence))
  }

  /** The same when the vault write may fail while the process goes on: a write that did not replace the
      file takes the phase back, a write of unknown durability is settled by the vault's digest unless
      that read fails too. */
  function CommitWithFault(st: St, id: Uuid, cookies: seq<CookieRecord>, p: Prepared, fault: AF.Fault,
                           readFails: bool): (St, Result<nat>)
  {
    if !Has(st.journal, id) || st.profileId.None? then (st, Err(Protocol))
    else
      var binding := Binding(TagFor(st, st.profileId.value, Get(st.journal, id), cookies), p.previousDigest,
                             p.targetDigest, p.vaultSequence, |cookies|);
      match JournalModel.BindSnapshot(st.journal, id, binding)
      case Err(e) => (st, Err(e))
      case Ok(bound) =>
        var st1 := if bound.Some? then PersistJournal(st, bound.value) else st;
        var (st2, marked) := Transit(st1, id, DurabilityUnknown);
        if marked.Err? then (st2, Err(marked.error))
        else
          var (st3, written) := ReplaceVault(st2, p, fault);
          SettleWrite(st3, id, written, p.vaultSequence, readFails)
  }

  /** One vault write; a file that stays as it was is no durable step. */
  function ReplaceVault(st: St, p: Prepared, fault: AF.Fault): (St, AF.DurableWriteResult) {
    if !p.commitRequired then (st, AF.Committed)
    else
      var (written, vault) := AF.Outcome(st.disk.vault, false, p.bytes, true, fault);
      var kept := written.NotCommitted? || (fault.SyncFailed? && !fault.visible);
      (if kept then st else WriteVault(st, vault), written)
  }

  function SettleWrite(st: St, id: Uuid, written: AF.DurableWriteResult, sequence: nat, readFails: bool): (St,
                       Result<nat>)
  {
    match written
    case Committed =>
      var (n, committed) := Transit(st, id, Committed);
      (n, if committed.Err? then Err(committed.error) else Ok(sequence))
    case NotCommitted =>
      var (n, back) := Transit(st, id, NotCommitted);
      (n, if back.Err? then Err(back.error) else Err(Io))
    case DurabilityUnknown =>
      if readFails then (st, Err(Io))
      else
        var (n, c) := RecoverVaultPhase(st, id);
        (n, if c.Err? then Err(c.error) else if c.value.VaultCommitted? then Ok(sequence) else Err(Io))
  }

  /** Whether a removal snapshot carries the tag that was committed for this operation. */
  function VerifySnapshot(st: St, id: Uuid, sequence: nat, attempt: Uuid, cookies: seq<CookieRecord>): Result<bool> {
    if !Has(st.journal, id) then Err(Protocol)
    else
      var o := Get(st.journal, id);
      if o.sequence != sequence || o.attemptId != Some(attempt) then Err(Protocol)
      else if st.profileId.None? || o.snapshot.None? then Err(Protocol)
      else Ok(TagFor(st, st.profileId.value, o, cookies) == o.snapshot.value.tag)
  }

  // ---------------------------------------------------------------------------------------------
  // Messages
  // ---------------------------------------------------------------------------------------------

  datatype Purpose = CommitPurpose | RemovalPrecheck | UnknownPurpose

  datatype Chunk = Chunk(
    operationId: Uuid,
    leaseId: Option<Uuid>,
    chunkIndex: nat,
    chunkCount: nat,
    cookieCount: nat,
    cookies: seq<CookieRecord>,
    encodedBytes: nat,
    operationSequence: Option<nat>,
    attemptId: Option<Uuid>,
    purpose: Option<Purpose>)

  datatype RequiredAction = SendSnapshot | ClassifyDurability | PrepareRemoval | Finished | Reconcile

  datatype Disposition = RetainLeased | Remove

  /** Fresh values the host draws while it handles a message, and answers of the platform. */
  datatype Env = Env(now: nat, leaseMs: nat, freshLeaseId: Uuid, freshOperationId: Uuid, nonce: nat, fits: bool,
                     authorized: bool)

  /** What the rest of the host makes of a handshake: all groups accept it, it is refused before any group
      is asked (version, extension id or capabilities), or another group refuses it, before or after this
      one has taken it. */
  datatype HandshakeFate = Accepted | Refused | RefusedElsewhere(afterThis: bool)

  datatype Message =
    | Handshake(profileId: Uuid, v7: bool, fate: HandshakeFate)
    | LeaseRequest(enroll: bool)
    | InjectResult(leaseId: Uuid, restored: bool)
    | EvictBegin(operationId: Uuid, evictLeaseId: Option<Uuid>, reason: string)
    | SnapshotChunk(chunk: Chunk)
    | EvictResult(resultOperationId: Uuid, resultLeaseId: Option<Uuid>, success: bool, remaining: nat,
                  sequence: Option<nat>, attempt: Option<Uuid>)
    | OperationBegin(attemptId: Uuid, kind: Kind, beginLeaseId: Option<Uuid>, beginReason: string)
    | OperationStatusQuery(queryOperationId: Uuid, querySequence: nat, queryLeaseId: Option<Uuid>)
    | RemovePrepare(prepareOperationId: Uuid, prepareSequence: nat, prepareLeaseId: Option<Uuid>, prepareAttempt: Uuid)
    | SessionInvalidate(invalidateLeaseId: Option<Uuid>)

  datatype Reply =
    | Granted(leaseId: Uuid)
    | Denied
    | SnapshotRequired(operationId: Uuid, operationSequence: nat, snapshotLeaseId: Option<Uuid>,
                       attemptId: Option<Uuid>)
    | Status(statusOperationId: Uuid, statusSequence: nat, statusLeaseId: Option<Uuid>, action: RequiredAction)
    | EvictConfirmed(confirmedOperationId: Uuid, vaultSequence: nat, disposition: Disposition,
                     confirmedSequence: Option<nat>, confirmedAttempt: Option<Uuid>)
    | RemoveAuthorized(authorizedOperationId: Uuid, authorizedSequence: nat, authorizedLeaseId: Option<Uuid>,
                       authorizedAttempt: Uuid)
    | OperationCompleted(completedOperationId: Uuid, completedSequence: nat, completedLeaseId: Option<Uuid>,
                         success: bool)
    | SessionInvalidated

  type Reaction = (St, Result<seq<Reply>>)

  const MAX_CHUNKS: nat := 65_536
  const MAX_SNAPSHOT_COOKIES: nat := 100_000
  const MAX_SNAPSHOT_BYTES: nat := 32 * 1024 * 1024

  // ---------------------------------------------------------------------------------------------
  // Handlers
  // ---------------------------------------------------------------------------------------------

  function HandleHandshake(st: St, profileId: Uuid, v7: bool, fate: HandshakeFate): Reaction {
    if st.connected || fate.Refused? || (fate.RefusedElsewhere? && !fate.afterThis) then (st, Err(Protocol))
    else if !v7 && st.lease.protocolFloor >= 7 then (st, Err(Protocol))
    else if profileId == NIL || (st.profileId.Some? && st.profileId.value != profileId) then (st, Err(Protocol))
    else if v7 && st.lease.protocolFloor > 7 then (st.(profileId := Some(profileId)), Err(Format))
    else
      var bound := st.(profileId := Some(profileId), connected := fate.Accepted?,
                       v7 := if fate.Accepted? then v7 else st.v7);
      var answer := if fate.Accepted? then Ok([]) else Err(Protocol);
      if v7 && (st.lease.protocolFloor < 7 || st.lease.operationHighWater < st.journal.highWater) then
        (PersistLease(bound, Advance(ActivatedV7(st.lease, st.journal.highWater))), answer)
      else (bound, answer)
  }

  /** The lease once protocol 7 is in use; neither the floor nor the high-water mark ever falls. */
  function ActivatedV7(l: Lease, highWater: nat): (n: Lease)
    ensures n.operationHighWater >= l.operationHighWater && n.operationHighWater >= highWater
  {
    l.(protocolFloor := 7,
       operationHighWater := if highWater > l.operationHighWater then highWater else l.operationHighWater)
  }

  /** begin_v6: a request id that is new needs a group without unresolved operations. */
  function BeginV6(st: St, q: Request): (St, Result<Operation>) {
    if !Has(st.journal, q.operationId) && HasUnresolved(st.journal) then (st, Err(Protocol))
    else
      match JournalModel.Begin(st.journal, q)
      case Err(e) => (st, Err(e))
      case Ok(Duplicate(o)) => (st, Ok(o))
      case Ok(Created(j, o)) => (PersistJournal(st, j), Ok(o))
  }

  /** issue_v7: the host draws the operation id, so a duplicate is an error. */
  function IssueV7(st: St, q: Request): (St, Result<Operation>) {
    if HasUnresolved(st.journal) then (st, Err(Protocol))
    else
      match JournalModel.Begin(st.journal, q)
      case Err(e) => (st, Err(e))
      case Ok(Duplicate(o)) => (st, Err(Format))
      case Ok(Created(j, o)) => (PersistJournal(st, j), Ok(o))
  }

  function HandleLeaseRequest(st: St, enroll: bool, env: Env): Reaction {
    if st.pending.Some? || HasUnresolved(st.journal) || st.monitoringOnly then (st, Ok([Denied]))
    else if enroll then
      if !st.lease.state.Uninitialized? || st.disk.vault.Some? then (st, Ok([Denied]))
      else if st.v7 then
        (PersistLease(st, Advance(st.lease.(leaseId := Some(env.freshLeaseId), grantedAt := Some(env.now),
                                            expiresAt := Some(env.now + env.leaseMs)))),
         Ok([Granted(env.freshLeaseId)]))
      else
        var q := Request(env.freshOperationId, None, Enrollment, Some(env.freshLeaseId), "initial_enrollment",
                         st.lease.vaultSequence);
        var (st1, begun) := BeginV6(st, q);
        if begun.Err? then (st1, Err(begun.error))
        else
          var l := st1.lease.(state := Evicting, leaseId := Some(env.freshLeaseId), grantedAt := Some(env.now),
                              expiresAt := Some(env.now + env.leaseMs),
                              pendingOperationId := Some(env.freshOperationId));
          var p := NewPending(Enrollment, env.freshOperationId, Some(env.freshLeaseId), 0, None);
          (PersistLease(st1, Advance(l)).(pending := Some(p)),
           Ok([Granted(env.freshLeaseId), SnapshotRequired(env.freshOperationId, 0, Some(env.freshLeaseId), None)]))
    else if !st.lease.state.Sealed? || st.disk.vault.None? then (st, Ok([Denied]))
    else if !env.authorized then (st, Err(Capability))
    else if st.disk.vault.value.Foreign? then (st, Err(Format))
    else
      var l := st.lease.(state := Leased, leaseId := Some(env.freshLeaseId), grantedAt := Some(env.now),
                         expiresAt := Some(env.now + env.leaseMs), pendingOperationId := None,
                         vaultSequence := st.disk.vault.value.vaultSequence);
      (PersistLease(st, Advance(l)), Ok([Granted(env.freshLeaseId)]))
  }

  function HandleInjectResult(st: St, leaseId: Uuid, restored: bool): Reaction {
    if !st.lease.state.Leased? || st.lease.leaseId != Some(leaseId) then (st, Err(Protocol))
    else if restored then (st, Ok([]))
    else (PersistLease(st, Advance(st.lease.(state := Degraded))), Ok([]))
  }

  function HandleSessionInvalidate(st: St, leaseId: Option<Uuid>): Reaction {
    if st.pending.Some? then (st, Err(Protocol))
    else if st.lease.state.Uninitialized? then (st, Ok([SessionInvalidated]))
    else if leaseId.Some? && leaseId != st.lease.leaseId then (st, Err(Protocol))
    else
      var l := NoLease(st.lease).(state := Uninitialized, pendingOperationId := None, vaultSequence := 0);
      (PersistLease(WriteVault(st, None), Advance(l)), Ok([SessionInvalidated]))
  }

  predicate IsReconciliation(l: Lease, reason: string) {
    reason == "startup_reconciliation" && !l.state.Uninitialized?
  }

  /** Which begins the current lease admits besides a reconciliation. */
  predicate EvictionAllowed(l: Lease, leaseId: Option<Uuid>, reason: string) {
    || (l.state.Leased? && l.leaseId == leaseId && leaseId.Some?)
    || (l.state.Sealed? && leaseId.None? && reason == "site_cookie_recreated")
    || (l.state.Degraded? && l.leaseId == leaseId && leaseId.Some? && reason == "degraded_cookie_detected")
  }

  function HandleEvictBegin(st: St, id: Uuid, leaseId: Option<Uuid>, reason: string): Reaction {
    if st.pending.Some? then (st, Err(Protocol))
    else if IsReconciliation(st.lease, reason) then
      var (st1, ready) := PrepareForV6Reconciliation(st);
      if ready.Err? then (st1, Err(ready.error)) else StartEviction(st1, id, leaseId, reason, Reconciliation)
    else if !EvictionAllowed(st.lease, leaseId, reason) || HasUnresolved(st.journal) then (st, Err(Protocol))
    else StartEviction(st, id, leaseId, reason, Eviction)
  }

  function StartEviction(st: St, id: Uuid, leaseId: Option<Uuid>, reason: string, kind: Kind): Reaction {
    var (st1, begun) := BeginV6(st, Request(id, None, kind, leaseId, reason, st.lease.vaultSequence));
    if begun.Err? then (st1, Err(begun.error))
    else
      var l := st1.lease.(state := Evicting, pendingOperationId := Some(id));
      (PersistLease(st1, Advance(l)).(pending := Some(NewPending(kind, id, leaseId, 0, None))),
       Ok([SnapshotRequired(id, 0, leaseId, None)]))
  }

  /** Buffering one chunk of a commit snapshot: the buffer after it, and whether it was the last. */
  function AppendCommitChunk(p: Pending, c: Chunk): (Pending, Result<bool>) {
    if p.operationId != c.operationId || p.leaseId != c.leaseId || p.confirmed then (p, Err(Protocol))
    else if c.chunkCount == 0 || c.chunkCount > MAX_CHUNKS || c.cookieCount > MAX_SNAPSHOT_COOKIES then
      (p, Err(Protocol))
    else if c.chunkIndex != p.nextChunk || (p.chunkCount.Some? && p.chunkCount.value != c.chunkCount) then
      (p, Err(Protocol))
    else if c.chunkIndex + 1 < c.chunkCount && c.cookies == [] then (p, Err(Protocol))
    else if p.bytes + c.encodedBytes > MAX_SNAPSHOT_BYTES then (p, Err(Protocol))
    else if |p.cookies| + |c.cookies| > c.cookieCount then (p, Err(Protocol))
    else
      var p' := p.(chunkCount := Some(c.chunkCount), nextChunk := p.nextChunk + 1, bytes := p.bytes + c.encodedBytes,
                   cookies := p.cookies + c.cookies);
      if p'.nextChunk < c.chunkCount then (p', Ok(false))
      else if |p'.cookies| != c.cookieCount then (p', Err(Protocol))
      else (p', Ok(true))
  }

  function HandleSnapshotChunk(st: St, c: Chunk, env: Env): Reaction {
    if st.pending.None? then (st, Err(Protocol))
    else
      var (p, appended) := AppendCommitChunk(st.pending.value, c);
      var st1 := st.(pending := Some(p));
      if appended.Err? then (st1, Err(appended.error))
      else if !appended.value then (st1, Ok([]))
      else if p.kind.Enrollment? && p.cookies == [] then AbortEmpty(st1.(pending := None), c.operationId)
      else CommitBuffered(st1, c, p.cookies, p.(cookies := []), env)
  }

  /** An empty scope ends an enrollment without a vault. */
  function AbortEmpty(st: St, id: Uuid): Reaction {
    var (st1, aborted) := Transit(st, id, Aborted);
    if aborted.Err? then (st1, Err(aborted.error))
    else (PersistLease(st1, Advance(NoLease(st1.lease).(state := Uninitialized, pendingOperationId := None))),
          Ok([SessionInvalidated]))
  }

  /** The last chunk has arrived and the buffer has been taken out of the pending operation. */
  function CommitBuffered(st: St, c: Chunk, cookies: seq<CookieRecord>, p: Pending, env: Env): Reaction {
    match PrepareAfterSnapshot(st.disk.vault, cookies, env.nonce, env.fits)
    case Err(e) => (st.(pending := Some(p)), Err(e))
    case Ok(prepared) =>
      var (st2, committed) := CommitSnapshot(st, c.operationId, cookies, prepared);
      if committed.Err? then (st2.(pending := Some(p)), Err(committed.error))
      else ConfirmCommitted(st2, c.operationId, committed.value, p.(confirmed := true, cookieCount := Some(|cookies|)))
  }

  function ConfirmCommitted(st: St, id: Uuid, sequence: nat, p: Pending): Reaction {
    var st1 := PersistLease(st, st.lease.(vaultSequence := sequence, pendingOperationId := Some(id)));
    var (st2, marked) := Transit(st1, id, BrowserRemovalPending);
    (st2.(pending := Some(p)),
     if marked.Err? then Err(marked.error)
     else Ok([EvictConfirmed(id, sequence, if p.kind.Enrollment? then RetainLeased else Remove, None, None)]))
  }

  function BindReply(r: Reply, sequence: nat, attempt: Uuid): Reply {
    if r.EvictConfirmed? then r.(confirmedSequence := Some(sequence), confirmedAttempt := Some(attempt)) else r
  }

  function BindReplies(rs: seq<Reply>, sequence: nat, attempt: Uuid): seq<Reply> {
    seq(|rs|, i requires 0 <= i < |rs| => BindReply(rs[i], sequence, attempt))
  }

  function HandleSnapshotChunkV7(st: St, c: Chunk, env: Env): Reaction {
    if c.operationSequence.None? || c.attemptId.None? || c.purpose.None? || st.pending.None? then (st, Err(Protocol))
    else
      var p := st.pending.value;
      if p.operationId != c.operationId || p.operationSequence != c.operationSequence.value || p.leaseId != c.leaseId ||
         p.attemptId != c.attemptId then
        (st, Err(Protocol))
      else if c.chunkIndex in p.chunkDigests then
        (st, if p.chunkDigests[c.chunkIndex] == c.cookies then Ok([]) else Err(Protocol))
      else
        var st1 := st.(pending := Some(p.(chunkDigests := p.chunkDigests[c.chunkIndex := c.cookies])));
        match c.purpose.value
        case RemovalPrecheck => HandleRemovalChunk(st1, c)
        case UnknownPurpose => (st1, Err(Protocol))
        case CommitPurpose =>
          var (st2, replies) := HandleSnapshotChunk(st1, c, env);
          (st2, if replies.Err? then replies
                else Ok(BindReplies(replies.value, c.operationSequence.value, c.attemptId.value)))
  }

  /** Buffering one chunk of a removal snapshot; a chunk seen before must carry the same records. */
  function AppendV7Chunk(p: Pending, c: Chunk): (Pending, Result<()>) {
    if c.chunkCount == 0 || c.chunkCount > MAX_CHUNKS || c.cookieCount > MAX_SNAPSHOT_COOKIES then (p, Err(Protocol))
    else if c.chunkIndex < p.nextChunk then
      (p, if c.chunkIndex in p.chunkDigests && p.chunkDigests[c.chunkIndex] == c.cookies then Ok(()) else Err(Protocol))
    else if c.chunkIndex != p.nextChunk || (p.chunkCount.Some? && p.chunkCount.value != c.chunkCount) then
      (p, Err(Protocol))
    else if p.bytes + c.encodedBytes > MAX_SNAPSHOT_BYTES || |p.cookies| + |c.cookies| > c.cookieCount then
      (p, Err(Protocol))
    else
      var p' := p.(chunkCount := Some(c.chunkCount), chunkDigests := p.chunkDigests[c.chunkIndex := c.cookies],
                   nextChunk := p.nextChunk + 1, bytes := p.bytes + c.encodedBytes, cookies := p.cookies + c.cookies);
      (p', if p'.nextChunk == c.chunkCount && |p'.cookies| != c.cookieCount then Err(Protocol) else Ok(()))
  }

  function HandleRemovalChunk(st: St, c: Chunk): Reaction
    requires c.operationSequence.Some? && c.attemptId.Some?
  {
    if st.pending.None? then (st, Err(Protocol))
    else
      var (p, appended) := AppendV7Chunk(st.pending.value, c);
      var st1 := st.(pending := Some(p));
      if appended.Err? then (st1, Err(appended.error))
      else if p.nextChunk < c.chunkCount then (st1, Ok([]))
      else
        match VerifySnapshot(st1, c.operationId, c.operationSequence.value, c.attemptId.value, p.cookies)
        case Err(e) => (st1, Err(e))
        case Ok(true) =>
          (st1, Ok([RemoveAuthorized(c.operationId, c.operationSequence.value, c.leaseId, c.attemptId.value)]))
        case Ok(false) =>
          var (st2, given) := Transit(st1, c.operationId, ReconciliationRequired);
          if given.Err? then (st2, Err(given.error))
          else
            (PersistLease(st2, Advance(st2.lease.(state := Degraded))).(pending := None),
             Ok([OperationCompleted(c.operationId, c.operationSequence.value, c.leaseId, false)]))
  }

  /** What the extension's report makes of the operation: an enrollment must have kept exactly the
      captured number of cookies, every other kind must have left none. */
  function EvictOutcome(p: Pending, success: bool, remaining: nat): Phase {
    if p.kind.Enrollment? then
      if success && p.cookieCount == Some(remaining) && remaining > 0 then Completed else ReconciliationRequired
    else
      if success && remaining == 0 then Completed else ReconciliationRequired
  }

  function LeaseAfterResult(l: Lease, kind: Kind, outcome: Phase): Lease {
    if !outcome.Completed? then l.(state := Degraded, pendingOperationId := None)
    else if kind.Enrollment? then l.(state := Leased, pendingOperationId := None)
    else NoLease(l).(state := Sealed, pendingOperationId := None)
  }

  function EndOperation(st: St, id: Uuid, kind: Kind, outcome: Phase): Reaction {
    var (st1, ended) := Transit(st, id, outcome);
    if ended.Err? then (st1, Err(ended.error))
    else (PersistLease(st1, Advance(LeaseAfterResult(st1.lease, kind, outcome))), Ok([]))
  }

  function HandleEvictResult(st: St, id: Uuid, leaseId: Option<Uuid>, success: bool, remaining: nat): Reaction {
    if st.pending.None? then (st, Err(Protocol))
    else
      var p := st.pending.value;
      if p.operationId != id || p.leaseId != leaseId || !p.confirmed then (st, Err(Protocol))
      else EndOperation(st.(pending := None), id, p.kind, EvictOutcome(p, success, remaining))
  }

  function HandleEvictResultV7(st: St, id: Uuid, leaseId: Option<Uuid>, success: bool, remaining: nat,
                               sequence: Option<nat>, attempt: Option<Uuid>): Reaction {
    if sequence.None? || attempt.None? || st.pending.None? then (st, Err(Protocol))
    else
      var p := st.pending.value;
      if p.operationSequence != sequence.value || p.attemptId != attempt then (st, Err(Protocol))
      else
        var reported := success && (if p.kind.Enrollment? then remaining > 0 else remaining == 0);
        var (st1, r) := HandleEvictResult(st, id, leaseId, success, remaining);
        (st1, if r.Err? then r else Ok([OperationCompleted(id, sequence.value, leaseId, reported)]))
  }

  function StatusOf(o: Operation): Reply {
    Status(o.operationId, o.sequence, o.leaseId,
      match o.phase
      case NotCommitted => SendSnapshot
      case DurabilityUnknown => ClassifyDurability
      case Committed => PrepareRemoval
      case BrowserRemovalPending => PrepareRemoval
      case Completed => Finished
      case Aborted => Finished
      case ReconciliationRequired => Reconcile)
  }

  function HandleOperationBegin(st: St, attempt: Uuid, kind: Kind, leaseId: Option<Uuid>, reason: string,
                                env: Env): Reaction
  {
    if attempt == NIL then (st, Err(Protocol))
    else
      var k := IndexOfAttempt(st.journal.operations, attempt);
      if k < |st.journal.operations| then
        var o := st.journal.operations[k];
        if o.kind != kind || o.leaseId != leaseId || o.reason != reason then (st, Err(Protocol))
        else if o.phase.NotCommitted? then
          (st, Ok([SnapshotRequired(o.operationId, o.sequence, o.leaseId, Some(attempt))]))
        else (st, Ok([StatusOf(o)]))
      else
        var valid := match kind
          case Enrollment => st.lease.state.Uninitialized?
          case Eviction => st.lease.state.Leased? && st.lease.leaseId == leaseId && leaseId.Some?
          case Reconciliation => !st.lease.state.Uninitialized?;
        if !valid || st.pending.Some? then (st, Err(Protocol))
        else
          var q := Request(env.freshOperationId, Some(attempt), kind, leaseId, reason, st.lease.vaultSequence);
          var (st1, issued) := IssueV7(st, q);
          if issued.Err? then (st1, Err(issued.error))
          else
            var o := issued.value;
            var l := st1.lease.(state := Evicting, pendingOperationId := Some(o.operationId),
                                operationHighWater := o.sequence);
            var p := NewPending(kind, o.operationId, leaseId, o.sequence, Some(attempt));
            (PersistLease(st1, Advance(l)).(pending := Some(p)),
             Ok([SnapshotRequired(o.operationId, o.sequence, leaseId, Some(attempt))]))
  }

  function HandleOperationStatus(st: St, id: Uuid, sequence: nat, leaseId: Option<Uuid>): Reaction {
    if !Has(st.journal, id) then (st, Err(Protocol))
    else
      var o := Get(st.journal, id);
      if o.sequence != sequence || o.leaseId != leaseId then (st, Err(Protocol))
      else
        var st1 :=
          if st.pending.None? && !o.phase.IsTerminal() then
            st.(pending := Some(NewPending(o.kind, o.operationId, o.leaseId, o.sequence, o.attemptId).(
              confirmed := o.phase.IsCommitted(),
              cookieCount := if o.snapshot.Some? then Some(o.snapshot.value.cookieCount) else None)))
          else st;
        (st1, Ok([StatusOf(o)]))
  }

  function HandleRemovePrepare(st: St, id: Uuid, sequence: nat, leaseId: Option<Uuid>, attempt: Uuid): Reaction {
    if st.pending.None? then (st, Err(Protocol))
    else
      var p := st.pending.value;
      if p.operationId != id || p.operationSequence != sequence || p.leaseId != leaseId ||
         p.attemptId != Some(attempt) ||
         !p.confirmed then
        (st, Err(Protocol))
      else
        (st.(pending := Some(p.(cookieCount := None, chunkCount := None, nextChunk := 0, cookies := [], bytes := 0,
                                chunkDigests := map[]))), Ok([]))
  }

  function Handle(st: St, m: Message, env: Env): Reaction {
    if m.Handshake? then HandleHandshake(st, m.profileId, m.v7, m.fate)
    else if !st.connected then (st, Err(Protocol))
    else
      match m
      case LeaseRequest(enroll) => HandleLeaseRequest(st, enroll, env)
      case InjectResult(leaseId, restored) => HandleInjectResult(st, leaseId, restored)
      case EvictBegin(id, leaseId, reason) => HandleEvictBegin(st, id, leaseId, reason)
      case SnapshotChunk(c) => if st.v7 then HandleSnapshotChunkV7(st, c, env) else HandleSnapshotChunk(st, c, env)
      case EvictResult(id, leaseId, success, remaining, sequence, attempt) =>
        if st.v7 then HandleEvictResultV7(st, id, leaseId, success, remaining, sequence, attempt)
        else HandleEvictResult(st, id, leaseId, success, remaining)
      case OperationBegin(attempt, kind, leaseId, reason) =>
        if st.v7 then HandleOperationBegin(st, attempt, kind, leaseId, reason, env) else (st, Err(Protocol))
      case OperationStatusQuery(id, sequence, leaseId) =>
        if st.v7 then HandleOperationStatus(st, id, sequence, leaseId) else (st, Err(Protocol))
      case RemovePrepare(id, sequence, leaseId, attempt) =>
        if st.v7 then HandleRemovePrepare(st, id, sequence, leaseId, attempt) else (st, Err(Protocol))
      case SessionInvalidate(leaseId) => HandleSessionInvalidate(st, leaseId)
  }
}
