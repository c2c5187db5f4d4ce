/** The running host of one account group: fields that its handlers update in place, and files that
    it replaces one at a time. `trace` holds the durable states of the message under way. Each method is
    proved to reach exactly the state its specification function computes and to pass through exactly
    the durable states that function logs. `Startup`, `Handle` and `RunConnection` state what holds then:
    the invariant of the host and of every durable state, and that a connection is a run of EngineRuns. */
module EngineRuntime {
  import opened Base
  import opened JournalModel
  import S = EngineSpec
  import AF = AtomicFile
  import I = EngineInvariant
  import EngineSafety
  import R = EngineRuns
  import EngineLeases
  import RemovalHost
  import EngineCommitFaults

  /** Every logged state satisfies the disk invariant and has a journal evolved from j. */
  predicate LogGood(st: S.St, j: Journal) {
    forall i :: 0 <= i < |st.log| ==> I.DiskInv(st.log[i], st.groupId) && Evolves(j, st.log[i].journal)
  }

  class GroupRuntime {
    const groupId: Uuid
    const monitoringOnly: bool
    var disk: S.Disk
    ghost var trace: seq<S.Disk>
    var journal: Journal
    var lease: S.Lease
    var pending: Option<S.Pending>
    var profileId: Option<Uuid>
    var connected: bool
    var v7: bool

    /** Every durable state of the message under way satisfies the disk invariant, and the journal only
        evolved from `j`. */
    ghost predicate TraceGood(j: Journal)
      reads this
    {
      LogGood(State(), j)
    }

    ghost function State(): S.St
      reads this
    {
      S.St(groupId, disk, trace, journal, lease, pending, profileId, connected, v7, monitoringOnly)
    }

    constructor (groupId: Uuid, monitoringOnly: bool, disk: S.Disk)
      ensures State() == S.Boot(groupId, monitoringOnly, disk)
    {
      this.groupId, this.monitoringOnly, this.disk, this.trace := groupId, monitoringOnly, disk, [];
      this.journal, this.lease := disk.journal, S.InitialLease(groupId, disk.vault.Some?);
      this.pending, this.profileId, this.connected, this.v7 := None, None, false, false;
    }

    // -------------------------------------------------------------------------------------------
    // Files
    // -------------------------------------------------------------------------------------------

    method PersistJournal(next: Journal)
      modifies this
      ensures State() == S.PersistJournal(old(State()), next)
    {
      disk := disk.(journal := next);
      trace := trace + [disk];
      journal := next;
    }

    method PersistLease(next: S.Lease)
      modifies this
      ensures State() == S.PersistLease(old(State()), next)
    {
      disk := disk.(lease := Some(next));
      trace := trace + [disk];
      lease := next;
    }

    method ReplaceVault(next: Option<VaultFile>)
      modifies this
      ensures State() == S.WriteVault(old(State()), next)
    {
      disk := disk.(vault := next);
      trace := trace + [disk];
    }

    method Transit(id: Uuid, next: Phase) returns (r: Result<()>)
      modifies this
      ensures (State(), r) == S.Transit(old(State()), id, next)
    {
      if !Has(journal, id) {
        return Err(Protocol);
      }
      var k := IndexOf(journal.operations, id);
      var operation := journal.operations[k];
      if operation.phase == next {
        return Ok(());
      }
      if !operation.phase.CanTransitionTo(next) {
        return Err(Protocol);
      }
      if next == Committed && operation.snapshot.None? {
        return Err(Protocol);
      }
      PersistJournal(WithOperation(journal, k, operation.(phase := next)));
      return Ok(());
    }

    // -------------------------------------------------------------------------------------------
    // Recovery
    // -------------------------------------------------------------------------------------------

    method RecoverVaultPhase(id: Uuid) returns (r: Result<S.RecoveryClass>)
      modifies this
      ensures (State(), r) == S.RecoverVaultPhase(old(State()), id)
    {
      if !Has(journal, id) {
        return Err(Protocol);
      }
      var operation := Get(journal, id);
      var classified := S.ClassifyVault(operation, disk.vault);
      if classified.Err? {
        return Err(classified.error);
      }
      var target := ReconciliationRequired;
      match classified.value {
        case VaultNotCommitted => target := NotCommitted;
        case VaultCommitted =>
          if operation.phase == Committed || operation.phase == BrowserRemovalPending {
            target := operation.phase;
          } else {
            target := Committed;
          }
        case VaultConflict =>
      }
      if operation.phase != target {
        var moved := Transit(id, target);
        if moved.Err? {
          return Err(moved.error);
        }
      }
      return classified;
    }

    method ActiveIds() returns (ids: seq<Uuid>)
      ensures ids == S.ActiveIds(journal.operations)
    {
      ids := [];
      var ops := journal.operations;
      for i := 0 to |ops|
        invariant ids == S.ActiveIds(ops[..i])
      {
        assert ops[..i + 1][..i] == ops[..i];
        if !ops[i].phase.IsTerminal() {
          ids := ids + [ops[i].operationId];
        }
      }
      assert ops[..|ops|] == ops;
    }

    method RecoverOne(id: Uuid, recovery: S.Recovery) returns (r: Result<S.Recovery>)
      modifies this
      ensures (State(), r) == S.RecoverOne(old(State()), id, recovery)
    {
      if !Has(journal, id) {
        return Err(Protocol);
      }
      var next := recovery.(needsReconciliation := true);
      var operation := Get(journal, id);
      if operation.snapshot.None? {
        var aborted := Transit(id, Aborted);
        return if aborted.Err? then Err(aborted.error) else Ok(next);
      }
      var c := RecoverVaultPhase(id);
      if c.Err? {
        return Err(c.error);
      }
      match c.value {
        case VaultNotCommitted =>
          var aborted := Transit(id, Aborted);
          return if aborted.Err? then Err(aborted.error) else Ok(next);
        case VaultCommitted =>
          return Ok(next.(operationId := Some(id),
                          vaultSequence := Some(operation.snapshot.value.targetVaultSequence)));
        case VaultConflict =>
          return Ok(next);
      }
    }

    method StartupRecover() returns (r: Result<S.Recovery>)
      modifies this
      ensures (State(), r) == S.StartupRecover(old(State()))
    {
      var active := ActiveIds();
      var recovery := S.NoRecovery;
      for i := 0 to |active|
        invariant S.RecoverAll(State(), active[i..], recovery) == S.StartupRecover(old(State()))
      {
        assert active[i..][0] == active[i] && active[i..][1..] == active[i + 1..];
        var step := RecoverOne(active[i], recovery);
        if step.Err? {
          return step;
        }
        recovery := step.value;
      }
      return Ok(recovery);
    }

    method ReconcileOne(id: Uuid) returns (r: Result<()>)
      modifies this
      ensures (State(), r) == S.ReconcileOne(old(State()), id)
    {
      if !Has(journal, id) {
        return Err(Protocol);
      }
      var operation := Get(journal, id);
      if operation.snapshot.Some? && (operation.phase == NotCommitted || operation.phase == DurabilityUnknown) {
        var c := RecoverVaultPhase(id);
        if c.Err? {
          return Err(c.error);
        }
      }
      if !Has(journal, id) {
        return Err(Protocol);
      }
      var phase := Get(journal, id).phase;
      r := Transit(id, if phase == NotCommitted then Aborted else ReconciliationRequired);
    }

    method PrepareForV6Reconciliation() returns (r: Result<()>)
      modifies this
      ensures (State(), r) == S.PrepareForV6Reconciliation(old(State()))
    {
      var active := ActiveIds();
      for i := 0 to |active|
        invariant S.ReconcileAll(State(), active[i..]) == S.PrepareForV6Reconciliation(old(State()))
      {
        assert active[i..][0] == active[i] && active[i..][1..] == active[i + 1..];
        var step := ReconcileOne(active[i]);
        if step.Err? {
          return step;
        }
      }
      return Ok(());
    }

    method LoadLease() returns (r: Result<()>)
      modifies this
      ensures (State(), r) == S.LoadLease(old(State()))
    {
      var vaultExists := disk.vault.Some?;
      if disk.lease.None? {
        PersistLease(S.InitialLease(groupId, vaultExists));
        return Ok(());
      }
      var metadata := disk.lease.value;
      if metadata.groupId != groupId {
        return Err(Format);
      }
      if metadata.state == S.Uninitialized && vaultExists {
        return Err(Format);
      }
      if metadata.state != S.Uninitialized && !vaultExists {
        PersistLease(S.InitialLease(groupId, false));
        return Ok(());
      }
      lease := metadata;
      return Ok(());
    }

    method RepairLease(recovery: S.Recovery, vaultExists: bool)
      modifies this
      ensures State() == S.RepairLease(old(State()), recovery, vaultExists)
    {
      var l := lease;
      if l.pendingOperationId.Some? && Has(journal, l.pendingOperationId.value) {
        var operation := Get(journal, l.pendingOperationId.value);
        if operation.phase == Completed {
          if operation.kind == Enrollment {
            l := l.(state := S.Leased, leaseId := operation.leaseId);
          } else {
            l := l.(state := S.Sealed, leaseId := None, grantedAt := None, expiresAt := None);
          }
          l := l.(pendingOperationId := None);
          if operation.snapshot.Some? {
            l := l.(vaultSequence := operation.snapshot.value.targetVaultSequence);
          }
          PersistLease(S.Advance(l));
          return;
        }
      }
      if recovery.needsReconciliation && (l.state != S.Uninitialized || vaultExists) {
        l := l.(state := S.Degraded, pendingOperationId := recovery.operationId);
        if recovery.vaultSequence.Some? {
          l := l.(vaultSequence := recovery.vaultSequence.value);
        }
        PersistLease(S.Advance(l));
      }
    }

    method Startup() returns (r: Result<()>)
      requires State() == S.Boot(groupId, monitoringOnly, disk)
      modifies this
      ensures (State(), r) == S.Open(groupId, monitoringOnly, old(disk))
      ensures I.DiskInv(old(disk), groupId) ==>
                && r.Ok? && I.HostInv(State()) && EngineSafety.AfterOpen(State()) && TraceGood(old(disk).journal)
                && Evolves(old(disk).journal, journal) && disk.vault == old(disk).vault
                && EngineLeases.Exclusive(State()) && RemovalHost.VaultKept(State())
    {
      if I.DiskInv(disk, groupId) { EngineSafety.OpenSafe(groupId, monitoringOnly, disk); }
      r := OpenGroup();
    }

    method OpenGroup() returns (r: Result<()>)
      requires State() == S.Boot(groupId, monitoringOnly, disk)
      modifies this
      ensures (State(), r) == S.Open(groupId, monitoringOnly, old(disk))
    {
      var vaultExists := disk.vault.Some?;
      var loaded := LoadLease();
      if loaded.Err? {
        return loaded;
      }
      var checked := Validate(journal, groupId);
      if checked.Err? {
        return Err(Format);
      }
      var recovered := StartupRecover();
      if recovered.Err? {
        return Err(recovered.error);
      }
      RepairLease(recovered.value, vaultExists);
      return Ok(());
    }

    // -------------------------------------------------------------------------------------------
    // Beginning and committing
    // -------------------------------------------------------------------------------------------

    method HasUnresolved() returns (found: bool)
      ensures found <==> JournalModel.HasUnresolved(journal)
    {
      found := false;
      for i := 0 to |journal.operations|
        invariant found <==> exists k :: 0 <= k < i && !journal.operations[k].phase.IsTerminal()
      {
        if !journal.operations[i].phase.IsTerminal() {
          found := true;
        }
      }
    }

    method BeginV6(request: Request) returns (r: Result<Operation>)
      modifies this
      ensures (State(), r) == S.BeginV6(old(State()), request)
    {
      var unresolved := HasUnresolved();
      if !Has(journal, request.operationId) && unresolved {
        return Err(Protocol);
      }
      var edit := JournalModel.Begin(journal, request);
      match edit {
        case Err(e) => return Err(e);
        case Ok(Duplicate(o)) => return Ok(o);
        case Ok(Created(j, o)) =>
          PersistJournal(j);
          return Ok(o);
      }
    }

    method IssueV7(request: Request) returns (r: Result<Operation>)
      modifies this
      ensures (State(), r) == S.IssueV7(old(State()), request)
    {
      var unresolved := HasUnresolved();
      if unresolved {
        return Err(Protocol);
      }
      var edit := JournalModel.Begin(journal, request);
      match edit {
        case Err(e) => return Err(e);
        case Ok(Duplicate(o)) => return Err(Format);
        case Ok(Created(j, o)) =>
          PersistJournal(j);
          return Ok(o);
      }
    }

    /** The vault write may fail while the process goes on; `readFails` is whether the read that settles a
        write of unknown durability fails too. */
    method CommitSnapshot(id: Uuid, cookies: seq<CookieRecord>, prepared: S.Prepared, fault: AF.Fault, readFails: bool)
      returns (r: Result<nat>)
      modifies this
      ensures (State(), r) == S.CommitWithFault(old(State()), id, cookies, prepared, fault, readFails)
    {
      if !Has(journal, id) || profileId.None? {
        return Err(Protocol);
      }
      var operation := Get(journal, id);
      var tag := Tag(profileId.value, journal.groupId, id, operation.sequence, operation.baseVaultSequence, cookies);
      var bound := JournalModel.BindSnapshot(journal, id,
        Binding(tag, prepared.previousDigest, prepared.targetDigest, prepared.vaultSequence, |cookies|));
      if bound.Err? {
        return Err(bound.error);
      }
      if bound.value.Some? {
        PersistJournal(bound.value.value);
      }
      var marked := Transit(id, DurabilityUnknown);
      if marked.Err? {
        return Err(marked.error);
      }
      var written := AF.Committed;
      if prepared.commitRequired {
        written := CommitPrepared(prepared, fault);
      }
      r := Settle(id, written, prepared.vaultSequence, readFails);
    }

    method CommitPrepared(prepared: S.Prepared, fault: AF.Fault) returns (written: AF.DurableWriteResult)
      requires prepared.commitRequired
      modifies this
      ensures (State(), written) == S.ReplaceVault(old(State()), prepared, fault)
    {
      if fault.TemporaryFailed? || fault.ReadBackFailed? || fault.RenameFailed? {
        return AF.NotCommitted;
      }
      if fault.SyncFailed? && !fault.visible {
        return AF.DurabilityUnknown;
      }
      ReplaceVault(Some(prepared.bytes));
      return if fault.SyncFailed? then AF.DurabilityUnknown else AF.Committed;
    }

    method Settle(id: Uuid, written: AF.DurableWriteResult, sequence: nat, readFails: bool) returns (r: Result<nat>)
      modifies this
      ensures (State(), r) == S.SettleWrite(old(State()), id, written, sequence, readFails)
    {
      match written {
        case Committed =>
          var committed := Transit(id, Committed);
          if committed.Err? {
            return Err(committed.error);
          }
          return Ok(sequence);
        case NotCommitted =>
          var back := Transit(id, NotCommitted);
          if back.Err? {
            return Err(back.error);
          }
          return Err(Io);
        case DurabilityUnknown =>
          if readFails {
            return Err(Io);
          }
          var found := RecoverVaultPhase(id);
          if found.Err? {
            return Err(found.error);
          }
          if found.value.VaultCommitted? {
            return Ok(sequence);
          }
          return Err(Io);
      }
    }

    // -------------------------------------------------------------------------------------------
    // Handlers
    // -------------------------------------------------------------------------------------------

    method HandleSnapshotChunk(c: S.Chunk, env: S.Env) returns (r: Result<seq<S.Reply>>)
      modifies this
      ensures (State(), r) == S.HandleSnapshotChunk(old(State()), c, env)
    {
      if pending.None? {
        return Err(Protocol);
      }
      var (buffered, appended) := S.AppendCommitChunk(pending.value, c);
      pending := Some(buffered);
      if appended.Err? {
        return Err(appended.error);
      }
      if !appended.value {
        return Ok([]);
      }
      var cookies := buffered.cookies;
      if buffered.kind == Enrollment && cookies == [] {
        pending := None;
        var aborted := Transit(c.operationId, Aborted);
        if aborted.Err? {
          return Err(aborted.error);
        }
        PersistLease(S.Advance(lease.(state := S.Uninitialized, leaseId := None, grantedAt := None, expiresAt := None,
                                      pendingOperationId := None)));
        return Ok([S.SessionInvalidated]);
      }
      buffered := buffered.(cookies := []);
      var prepared := S.PrepareAfterSnapshot(disk.vault, cookies, env.nonce, env.fits);
      if prepared.Err? {
        pending := Some(buffered);
        return Err(prepared.error);
      }
      EngineCommitFaults.NoFaultIsCommit(State(), c.operationId, cookies, prepared.value, false);
      var committed := CommitSnapshot(c.operationId, cookies, prepared.value, AF.NoFault, false);
      if committed.Err? {
        pending := Some(buffered);
        return Err(committed.error);
      }
      PersistLease(lease.(vaultSequence := committed.value, pendingOperationId := Some(c.operationId)));
      var marked := Transit(c.operationId, BrowserRemovalPending);
      pending := Some(buffered.(confirmed := true, cookieCount := Some(|cookies|)));
      if marked.Err? {
        return Err(marked.error);
      }
      return Ok([S.EvictConfirmed(c.operationId, committed.value,
                                  if buffered.kind == Enrollment then S.RetainLeased else S.Remove, None, None)]);
    }

    method HandleRemovalChunk(c: S.Chunk) returns (r: Result<seq<S.Reply>>)
      requires c.operationSequence.Some? && c.attemptId.Some?
      modifies this
      ensures (State(), r) == S.HandleRemovalChunk(old(State()), c)
    {
      if pending.None? {
        return Err(Protocol);
      }
      var (buffered, appended) := S.AppendV7Chunk(pending.value, c);
      pending := Some(buffered);
      if appended.Err? {
        return Err(appended.error);
      }
      if buffered.nextChunk < c.chunkCount {
        return Ok([]);
      }
      if !Has(journal, c.operationId) {
        return Err(Protocol);
      }
      var operation := Get(journal, c.operationId);
      if operation.sequence != c.operationSequence.value || operation.attemptId != c.attemptId {
        return Err(Protocol);
      }
      if profileId.None? || operation.snapshot.None? {
        return Err(Protocol);
      }
      var actual := Tag(profileId.value, journal.groupId, c.operationId, operation.sequence,
                        operation.baseVaultSequence, buffered.cookies);
      if actual == operation.snapshot.value.tag {
        return Ok([S.RemoveAuthorized(c.operationId, c.operationSequence.value, c.leaseId, c.attemptId.value)]);
      }
      var given := Transit(c.operationId, ReconciliationRequired);
      if given.Err? {
        return Err(given.error);
      }
      PersistLease(S.Advance(lease.(state := S.Degraded)));
      pending := None;
      return Ok([S.OperationCompleted(c.operationId, c.operationSequence.value, c.leaseId, false)]);
    }

    method HandleEvictResult(id: Uuid, leaseId: Option<Uuid>, success: bool, remaining: nat)
      returns (r: Result<seq<S.Reply>>)
      modifies this
      ensures (State(), r) == S.HandleEvictResult(old(State()), id, leaseId, success, remaining)
    {
      if pending.None? {
        return Err(Protocol);
      }
      var p := pending.value;
      if p.operationId != id || p.leaseId != leaseId || !p.confirmed {
        return Err(Protocol);
      }
      pending := None;
      if p.kind == Enrollment && success && p.cookieCount == Some(remaining) && remaining > 0 {
        var completed := Transit(id, Completed);
        if completed.Err? {
          return Err(completed.error);
        }
        PersistLease(S.Advance(lease.(state := S.Leased, pendingOperationId := None)));
        return Ok([]);
      }
      if p.kind != Enrollment && success && remaining == 0 {
        var completed := Transit(id, Completed);
        if completed.Err? {
          return Err(completed.error);
        }
        PersistLease(S.Advance(lease.(state := S.Sealed, leaseId := None, grantedAt := None, expiresAt := None,
                                      pendingOperationId := None)));
        return Ok([]);
      }
      var given := Transit(id, ReconciliationRequired);
      if given.Err? {
        return Err(given.error);
      }
      PersistLease(S.Advance(lease.(state := S.Degraded, pendingOperationId := None)));
      return Ok([]);
    }

    method HandleOperationBegin(attempt: Uuid, kind: Kind, leaseId: Option<Uuid>, reason: string, env: S.Env)
      returns (r: Result<seq<S.Reply>>)
      modifies this
      ensures (State(), r) == S.HandleOperationBegin(old(State()), attempt, kind, leaseId, reason, env)
    {
      if attempt == NIL {
        return Err(Protocol);
      }
      var k := IndexOfAttempt(journal.operations, attempt);
      if k < |journal.operations| {
        var existing := journal.operations[k];
        if existing.kind != kind || existing.leaseId != leaseId || existing.reason != reason {
          return Err(Protocol);
        }
        if existing.phase == NotCommitted {
          return Ok([S.SnapshotRequired(existing.operationId, existing.sequence, existing.leaseId, Some(attempt))]);
        }
        return Ok([S.StatusOf(existing)]);
      }
      var valid;
      match kind {
        case Enrollment => valid := lease.state == S.Uninitialized;
        case Eviction => valid := lease.state == S.Leased && lease.leaseId == leaseId && leaseId.Some?;
        case Reconciliation => valid := lease.state != S.Uninitialized;
      }
      if !valid || pending.Some? {
        return Err(Protocol);
      }
      var issued := IssueV7(Request(env.freshOperationId, Some(attempt), kind, leaseId, reason, lease.vaultSequence));
      if issued.Err? {
        return Err(issued.error);
      }
      var o := issued.value;
      PersistLease(S.Advance(lease.(state := S.Evicting, pendingOperationId := Some(o.operationId),
                                    operationHighWater := o.sequence)));
      pending := Some(S.NewPending(kind, o.operationId, leaseId, o.sequence, Some(attempt)));
      return Ok([S.SnapshotRequired(o.operationId, o.sequence, leaseId, Some(attempt))]);
    }

    method HandleEvictBegin(id: Uuid, leaseId: Option<Uuid>, reason: string) returns (r: Result<seq<S.Reply>>)
      modifies this
      ensures (State(), r) == S.HandleEvictBegin(old(State()), id, leaseId, reason)
    {
      if pending.Some? {
        return Err(Protocol);
      }
      var reconciliation := reason == "startup_reconciliation" && lease.state != S.Uninitialized;
      if !reconciliation && !S.EvictionAllowed(lease, leaseId, reason) {
        return Err(Protocol);
      }
      if reconciliation {
        var ready := PrepareForV6Reconciliation();
        if ready.Err? {
          return Err(ready.error);
        }
      } else {
        var unresolved := HasUnresolved();
        if unresolved {
          return Err(Protocol);
        }
      }
      var kind := if reconciliation then Reconciliation else Eviction;
      var begun := BeginV6(Request(id, None, kind, leaseId, reason, lease.vaultSequence));
      if begun.Err? {
        return Err(begun.error);
      }
      PersistLease(S.Advance(lease.(state := S.Evicting, pendingOperationId := Some(id))));
      pending := Some(S.NewPending(kind, id, leaseId, 0, None));
      return Ok([S.SnapshotRequired(id, 0, leaseId, None)]);
    }

    method HandleOperationStatus(id: Uuid, sequence: nat, leaseId: Option<Uuid>) returns (r: Result<seq<S.Reply>>)
      modifies this
      ensures (State(), r) == S.HandleOperationStatus(old(State()), id, sequence, leaseId)
    {
      if !Has(journal, id) {
        return Err(Protocol);
      }
      var o := Get(journal, id);
      if o.sequence != sequence || o.leaseId != leaseId {
        return Err(Protocol);
      }
      if pending.None? && !o.phase.IsTerminal() {
        var confirmed := o.phase == Committed || o.phase == BrowserRemovalPending;
        var count := if o.snapshot.Some? then Some(o.snapshot.value.cookieCount) else None;
        pending := Some(S.Pending(o.kind, o.operationId, o.leaseId, confirmed, count, None, 0, [], 0, o.sequence,
                                  o.attemptId, map[]));
      }
      return Ok([S.StatusOf(o)]);
    }

    method HandleRemovePrepare(id: Uuid, sequence: nat, leaseId: Option<Uuid>, attempt: Uuid)
      returns (r: Result<seq<S.Reply>>)
      modifies this
      ensures (State(), r) == S.HandleRemovePrepare(old(State()), id, sequence, leaseId, attempt)
    {
      if pending.None? {
        return Err(Protocol);
      }
      var p := pending.value;
      if p.operationId != id || p.operationSequence != sequence || p.leaseId != leaseId ||
         p.attemptId != Some(attempt) ||
         !p.confirmed {
        return Err(Protocol);
      }
      pending := Some(p.(cookieCount := None, chunkCount := None, nextChunk := 0, cookies := [], bytes := 0,
                         chunkDigests := map[]));
      return Ok([]);
    }

    method HandleSessionInvalidate(leaseId: Option<Uuid>) returns (r: Result<seq<S.Reply>>)
      modifies this
      ensures (State(), r) == S.HandleSessionInvalidate(old(State()), leaseId)
    {
      if pending.Some? {
        return Err(Protocol);
      }
      if lease.state == S.Uninitialized {
        return Ok([S.SessionInvalidated]);
      }
      if leaseId.Some? && leaseId != lease.leaseId {
        return Err(Protocol);
      }
      ReplaceVault(None);
      PersistLease(S.Advance(lease.(state := S.Uninitialized, leaseId := None, grantedAt := None, expiresAt := None,
                                    pendingOperationId := None, vaultSequence := 0)));
      return Ok([S.SessionInvalidated]);
    }

    method HandleHandshake(profile: Uuid, version7: bool, fate: S.HandshakeFate) returns (r: Result<seq<S.Reply>>)
      modifies this
      ensures (State(), r) == S.HandleHandshake(old(State()), profile, version7, fate)
    {
      if connected || fate.Refused? || (fate.RefusedElsewhere? && !fate.afterThis) {
        return Err(Protocol);
      }
      if !version7 && lease.protocolFloor >= 7 {
        return Err(Protocol);
      }
      if profile == NIL || (profileId.Some? && profileId.value != profile) {
        return Err(Protocol);
      }
      profileId := Some(profile);
      if version7 {
        if lease.protocolFloor > 7 {
          return Err(Format);
        }
        if lease.protocolFloor < 7 || lease.operationHighWater < journal.highWater {
          var highWater := if journal.highWater > lease.operationHighWater then journal.highWater
            else lease.operationHighWater;
          PersistLease(S.Advance(lease.(protocolFloor := 7, operationHighWater := highWater)));
        }
      }
      if !fate.Accepted? {
        return Err(Protocol);
      }
      connected, v7 := true, version7;
      return Ok([]);
    }

    method HandleLeaseRequest(enroll: bool, env: S.Env) returns (r: Result<seq<S.Reply>>)
      modifies this
      ensures (State(), r) == S.HandleLeaseRequest(old(State()), enroll, env)
    {
      if pending.Some? || monitoringOnly {
        return Ok([S.Denied]);
      }
      var unresolved := HasUnresolved();
      if unresolved {
        return Ok([S.Denied]);
      }
      if enroll {
        r := Enroll(env);
      } else {
        r := Inject(env);
      }
    }

    method Enroll(env: S.Env) returns (r: Result<seq<S.Reply>>)
      requires pending.None? && !monitoringOnly && !JournalModel.HasUnresolved(journal)
      modifies this
      ensures (State(), r) == S.HandleLeaseRequest(old(State()), true, env)
    {
      if lease.state != S.Uninitialized || disk.vault.Some? {
        return Ok([S.Denied]);
      }
      var granted := lease.(leaseId := Some(env.freshLeaseId), grantedAt := Some(env.now),
                            expiresAt := Some(env.now + env.leaseMs));
      if v7 {
        PersistLease(S.Advance(granted));
        return Ok([S.Granted(env.freshLeaseId)]);
      }
      var begun := BeginV6(Request(env.freshOperationId, None, Enrollment, Some(env.freshLeaseId),
                                   "initial_enrollment", lease.vaultSequence));
      if begun.Err? {
        return Err(begun.error);
      }
      PersistLease(S.Advance(granted.(state := S.Evicting, pendingOperationId := Some(env.freshOperationId))));
      pending := Some(S.NewPending(Enrollment, env.freshOperationId, Some(env.freshLeaseId), 0, None));
      return Ok([S.Granted(env.freshLeaseId),
                 S.SnapshotRequired(env.freshOperationId, 0, Some(env.freshLeaseId), None)]);
    }

    method Inject(env: S.Env) returns (r: Result<seq<S.Reply>>)
      requires pending.None? && !monitoringOnly && !JournalModel.HasUnresolved(journal)
      modifies this
      ensures (State(), r) == S.HandleLeaseRequest(old(State()), false, env)
    {
      if lease.state != S.Sealed || disk.vault.None? {
        return Ok([S.Denied]);
      }
      if !env.authorized {
        return Err(Capability);
      }
      if disk.vault.value.Foreign? {
        return Err(Format);
      }
      PersistLease(S.Advance(lease.(state := S.Leased, leaseId := Some(env.freshLeaseId), grantedAt := Some(env.now),
                                    expiresAt := Some(env.now + env.leaseMs), pendingOperationId := None,
                                    vaultSequence := disk.vault.value.vaultSequence)));
      return Ok([S.Granted(env.freshLeaseId)]);
    }

    method HandleInjectResult(leaseId: Uuid, restored: bool) returns (r: Result<seq<S.Reply>>)
      modifies this
      ensures (State(), r) == S.HandleInjectResult(old(State()), leaseId, restored)
    {
      if lease.state != S.Leased || lease.leaseId != Some(leaseId) {
        return Err(Protocol);
      }
      if !restored {
        PersistLease(S.Advance(lease.(state := S.Degraded)));
      }
      return Ok([]);
    }

    method HandleSnapshotChunkV7(c: S.Chunk, env: S.Env) returns (r: Result<seq<S.Reply>>)
      modifies this
      ensures (State(), r) == S.HandleSnapshotChunkV7(old(State()), c, env)
    {
      if c.operationSequence.None? || c.attemptId.None? || c.purpose.None? || pending.None? {
        return Err(Protocol);
      }
      var p := pending.value;
      if p.operationId != c.operationId || p.operationSequence != c.operationSequence.value || p.leaseId != c.leaseId ||
         p.attemptId != c.attemptId {
        return Err(Protocol);
      }
      if c.chunkIndex in p.chunkDigests {
        if p.chunkDigests[c.chunkIndex] == c.cookies {
          return Ok([]);
        }
        return Err(Protocol);
      }
      pending := Some(p.(chunkDigests := p.chunkDigests[c.chunkIndex := c.cookies]));
      match c.purpose.value {
        case RemovalPrecheck => r := HandleRemovalChunk(c);
        case UnknownPurpose => r := Err(Protocol);
        case CommitPurpose =>
          r := HandleSnapshotChunk(c, env);
          if r.Ok? {
            var replies := r.value;
            r := Ok(S.BindReplies(replies, c.operationSequence.value, c.attemptId.value));
          }
      }
    }

    method HandleEvictResultV7(id: Uuid, leaseId: Option<Uuid>, success: bool, remaining: nat, sequence: Option<nat>,
                               attempt: Option<Uuid>)
      returns (r: Result<seq<S.Reply>>)
      modifies this
      ensures (State(), r) == S.HandleEvictResultV7(old(State()), id, leaseId, success, remaining, sequence, attempt)
    {
      if sequence.None? || attempt.None? || pending.None? {
        return Err(Protocol);
      }
      var p := pending.value;
      if p.operationSequence != sequence.value || p.attemptId != attempt {
        return Err(Protocol);
      }
      var reported := success && (if p.kind == Enrollment then remaining > 0 else remaining == 0);
      var ended := HandleEvictResult(id, leaseId, success, remaining);
      if ended.Err? {
        return ended;
      }
      return Ok([S.OperationCompleted(id, sequence.value, leaseId, reported)]);
    }

    /** One message: whatever it is, a host that satisfies the invariant satisfies it again, every durable
        state on the way does, and the journal only evolves; a lease excludes an unresolved operation
        again; and the vault of a committed operation stays unless the message is a careless
        invalidation. */
    method Handle(m: S.Message, env: S.Env) returns (r: Result<seq<S.Reply>>)
      modifies this
      ensures (State(), r) == S.Handle(old(State()).(log := []), m, env)
      ensures Facts(old(State()), m, State())
    {
      ghost var before := State();
      trace := [];
      HandledFacts(State(), m, env);
      FactsForget(before, m, S.Handle(State(), m, env).0);
      r := Dispatch(m, env);
    }

    /** Dispatches one message to its handler. */
    method Dispatch(m: S.Message, env: S.Env) returns (r: Result<seq<S.Reply>>)
      modifies this
      ensures (State(), r) == S.Handle(old(State()), m, env)
    {
      if m.Handshake? {
        r := HandleHandshake(m.profileId, m.v7, m.fate);
        return;
      }
      if !connected {
        return Err(Protocol);
      }
      match m {
        case LeaseRequest(enroll) => r := HandleLeaseRequest(enroll, env);
        case InjectResult(leaseId, restored) => r := HandleInjectResult(leaseId, restored);
        case EvictBegin(id, leaseId, reason) => r := HandleEvictBegin(id, leaseId, reason);
        case SnapshotChunk(c) =>
          if v7 { r := HandleSnapshotChunkV7(c, env); } else { r := HandleSnapshotChunk(c, env); }
        case EvictResult(id, leaseId, success, remaining, sequence, attempt) =>
          if v7 {
            r := HandleEvictResultV7(id, leaseId, success, remaining, sequence, attempt);
          } else {
            r := HandleEvictResult(id, leaseId, success, remaining);
          }
        case OperationBegin(attempt, kind, leaseId, reason) =>
          if !v7 { return Err(Protocol); }
          r := HandleOperationBegin(attempt, kind, leaseId, reason, env);
        case OperationStatusQuery(id, sequence, leaseId) =>
          if !v7 { return Err(Protocol); }
          r := HandleOperationStatus(id, sequence, leaseId);
        case RemovePrepare(id, sequence, leaseId, attempt) =>
          if !v7 { return Err(Protocol); }
          r := HandleRemovePrepare(id, sequence, leaseId, attempt);
        case SessionInvalidate(leaseId) => r := HandleSessionInvalidate(leaseId);
      }
    }
  }

  /** The theorems about one message, for a host between two messages. */
  predicate Facts(st: S.St, m: S.Message, n: S.St) {
    && (I.HostInv(st) ==> I.HostInv(n) && LogGood(n, st.journal) && Evolves(st.journal, n.journal))
    && (I.HostInv(st) && EngineLeases.Exclusive(st) ==> EngineLeases.Exclusive(n))
    && (I.HostInv(st) && RemovalHost.VaultKept(st) ==> (RemovalHost.VaultKept(n) <==> !RemovalHost.Careless(st, m)))
  }

  lemma SafeIsGood(st: S.St, n: S.St)
    requires I.HostInv(st) && I.Safe(st.disk, n)
    ensures I.HostInv(n) && LogGood(n, st.journal) && Evolves(st.journal, n.journal)
  {
  }

  lemma HandledFacts(st: S.St, m: S.Message, env: S.Env)
    requires st.log == []
    ensures Facts(st, m, S.Handle(st, m, env).0)
  {
    if I.HostInv(st) {
      EngineSafety.HandleSafe(st, m, env);
      SafeIsGood(st, S.Handle(st, m, env).0);
      if EngineLeases.Exclusive(st) { EngineLeases.HandleExclusive(st, m, env); }
      if RemovalHost.VaultKept(st) { RemovalHost.HandleKept(st, m, env); }
    }
  }

  /** What the message is does not depend on the log, so neither do these facts. */
  lemma FactsForget(st: S.St, m: S.Message, n: S.St)
    requires Facts(st.(log := []), m, n)
    ensures Facts(st, m, n)
  {
  }

  function Deliveries(inbox: seq<(S.Message, S.Env)>): seq<R.Event> {
    seq(|inbox|, i requires 0 <= i < |inbox| => R.Deliver(inbox[i].0, inbox[i].1))
  }

  /** The host is at rest, in the state that this run reaches. */
  ghost predicate At(host: GroupRuntime, groupId: Uuid, events: seq<R.Event>)
    reads host
  {
    && host.groupId == groupId && R.Run(groupId, events) == R.Up(host.State().(log := []))
    && I.HostInv(host.State()) && EngineLeases.Exclusive(host.State())
  }

  predicate AllGood(ds: seq<S.Disk>, groupId: Uuid) { forall i :: 0 <= i < |ds| ==> I.DiskInv(ds[i], groupId) }

  lemma AllGoodAppend(a: seq<S.Disk>, b: seq<S.Disk>, groupId: Uuid)
    requires AllGood(a, groupId) && AllGood(b, groupId)
    ensures AllGood(a + b, groupId)
  {
  }

  method OpenConnection(groupId: Uuid, monitoringOnly: bool, disk: S.Disk, ghost past: seq<R.Event>)
    returns (host: GroupRuntime)
    requires R.Run(groupId, past) == R.Down(disk)
    ensures fresh(host) && At(host, groupId, past + [R.Startup(monitoringOnly)])
    ensures host.TraceGood(disk.journal) && AllGood(host.trace, groupId)
  {
    R.RunSafe(groupId, past);
    host := new GroupRuntime(groupId, monitoringOnly, disk);
    var ready := host.Startup();
    Opened(groupId, monitoringOnly, past);
  }

  method Answer(host: GroupRuntime, m: S.Message, env: S.Env, ghost events: seq<R.Event>)
    returns (r: Result<seq<S.Reply>>)
    requires At(host, host.groupId, events)
    modifies host
    ensures At(host, host.groupId, events + [R.Deliver(m, env)])
    ensures host.TraceGood(old(host.journal)) && AllGood(host.trace, host.groupId)
  {
    RunNext(host.groupId, events, R.Deliver(m, env));
    r := host.Handle(m, env);
    assert Facts(old(host.State()), m, host.State());
  }

  /** One connection of the native host: open the group, then answer message after message. Started on the
      disk that any past run left, it is the continuation of that run, and every file it ever writes
      satisfies the disk invariant. */
  method RunConnection(groupId: Uuid, monitoringOnly: bool, disk: S.Disk, inbox: seq<(S.Message, S.Env)>,
                       ghost past: seq<R.Event>)
    returns (host: GroupRuntime, answers: seq<Result<seq<S.Reply>>>, ghost history: seq<S.Disk>)
    requires R.Run(groupId, past) == R.Down(disk)
    ensures fresh(host) && |answers| == |inbox|
    ensures At(host, groupId, past + [R.Startup(monitoringOnly)] + Deliveries(inbox))
    ensures AllGood(history, groupId)
  {
    host := OpenConnection(groupId, monitoringOnly, disk, past);
    history := host.trace;
    answers := [];
    ghost var events := past + [R.Startup(monitoringOnly)];
    assert events + Deliveries([]) == events;
    for i := 0 to |inbox|
      invariant fresh(host) && |answers| == i
      invariant At(host, groupId, events + Deliveries(inbox[..i]))
      invariant AllGood(history, groupId)
    {
      DeliveriesNext(events, inbox, i);
      var answer := Answer(host, inbox[i].0, inbox[i].1, events + Deliveries(inbox[..i]));
      answers := answers + [answer];
      AllGoodAppend(history, host.trace, groupId);
      history := history + host.trace;
    }
    assert inbox[..|inbox|] == inbox;
  }

  lemma Opened(groupId: Uuid, monitoringOnly: bool, past: seq<R.Event>)
    requires R.Run(groupId, past).Down? && I.DiskInv(R.Run(groupId, past).disk, groupId)
    ensures var st := S.Open(groupId, monitoringOnly, R.Run(groupId, past).disk).0;
            R.Run(groupId, past + [R.Startup(monitoringOnly)]) == R.Up(st.(log := []))
  {
    RunNext(groupId, past, R.Startup(monitoringOnly));
    EngineSafety.OpenSafe(groupId, monitoringOnly, R.Run(groupId, past).disk);
  }

  lemma DeliveriesNext(events: seq<R.Event>, inbox: seq<(S.Message, S.Env)>, i: nat)
    requires i < |inbox|
    ensures events + Deliveries(inbox[..i + 1]) ==
              (events + Deliveries(inbox[..i])) + [R.Deliver(inbox[i].0, inbox[i].1)]
  {
  }

  lemma RunNext(groupId: Uuid, events: seq<R.Event>, e: R.Event)
    ensures R.Run(groupId, events + [e]) == R.Step(groupId, R.Run(groupId, events), e)
  {
    assert (events + [e])[..|events|] == events;
  }
}
