/** Every handler and the startup path keep the engine's invariant at every write. */
module EngineSafety {
  import opened Base
  import opened JournalModel
  import opened EngineSpec
  import opened EngineInvariant

  // ---------------------------------------------------------------------------------------------
  // Opening
  // ---------------------------------------------------------------------------------------------

  /** What holds right after startup: an unresolved operation is committed, its target is the vault
      on disk, and the lease is degraded and names that operation and its vault sequence. */
  predicate AfterOpen(st: St) {
    && st.pending.None?
    && (Active(st.journal) ==>
          var u := Last(st.journal);
          && u.phase.IsCommitted()
          && u.snapshot.Some?
          && VaultDigest(st.disk.vault) == Some(u.snapshot.value.targetDigest)
          && st.lease.state.Degraded?
          && st.lease.pendingOperationId == Some(u.operationId)
          && st.lease.vaultSequence == u.snapshot.value.targetVaultSequence)
  }

  lemma LoadLeaseGood(groupId: Uuid, monitoringOnly: bool, d: Disk)
    requires DiskInv(d, groupId)
    ensures var (st, r) := LoadLease(Boot(groupId, monitoringOnly, d));
            && r.Ok?
            && Good(d, st)
            && st.groupId == groupId && st.pending.None? && !st.connected
            && st.journal == d.journal && st.disk.vault == d.vault && st.disk.lease == Some(st.lease)
            && (d.vault.None? ==> st.lease.state.Uninitialized?)
            && (d.vault.Some? ==> d.lease == Some(st.lease))
  {
    EvolvesReflexive(d.journal);
    var b := Boot(groupId, monitoringOnly, d);
    if d.lease.None? || (!d.lease.value.state.Uninitialized? && d.vault.None?) {
      WriteGood(d, b, d.(lease := Some(InitialLease(groupId, d.vault.Some?))));
    }
  }

  /** One phase write of recovery on the unresolved operation. */
  lemma RecoveryWrite(d0: Disk, st: St, u: Operation, p: Phase)
    requires Good(d0, st) && Active(st.journal) && Active(d0.journal)
    requires |d0.journal.operations| == |st.journal.operations|
    requires u == Last(d0.journal) && Last(st.journal) == u.(phase := Last(st.journal).phase)
    requires OperationEvolves(u, u.(phase := p))
    requires p.IsCommitted() || p.Completed? || p.DurabilityUnknown? ==> u.snapshot.Some?
    requires !p.IsTerminal() ==> ActiveConsistent(u.(phase := p), st.disk.vault, st.disk.lease, st.groupId)
    ensures Good(d0, PersistJournal(st, WithLast(st.journal, u.(phase := p))))
  {
    var o := u.(phase := p);
    assert o.AsRequest() == u.AsRequest() == Last(st.journal).AsRequest();
    WithLastWellFormed(st.journal, st.groupId, o);
    WithLastEvolves(d0.journal, st.journal, o);
    WriteGood(d0, st, st.disk.(journal := WithLast(st.journal, o)));
  }

  /** The phases recovery writes agree with the files and with what the operation may become. */
  lemma RecoveryPhases(u: Operation, vault: Option<VaultFile>, lease: Option<Lease>, groupId: Uuid)
    requires !u.phase.IsTerminal() && OperationValid(u, groupId) && ActiveConsistent(u, vault, lease, groupId)
    ensures var p := RecoveredPhase(u, vault);
            && OperationEvolves(u, u.(phase := p))
            && (p.IsCommitted() || p.Completed? || p.DurabilityUnknown? ==> u.snapshot.Some?)
            && (!p.IsTerminal() ==> ActiveConsistent(u.(phase := p), vault, lease, groupId))
            && (u.snapshot.Some? && u.phase.DurabilityUnknown? && p.Aborted? ==>
                  OperationEvolves(u, u.(phase := NotCommitted))
                  && ActiveConsistent(u.(phase := NotCommitted), vault, lease, groupId))
  {
    assert u.(phase := NotCommitted).AsRequest() == u.AsRequest();
  }

  lemma RecoveredGood(d0: Disk, st: St)
    requires Good(d0, st) && st.journal == d0.journal && Active(st.journal)
    ensures Good(d0, Recovered(st))
  {
    var u, p := Last(st.journal), RecoveredPhase(Last(st.journal), st.disk.vault);
    assert OperationValid(u, st.groupId);
    RecoveryPhases(u, st.disk.vault, st.disk.lease, st.groupId);
    if p != u.phase {
      if u.snapshot.Some? && u.phase.DurabilityUnknown? && p.Aborted? {
        RecoveryWrite(d0, st, u, NotCommitted);
        SecondRecoveryWrite(d0, st, u, p);
      } else {
        RecoveryWrite(d0, st, u, p);
      }
    }
  }

  lemma SecondRecoveryWrite(d0: Disk, st: St, u: Operation, p: Phase)
    requires st.journal == d0.journal && Active(st.journal) && u == Last(st.journal) && p.Aborted?
    requires OperationEvolves(u, u.(phase := p))
    requires var st1 := PersistJournal(st, WithLast(st.journal, u.(phase := NotCommitted))); Good(d0, st1)
    ensures var st1 := PersistJournal(st, WithLast(st.journal, u.(phase := NotCommitted)));
            Good(d0, PersistJournal(st1, WithLast(st.journal, u.(phase := p))))
  {
    var st1 := PersistJournal(st, WithLast(st.journal, u.(phase := NotCommitted)));
    RecoveryWrite(d0, st1, u, p);
    assert WithLast(st1.journal, u.(phase := p)) == WithLast(st.journal, u.(phase := p));
  }

  /** The repaired lease of a group whose unresolved operation is committed. */
  function DegradedFor(l: Lease, u: Operation): Lease
    requires u.snapshot.Some?
  {
    Advance(l.(state := Degraded, pendingOperationId := Some(u.operationId),
               vaultSequence := u.snapshot.value.targetVaultSequence))
  }

  lemma RepairActive(st: St, r: Recovery)
    requires WellFormed(st.journal, st.groupId) && Active(st.journal) && Last(st.journal).snapshot.Some?
    requires Last(st.journal).phase.IsCommitted()
    requires r == RecoveryOf(Last(st.journal), Last(st.journal).phase)
    requires st.lease.pendingOperationId == Some(Last(st.journal).operationId)
    ensures RepairLease(st, r, true) == PersistLease(st, DegradedFor(st.lease, Last(st.journal)))
  {
    LastIndex(st.journal, st.groupId, Last(st.journal).operationId);
  }

  lemma RepairActiveGood(d0: Disk, st: St)
    requires Good(d0, st) && st.disk.lease == Some(st.lease) && !st.connected && st.pending.None?
    requires Active(st.journal) && Last(st.journal).phase.IsCommitted() && Last(st.journal).snapshot.Some?
    requires VaultDigest(st.disk.vault) == Some(Last(st.journal).snapshot.value.targetDigest)
    ensures var n := PersistLease(st, DegradedFor(st.lease, Last(st.journal)));
            Safe(d0, n) && AfterOpen(n)
  {
    LeaseGood(d0, st, DegradedFor(st.lease, Last(st.journal)));
  }

  lemma RepairIdleShape(st: St, r: Recovery, vaultExists: bool)
    ensures var n := RepairLease(st, r, vaultExists);
            n == st ||
            (n == PersistLease(st, n.lease) && n.lease.groupId == st.lease.groupId && !n.lease.state.Uninitialized?
                        && (st.lease.pendingOperationId.Some? || !st.lease.state.Uninitialized? || vaultExists))
  {
  }

  lemma RepairGood(d0: Disk, st: St, r: Recovery)
    requires Good(d0, st) && st.disk.lease == Some(st.lease) && !st.connected && st.pending.None?
    requires st.disk.vault.None? ==> st.lease.state.Uninitialized?
    requires Active(st.journal) ==>
               var u := Last(st.journal);
               && u.phase.IsCommitted() && u.snapshot.Some?
               && VaultDigest(st.disk.vault) == Some(u.snapshot.value.targetDigest)
               && r == RecoveryOf(u, u.phase)
    ensures var n := RepairLease(st, r, st.disk.vault.Some?);
            Safe(d0, n) && AfterOpen(n)
  {
    if Active(st.journal) {
      assert LeaseNames(Some(st.lease), Last(st.journal).operationId);
      RepairActive(st, r);
      RepairActiveGood(d0, st);
    } else {
      RepairIdleShape(st, r, st.disk.vault.Some?);
      var n := RepairLease(st, r, st.disk.vault.Some?);
      if n != st { EndedSafe(d0, st, n.lease); }
    }
  }

  /** The state between recovery and the lease repair. */
  function Resumed(st: St): St { if Active(st.journal) then Recovered(st) else st }

  function ResumedRecovery(st: St): Recovery
    requires WellFormed(st.journal, st.groupId)
  {
    if !Active(st.journal) then NoRecovery
    else
      var u := Last(st.journal);
      assert OperationValid(u, st.groupId);
      RecoveryOf(u, RecoveredPhase(u, st.disk.vault))
  }

  lemma OpenShape(groupId: Uuid, monitoringOnly: bool, d: Disk)
    requires DiskInv(d, groupId)
    ensures var st1 := LoadLease(Boot(groupId, monitoringOnly, d)).0;
            && st1.journal == d.journal && st1.groupId == groupId
            && Open(groupId, monitoringOnly, d) ==
                 (RepairLease(Resumed(st1), ResumedRecovery(st1), d.vault.Some?), Ok(()))
  {
    LoadLeaseGood(groupId, monitoringOnly, d);
    var st1 := LoadLease(Boot(groupId, monitoringOnly, d)).0;
    StartupRecoverSettles(st1);
  }

  lemma RecoveredFrame(st: St)
    requires st.journal.operations != []
    ensures var n := Recovered(st);
            n == st.(disk := n.disk, log := n.log, journal := n.journal)
            && n.disk == st.disk.(journal := n.disk.journal)
  {
  }

  /** What recovery leaves unresolved is committed, and its target is the vault. */
  lemma RecoveredPhaseMeaning(u: Operation, groupId: Uuid, vault: Option<VaultFile>)
    requires OperationValid(u, groupId)
    ensures var p := RecoveredPhase(u, vault);
            !p.IsTerminal() ==>
              p.IsCommitted() && u.snapshot.Some? && VaultDigest(vault) == Some(u.snapshot.value.targetDigest)
  {
  }

  lemma ResumedGood(d: Disk, st: St)
    requires Good(d, st) && st.journal == d.journal
    ensures Good(d, Resumed(st))
    ensures var n := Resumed(st);
            && n.groupId == st.groupId && n.disk.vault == st.disk.vault && n.disk.lease == st.disk.lease
            && n.lease == st.lease
            && n.pending == st.pending && n.connected == st.connected
            && (Active(n.journal) ==>
                  var u := Last(n.journal);
                  && u.phase.IsCommitted() && u.snapshot.Some?
                  && VaultDigest(n.disk.vault) == Some(u.snapshot.value.targetDigest)
                  && ResumedRecovery(st) == RecoveryOf(u, u.phase))
  {
    if Active(st.journal) {
      RecoveredGood(d, st);
      RecoveredFrame(st);
      RecoveredWellFormed(st);
      var u := Last(st.journal);
      assert OperationValid(u, st.groupId);
      RecoveredPhaseMeaning(u, st.groupId, st.disk.vault);
    }
  }

  /** From any durable state a crash can leave, startup succeeds, every state it writes is again one
      a crash may leave, and it ends with the unresolved operation and the lease in agreement. */
  lemma OpenSafe(groupId: Uuid, monitoringOnly: bool, d: Disk)
    requires DiskInv(d, groupId)
    ensures var (st, r) := Open(groupId, monitoringOnly, d);
            r.Ok? && Safe(d, st) && AfterOpen(st) && st.groupId == groupId && st.disk.vault == d.vault
  {
    var st1 := LoadLease(Boot(groupId, monitoringOnly, d)).0;
    OpenShape(groupId, monitoringOnly, d);
    LoadLeaseGood(groupId, monitoringOnly, d);
    ResumedGood(d, st1);
    RepairGood(d, Resumed(st1), ResumedRecovery(st1));
  }

  // ---------------------------------------------------------------------------------------------
  // Single writes inside a handler
  // ---------------------------------------------------------------------------------------------

  lemma Start(st: St)
    requires HostInv(st) && st.log == []
    ensures Good(st.disk, st)
  {
    EvolvesReflexive(st.journal);
  }

  lemma LeaseGood(d0: Disk, st: St, l: Lease)
    requires Good(d0, st) && DiskInv(st.disk.(lease := Some(l)), st.groupId)
    ensures Good(d0, PersistLease(st, l))
  {
    WriteGood(d0, st, st.disk.(lease := Some(l)));
  }

  lemma LastEditGood(d0: Disk, st: St, o: Operation)
    requires Good(d0, st) && Active(st.journal) && SameIdentity(Last(st.journal), o)
    requires o.phase.IsCommitted() || o.phase.Completed? || o.phase.DurabilityUnknown? ==> o.snapshot.Some?
    requires |d0.journal.operations| == |st.journal.operations| ==> OperationEvolves(Last(d0.journal), o)
    requires !o.phase.IsTerminal() ==> ActiveConsistent(o, st.disk.vault, st.disk.lease, st.groupId)
    ensures var n := PersistJournal(st, WithLast(st.journal, o));
            Good(d0, n) && Last(n.journal) == o && (Active(n.journal) <==> !o.phase.IsTerminal())
  {
    WithLastWellFormed(st.journal, st.groupId, o);
    WithLastEvolves(d0.journal, st.journal, o);
    WriteGood(d0, st, st.disk.(journal := WithLast(st.journal, o)));
  }

  lemma BeginWellFormed(j: Journal, groupId: Uuid, q: Request)
    requires WellFormed(j, groupId) && !Active(j)
    requires q.attemptId.Some? ==> IndexOfAttempt(j.operations, q.attemptId.value) == |j.operations|
    requires JournalModel.Begin(j, q).Ok? && JournalModel.Begin(j, q).value.Created?
    ensures WellFormed(JournalModel.Begin(j, q).value.journal, groupId)
  {
    BeginKeepsValid(j, groupId, q);
    var ops, all := j.operations, JournalModel.Begin(j, q).value.journal.operations;
    forall i | 0 <= i < |all| - 1
      ensures all[i] == ops[i] && ops[i].phase.IsTerminal()
    {
    }
  }

  lemma AppendEvolves(j0: Journal, j: Journal, n: Journal, o: Operation)
    requires Evolves(j0, j) && n.operations == j.operations + [o] && n.groupId == j.groupId
    ensures Evolves(j0, n)
  {
    forall i | 0 <= i < |j0.operations|
      ensures OperationEvolves(j0.operations[i], n.operations[i])
    {
      assert OperationEvolves(j0.operations[i], j.operations[i]);
    }
  }

  /** A new operation is the only unresolved one and has no snapshot. */
  lemma BeginGood(d0: Disk, st: St, q: Request)
    requires Good(d0, st) && !Active(st.journal)
    requires q.attemptId.Some? ==> IndexOfAttempt(st.journal.operations, q.attemptId.value) == |st.journal.operations|
    requires JournalModel.Begin(st.journal, q).Ok? && JournalModel.Begin(st.journal, q).value.Created?
    ensures var edit := JournalModel.Begin(st.journal, q).value;
            var n := PersistJournal(st, edit.journal);
            && Good(d0, n) && Active(n.journal) && Last(n.journal) == edit.operation
            && edit.operation.operationId == q.operationId && edit.operation.kind == q.kind
            && edit.operation.snapshot.None? && edit.operation.phase.NotCommitted?
  {
    var edit := JournalModel.Begin(st.journal, q).value;
    BeginWellFormed(st.journal, st.groupId, q);
    AppendEvolves(d0.journal, st.journal, edit.journal, edit.operation);
    WriteGood(d0, st, st.disk.(journal := edit.journal));
  }

  lemma PendingEdit(st: St, p: Pending)
    requires HostInv(st) && st.pending.Some?
    requires p.kind == st.pending.value.kind && p.operationId == st.pending.value.operationId
    requires p.confirmed == st.pending.value.confirmed
    requires p.attemptId == st.pending.value.attemptId
    ensures HostInv(st.(pending := Some(p)))
  {
  }

  // ---------------------------------------------------------------------------------------------
  // Handlers
  // ---------------------------------------------------------------------------------------------

  predicate SameStanding(l: Lease, n: Lease) {
    n.groupId == l.groupId && n.state == l.state && n.pendingOperationId == l.pendingOperationId
    && n.vaultSequence == l.vaultSequence
  }

  /** A lease that keeps what the other files depend on may replace the one on disk. */
  lemma NeutralLeaseDisk(d: Disk, groupId: Uuid, l: Lease)
    requires DiskInv(d, groupId) && d.lease.Some? && SameStanding(d.lease.value, l)
    ensures DiskInv(d.(lease := Some(l)), groupId)
  {
    if Active(d.journal) {
      var u := Last(d.journal);
      assert ActiveConsistent(u, d.vault, d.lease, groupId);
      assert LeaseNames(d.lease, u.operationId) ==> LeaseNames(Some(l), u.operationId);
      assert NothingEnrolled(d.vault, d.lease) ==> NothingEnrolled(d.vault, Some(l));
      assert ActiveConsistent(u, d.vault, Some(l), groupId);
    }
  }

  lemma NeutralLeaseSafe(st: St, l: Lease)
    requires HostInv(st) && st.log == [] && SameStanding(st.lease, l)
    ensures Safe(st.disk, PersistLease(st, l))
  {
    Start(st);
    NeutralLeaseDisk(st.disk, st.groupId, l);
    LeaseGood(st.disk, st, l);
    NeutralLeaseHost(st, l);
  }

  lemma NeutralLeaseHost(st: St, l: Lease)
    requires HostInv(st) && SameStanding(st.lease, l) && DiskInv(st.disk.(lease := Some(l)), st.groupId)
    ensures HostInv(PersistLease(st, l))
  {
  }

  lemma HandshakeShape(st: St, profileId: Uuid, v7: bool, fate: HandshakeFate)
    ensures var n := HandleHandshake(st, profileId, v7, fate).0;
            var bound := st.(profileId := n.profileId, connected := n.connected, v7 := n.v7);
            && (n == bound || (n == PersistLease(bound, n.lease) && SameStanding(st.lease, n.lease)))
            && (n.profileId.Some? || (n.profileId == st.profileId && n.connected == st.connected))
  {
  }

  lemma ConnectionInv(st: St, profileId: Option<Uuid>, connected: bool, v7: bool)
    requires HostInv(st) && (connected ==> profileId.Some?)
    ensures HostInv(st.(profileId := profileId, connected := connected, v7 := v7))
  {
  }

  lemma HandshakeSafe(st: St, profileId: Uuid, v7: bool, fate: HandshakeFate)
    requires HostInv(st) && st.log == []
    ensures Safe(st.disk, HandleHandshake(st, profileId, v7, fate).0)
  {
    HandshakeShape(st, profileId, v7, fate);
    var n := HandleHandshake(st, profileId, v7, fate).0;
    var bound := st.(profileId := n.profileId, connected := n.connected, v7 := n.v7);
    ConnectionInv(st, n.profileId, n.connected, n.v7);
    if n == bound {
      Start(bound);
    } else {
      NeutralLeaseSafe(bound, n.lease);
    }
  }

  /** The lease write that follows a begin, whether the begin created an operation or found one. */
  lemma BeganSafe(d0: Disk, st: St, l: Lease, p: Pending)
    requires Good(d0, st) && l.groupId == st.groupId && l.state.Evicting? && l.pendingOperationId == Some(p.operationId)
    requires !p.confirmed && (st.connected ==> st.profileId.Some?)
    requires p.kind.Enrollment? ==> st.disk.vault.None?
    requires Active(st.journal) ==>
               Last(st.journal).snapshot.None? && Last(st.journal).operationId == p.operationId
               && Last(st.journal).kind == p.kind
    requires p.attemptId.Some? ==> Active(st.journal)
    ensures Safe(d0, PersistLease(st, l).(pending := Some(p)))
  {
    LeaseGood(d0, st, l);
  }

  lemma LeaseRequestSafe(st: St, enroll: bool, env: Env)
    requires HostInv(st) && st.log == []
    ensures Safe(st.disk, HandleLeaseRequest(st, enroll, env).0)
  {
    Start(st);
    LastIndex(st.journal, st.groupId, NIL);
    var n := HandleLeaseRequest(st, enroll, env).0;
    if n != st {
      assert !Active(st.journal);
      if enroll && !st.v7 {
        var q := Request(env.freshOperationId, None, Enrollment, Some(env.freshLeaseId), "initial_enrollment",
                         st.lease.vaultSequence);
        var edit := JournalModel.Begin(st.journal, q);
        var st1 := BeginV6(st, q).0;
        if edit.Ok? && edit.value.Created? {
          BeginGood(st.disk, st, q);
        }
        if BeginV6(st, q).1.Ok? {
          BeganSafe(st.disk, st1, n.lease, n.pending.value);
        }
      } else {
        LeaseGood(st.disk, st, n.lease);
      }
    }
  }

  lemma InjectResultSafe(st: St, leaseId: Uuid, restored: bool)
    requires HostInv(st) && st.log == []
    ensures Safe(st.disk, HandleInjectResult(st, leaseId, restored).0)
  {
    Start(st);
    var n := HandleInjectResult(st, leaseId, restored).0;
    if n != st {
      LeaseGood(st.disk, st, n.lease);
    }
  }

  lemma SessionInvalidateSafe(st: St, leaseId: Option<Uuid>)
    requires HostInv(st) && st.log == []
    ensures Safe(st.disk, HandleSessionInvalidate(st, leaseId).0)
  {
    Start(st);
    var n := HandleSessionInvalidate(st, leaseId).0;
    if n != st {
      WriteGood(st.disk, st, st.disk.(vault := None));
      LeaseGood(st.disk, WriteVault(st, None), n.lease);
    }
  }

  lemma PrepareShape(st: St)
    requires WellFormed(st.journal, st.groupId) && (Active(st.journal) ==> Last(st.journal).phase.IsCommitted())
    ensures PrepareForV6Reconciliation(st) ==
              (if Active(st.journal)
               then PersistJournal(st, WithLast(st.journal, Last(st.journal).(phase := ReconciliationRequired)))
               else st,
               Ok(()))
  {
    ActiveIdsShape(st.journal, st.groupId);
    if Active(st.journal) {
      var u := Last(st.journal);
      CheckedShape(st);
      GiveUpLast(st);
      var ids := ActiveIds(st.journal.operations);
      assert ids[0] == u.operationId && ids[1..] == [];
      var (n, r) := ReconcileOne(st, u.operationId);
      assert ReconcileAll(n, []) == (n, r);
    }
  }

  /** Preparing a v6 reconciliation in a host at rest gives up the unresolved operation. */
  lemma PrepareGood(st: St)
    requires HostInv(st) && st.log == [] && st.pending.None?
    ensures var (n, r) := PrepareForV6Reconciliation(st);
            && r.Ok? && Good(st.disk, n) && !Active(n.journal)
            && n == st.(disk := n.disk, log := n.log, journal := n.journal) && n.disk == st.disk.(journal := n.journal)
  {
    Start(st);
    PrepareShape(st);
    if Active(st.journal) {
      var o := Last(st.journal).(phase := ReconciliationRequired);
      assert o.AsRequest() == Last(st.journal).AsRequest();
      LastEditGood(st.disk, st, o);
    }
  }

  /** The request of a v6 begin and the lease and pending operation that follow it. */
  function EvictionRequest(st: St, id: Uuid, leaseId: Option<Uuid>, reason: string, kind: Kind): Request {
    Request(id, None, kind, leaseId, reason, st.lease.vaultSequence)
  }

  lemma StartEvictionParts(st: St, id: Uuid, leaseId: Option<Uuid>, reason: string, kind: Kind)
    ensures var (st1, begun) := BeginV6(st, EvictionRequest(st, id, leaseId, reason, kind));
            StartEviction(st, id, leaseId, reason, kind).0 ==
              if begun.Err? then st1
              else
                var l := st1.lease.(state := Evicting, pendingOperationId := Some(id));
                PersistLease(st1, Advance(l)).(pending := Some(NewPending(kind, id, leaseId, 0, None)))
  {
  }

  lemma BeginV6Good(d0: Disk, st: St, q: Request)
    requires Good(d0, st) && !Active(st.journal) && q.attemptId.None?
    ensures var (n, r) := BeginV6(st, q);
            && Good(d0, n) && n == st.(disk := n.disk, log := n.log, journal := n.journal)
            && n.disk == st.disk.(journal := n.journal)
            && (r.Err? ==> n == st)
            && (Active(n.journal) ==>
                  Last(n.journal).snapshot.None? && Last(n.journal).operationId == q.operationId
                  && Last(n.journal).kind == q.kind)
  {
    var edit := JournalModel.Begin(st.journal, q);
    if edit.Ok? && edit.value.Created? { BeginGood(d0, st, q); }
  }

  lemma StartEvictionSafe(d0: Disk, st: St, id: Uuid, leaseId: Option<Uuid>, reason: string, kind: Kind)
    requires Good(d0, st) && !Active(st.journal) && !kind.Enrollment? && st.lease.groupId == st.groupId
    requires st.connected ==> st.profileId.Some?
    requires st.disk.lease == Some(st.lease) && st.pending.None?
    ensures Safe(d0, StartEviction(st, id, leaseId, reason, kind).0)
  {
    StartEvictionParts(st, id, leaseId, reason, kind);
    BeginV6Good(d0, st, EvictionRequest(st, id, leaseId, reason, kind));
    var (st1, begun) := BeginV6(st, EvictionRequest(st, id, leaseId, reason, kind));
    if begun.Ok? {
      BeganSafe(d0, st1, Advance(st1.lease.(state := Evicting, pendingOperationId := Some(id))),
                NewPending(kind, id, leaseId, 0, None));
    }
  }

  lemma ReconciliationBeginSafe(st: St, id: Uuid, leaseId: Option<Uuid>, reason: string)
    requires HostInv(st) && st.log == [] && st.pending.None?
    ensures PrepareForV6Reconciliation(st).1.Ok?
    ensures Safe(st.disk, StartEviction(PrepareForV6Reconciliation(st).0, id, leaseId, reason, Reconciliation).0)
  {
    PrepareGood(st);
    StartEvictionSafe(st.disk, PrepareForV6Reconciliation(st).0, id, leaseId, reason, Reconciliation);
  }

  lemma EvictionBeginSafe(st: St, id: Uuid, leaseId: Option<Uuid>, reason: string)
    requires HostInv(st) && st.log == [] && st.pending.None? && !HasUnresolved(st.journal)
    ensures Safe(st.disk, StartEviction(st, id, leaseId, reason, Eviction).0)
  {
    Start(st);
    LastIndex(st.journal, st.groupId, NIL);
    StartEvictionSafe(st.disk, st, id, leaseId, reason, Eviction);
  }

  lemma EvictBeginSafe(st: St, id: Uuid, leaseId: Option<Uuid>, reason: string)
    requires HostInv(st) && st.log == []
    ensures Safe(st.disk, HandleEvictBegin(st, id, leaseId, reason).0)
  {
    var n := HandleEvictBegin(st, id, leaseId, reason).0;
    if st.pending.None? && IsReconciliation(st.lease, reason) {
      ReconciliationBeginSafe(st, id, leaseId, reason);
    } else if st.pending.None? && EvictionAllowed(st.lease, leaseId, reason) && !HasUnresolved(st.journal) {
      EvictionBeginSafe(st, id, leaseId, reason);
    } else {
      Start(st);
      assert n == st;
    }
  }

  lemma OperationBeginSafe(st: St, attempt: Uuid, kind: Kind, leaseId: Option<Uuid>, reason: string, env: Env)
    requires HostInv(st) && st.log == []
    ensures Safe(st.disk, HandleOperationBegin(st, attempt, kind, leaseId, reason, env).0)
  {
    Start(st);
    LastIndex(st.journal, st.groupId, NIL);
    var n := HandleOperationBegin(st, attempt, kind, leaseId, reason, env).0;
    if n != st {
      var q := Request(env.freshOperationId, Some(attempt), kind, leaseId, reason, st.lease.vaultSequence);
      assert !Active(st.journal);
      BeginGood(st.disk, st, q);
      var st1 := IssueV7(st, q).0;
      BeganSafe(st.disk, st1, n.lease, n.pending.value);
    }
  }

  lemma OperationStatusSafe(st: St, id: Uuid, sequence: nat, leaseId: Option<Uuid>)
    requires HostInv(st) && st.log == []
    ensures Safe(st.disk, HandleOperationStatus(st, id, sequence, leaseId).0)
  {
    Start(st);
    LastIndex(st.journal, st.groupId, id);
  }

  lemma RemovePrepareSafe(st: St, id: Uuid, sequence: nat, leaseId: Option<Uuid>, attempt: Uuid)
    requires HostInv(st) && st.log == []
    ensures Safe(st.disk, HandleRemovePrepare(st, id, sequence, leaseId, attempt).0)
  {
    Start(st);
    var n := HandleRemovePrepare(st, id, sequence, leaseId, attempt).0;
    if n != st {
      PendingEdit(st, n.pending.value);
    }
  }

  /** A terminal phase write hits the unresolved operation or nothing. */
  lemma EndShape(st: St, id: Uuid, p: Phase)
    requires WellFormed(st.journal, st.groupId) && p.IsTerminal() && Transit(st, id, p).1.Ok?
    requires Active(st.journal) ==> Last(st.journal).operationId == id
    ensures var n := Transit(st, id, p).0;
            if Active(st.journal) then
              n == PersistJournal(st, WithLast(st.journal, Last(st.journal).(phase := p)))
              && Last(st.journal).phase.CanTransitionTo(p)
            else n == st
  {
    LastIndex(st.journal, st.groupId, id);
    TransitionShape(st.journal, st.groupId, id, p);
  }

  lemma EndedGood(d0: Disk, st: St, p: Phase)
    requires Good(d0, st) && st.journal == d0.journal && Active(st.journal) && p.IsTerminal()
    requires Last(st.journal).phase.CanTransitionTo(p)
    ensures var n := PersistJournal(st, WithLast(st.journal, Last(st.journal).(phase := p)));
            Good(d0, n) && !Active(n.journal)
  {
    var o := Last(st.journal).(phase := p);
    assert o.AsRequest() == Last(st.journal).AsRequest();
    assert OperationValid(Last(st.journal), st.groupId);
    LastEditGood(d0, st, o);
  }

  /** Ending the operation a host at rest is working on. */
  lemma EndGood(st: St, st0: St, id: Uuid, p: Phase)
    requires HostInv(st) && st.log == [] && st0 == st.(pending := st0.pending) && p.IsTerminal()
    requires st.pending.Some? && st.pending.value.operationId == id
    requires Transit(st0, id, p).1.Ok?
    ensures var n := Transit(st0, id, p).0;
            && Good(st.disk, n) && !Active(n.journal)
            && n == st0.(disk := n.disk, log := n.log, journal := n.journal) && n.disk == st.disk.(journal := n.journal)
  {
    Start(st);
    EndShape(st0, id, p);
    if Active(st.journal) {
      EndedGood(st.disk, st0, p);
    }
  }

  /** The lease write after an operation ended. */
  lemma EndedSafe(d0: Disk, st: St, l: Lease)
    requires Good(d0, st) && !Active(st.journal) && st.disk.lease.Some? && l.groupId == st.groupId
    requires (l.state.Uninitialized? ==> st.disk.vault.None? && l.pendingOperationId.None?) && st.pending.None?
    requires (st.connected ==> st.profileId.Some?)
    ensures Safe(d0, PersistLease(st, l))
  {
    LeaseGood(d0, st, l);
  }

  lemma DropConfirmed(st: St)
    requires HostInv(st) && st.pending.Some? && st.pending.value.confirmed
    ensures HostInv(st.(pending := None))
  {
  }

  lemma EndOperationSafe(st: St, id: Uuid, kind: Kind, outcome: Phase)
    requires HostInv(st) && st.log == [] && st.pending.Some? && st.pending.value.confirmed
    requires st.pending.value.operationId == id
    requires outcome.IsTerminal()
    ensures Safe(st.disk, EndOperation(st.(pending := None), id, kind, outcome).0)
  {
    var st0 := st.(pending := None);
    if Transit(st0, id, outcome).1.Ok? {
      EndOperationOk(st, id, kind, outcome);
    } else {
      Start(st);
      DropConfirmed(st);
    }
  }

  lemma EndOperationOk(st: St, id: Uuid, kind: Kind, outcome: Phase)
    requires HostInv(st) && st.log == [] && st.pending.Some? && st.pending.value.operationId == id
    requires outcome.IsTerminal()
    requires Transit(st.(pending := None), id, outcome).1.Ok?
    ensures Safe(st.disk, EndOperation(st.(pending := None), id, kind, outcome).0)
  {
    var st0 := st.(pending := None);
    EndGood(st, st0, id, outcome);
    var st1 := Transit(st0, id, outcome).0;
    var l := Advance(LeaseAfterResult(st1.lease, kind, outcome));
    EndOperationShape(st0, id, kind, outcome);
    ResultLease(st1.lease, kind, outcome);
    EndedSafe(st.disk, st1, l);
  }

  lemma EndOperationShape(st: St, id: Uuid, kind: Kind, outcome: Phase)
    requires Transit(st, id, outcome).1.Ok?
    ensures var st1 := Transit(st, id, outcome).0;
            EndOperation(st, id, kind, outcome).0 ==
              PersistLease(st1, Advance(LeaseAfterResult(st1.lease, kind, outcome)))
  {
  }

  lemma ResultLease(l: Lease, kind: Kind, outcome: Phase)
    ensures var n := Advance(LeaseAfterResult(l, kind, outcome));
            n.groupId == l.groupId && !n.state.Uninitialized?
  {
  }

  lemma EvictResultSafe(st: St, id: Uuid, leaseId: Option<Uuid>, success: bool, remaining: nat)
    requires HostInv(st) && st.log == []
    ensures Safe(st.disk, HandleEvictResult(st, id, leaseId, success, remaining).0)
  {
    if st.pending.Some? && st.pending.value.operationId == id && st.pending.value.leaseId == leaseId &&
       st.pending.value.confirmed {
      EndOperationSafe(st, id, st.pending.value.kind, EvictOutcome(st.pending.value, success, remaining));
    } else {
      Start(st);
    }
  }

  // ---------------------------------------------------------------------------------------------
  // Committing
  // ---------------------------------------------------------------------------------------------

  /** What preparing promises about the two digests. */
  lemma PreparedTrue(vault: Option<VaultFile>, cookies: seq<CookieRecord>, nonce: nat, fits: bool)
    requires vault.Some? ==> vault.value.Record?
    ensures var r := PrepareAfterSnapshot(vault, cookies, nonce, fits);
            r.Ok? ==>
              var p := r.value;
              && p.previousDigest == VaultDigest(vault)
              && p.targetDigest == Digest(p.bytes)
              && p.bytes.Record? && p.bytes.vaultSequence == p.vaultSequence
              && (p.commitRequired ==> p.bytes.cookies == cookies)
              && (!p.commitRequired ==> cookies == [] && p.previousDigest == Some(p.targetDigest))
  {
  }

  /** When a snapshot can be sealed and what the vault then is: an empty one leaves a vault as it is and
      cannot make one; records become the next version, or the first, within the size and sequence limits;
      a vault that is no record of ours is never written over. */
  lemma PreparedIff(vault: Option<VaultFile>, cookies: seq<CookieRecord>, nonce: nat, fits: bool)
    ensures var r := PrepareAfterSnapshot(vault, cookies, nonce, fits);
            var next := match vault
              case Some(Record(sequence, _, _)) => sequence + 1
              case _ => 1;
            && (r.Ok? <==>
                  if cookies == [] then vault.Some? && vault.value.Record?
                  else fits && (vault.Some? ==> vault.value.Record?) && next <= 0xFFFF_FFFF_FFFF_FFFF)
            && (r.Ok? && cookies == [] ==>
                  !r.value.commitRequired && Some(r.value.bytes) == vault
                  && r.value.vaultSequence == vault.value.vaultSequence)
            && (r.Ok? && cookies != [] ==>
                  r.value.commitRequired && r.value.bytes == Record(next, cookies, nonce)
                  && r.value.vaultSequence == next)
  {
  }

  /** The operation at each of the four journal writes of a commit. */
  function Bound(u: Operation, b: Binding): Operation { u.(snapshot := Some(b)) }

  predicate ReadyToCommit(st: St, p: Prepared, b: Binding) {
    && Active(st.journal)
    && var u := Last(st.journal);
    && u.snapshot.None?
    && LeaseNames(st.disk.lease, u.operationId)
    && p.previousDigest == VaultDigest(st.disk.vault) == b.previousDigest
    && p.targetDigest == Digest(p.bytes) == b.targetDigest
    && p.bytes.Record?
    && BindingTrue(Bound(u, b), st.groupId)
    && (!p.commitRequired ==> p.previousDigest == Some(p.targetDigest))
  }

  /** The engine after a commit: bound, marked unknown, vault replaced if required, committed. */
  function AfterBind(st: St, b: Binding): St
    requires st.journal.operations != []
  {
    PersistJournal(st, WithLast(st.journal, Bound(Last(st.journal), b)))
  }

  function AfterPhase(st: St, p: Phase): St
    requires st.journal.operations != []
  {
    PersistJournal(st, WithLast(st.journal, Last(st.journal).(phase := p)))
  }

  function AfterReplace(st: St, p: Prepared): St { if p.commitRequired then WriteVault(st, Some(p.bytes)) else st }

  lemma BindGood(d0: Disk, st: St, p: Prepared, b: Binding)
    requires Good(d0, st) && st.journal == d0.journal && ReadyToCommit(st, p, b)
    ensures var n := AfterBind(st, b);
            Good(d0, n) && Active(n.journal) && Last(n.journal) == Bound(Last(st.journal), b)
  {
    var o := Bound(Last(st.journal), b);
    assert o.AsRequest() == Last(st.journal).AsRequest();
    assert OperationValid(Last(st.journal), st.groupId);
    LastEditGood(d0, st, o);
  }

  /** A phase write on the operation being committed; the handler started with it unbound. */
  lemma PhaseGood(d0: Disk, st: St, p: Phase)
    requires Good(d0, st) && Active(st.journal) && Last(st.journal).snapshot.Some? && !p.IsTerminal()
    requires |d0.journal.operations| == |st.journal.operations|
    requires Last(d0.journal).snapshot.None? && Last(d0.journal).phase.NotCommitted?
    requires p.IsCommitted() ==> VaultDigest(st.disk.vault) == Some(Last(st.journal).snapshot.value.targetDigest)
    requires p.IsPrecommit() ==> Last(st.journal).phase.IsPrecommit()
    ensures var n := AfterPhase(st, p);
            Good(d0, n) && Active(n.journal) && Last(n.journal) == Last(st.journal).(phase := p)
  {
    var u := Last(st.journal);
    var o := u.(phase := p);
    assert o.AsRequest() == u.AsRequest();
    var k := |d0.journal.operations| - 1;
    assert OperationEvolves(d0.journal.operations[k], st.journal.operations[k]);
    LastEditGood(d0, st, o);
  }

  lemma ReplaceGood(d0: Disk, st: St, p: Prepared)
    requires Good(d0, st) && Active(st.journal) && Last(st.journal).snapshot.Some?
    requires Last(st.journal).phase.IsPrecommit()
    requires p.bytes.Record? && Digest(p.bytes) == Last(st.journal).snapshot.value.targetDigest
    requires LeaseNames(st.disk.lease, Last(st.journal).operationId)
    requires !p.commitRequired ==> VaultDigest(st.disk.vault) == Some(Digest(p.bytes))
    ensures Good(d0, AfterReplace(st, p)) && VaultDigest(AfterReplace(st, p).disk.vault) == Some(Digest(p.bytes))
  {
    if p.commitRequired {
      WriteGood(d0, st, st.disk.(vault := Some(p.bytes)));
    }
  }

  function BindingFor(st: St, cookies: seq<CookieRecord>, p: Prepared): Binding
    requires st.profileId.Some? && st.journal.operations != []
  {
    Binding(TagFor(st, st.profileId.value, Last(st.journal), cookies), p.previousDigest, p.targetDigest,
            p.vaultSequence, |cookies|)
  }

  lemma BindShape(st: St, b: Binding)
    requires WellFormed(st.journal, st.groupId) && Active(st.journal)
    requires Last(st.journal).phase.NotCommitted? && Last(st.journal).snapshot.None?
    ensures JournalModel.BindSnapshot(st.journal, Last(st.journal).operationId, b) == Ok(Some(AfterBind(st, b).journal))
    ensures WellFormed(AfterBind(st, b).journal, st.groupId)
    ensures Last(AfterBind(st, b).journal) == Bound(Last(st.journal), b)
  {
    LastIndex(st.journal, st.groupId, Last(st.journal).operationId);
    WithLastWellFormed(st.journal, st.groupId, Bound(Last(st.journal), b));
  }

  lemma PhaseShape(st: St, p: Phase)
    requires WellFormed(st.journal, st.groupId) && Active(st.journal)
    requires Last(st.journal).phase.CanTransitionTo(p) && Last(st.journal).snapshot.Some?
    ensures Transit(st, Last(st.journal).operationId, p) == (AfterPhase(st, p), Ok(()))
    ensures WellFormed(AfterPhase(st, p).journal, st.groupId)
    ensures Last(AfterPhase(st, p).journal) == Last(st.journal).(phase := p)
  {
    TransitLast(st, p);
    WithLastWellFormed(st.journal, st.groupId, Last(st.journal).(phase := p));
  }

  /** The last three writes of a commit. */
  function AfterVault(st: St, p: Prepared): St
    requires st.journal.operations != []
  {
    AfterPhase(AfterReplace(AfterPhase(st, DurabilityUnknown), p), Committed)
  }

  lemma VaultShape(st: St, p: Prepared)
    requires WellFormed(st.journal, st.groupId) && Active(st.journal) && Last(st.journal).phase.NotCommitted?
    requires Last(st.journal).snapshot.Some?
    ensures var id := Last(st.journal).operationId;
            var st2 := AfterPhase(st, DurabilityUnknown);
            && Transit(st, id, DurabilityUnknown) == (st2, Ok(()))
            && Transit(AfterReplace(st2, p), id, Committed) == (AfterVault(st, p), Ok(()))
            && WellFormed(AfterVault(st, p).journal, st.groupId)
            && Last(AfterVault(st, p).journal) == Last(st.journal).(phase := Committed)
  {
    PhaseShape(st, DurabilityUnknown);
    PhaseShape(AfterReplace(AfterPhase(st, DurabilityUnknown), p), Committed);
  }

  /** The commit as the chain of its writes. */
  lemma CommitShape(st: St, id: Uuid, cookies: seq<CookieRecord>, p: Prepared)
    requires WellFormed(st.journal, st.groupId) && Active(st.journal) && Last(st.journal).operationId == id
    requires st.profileId.Some?
    requires Last(st.journal).phase.NotCommitted? && Last(st.journal).snapshot.None?
    ensures var b := BindingFor(st, cookies, p);
            var n := AfterVault(AfterBind(st, b), p);
            && CommitSnapshot(st, id, cookies, p) == (n, Ok(p.vaultSequence))
            && WellFormed(n.journal, st.groupId) && Active(n.journal)
            && Last(n.journal) == Bound(Last(st.journal), b).(phase := Committed)
  {
    var b := BindingFor(st, cookies, p);
    LastIndex(st.journal, st.groupId, id);
    BindShape(st, b);
    VaultShape(AfterBind(st, b), p);
  }

  /** The same chain, each write keeping the invariant. */
  lemma ChainGood(d0: Disk, st: St, p: Prepared, b: Binding)
    requires Good(d0, st) && st.journal == d0.journal && ReadyToCommit(st, p, b) && Last(st.journal).phase.NotCommitted?
    ensures var n := AfterVault(AfterBind(st, b), p);
            && Good(d0, n) && Active(n.journal) && Last(n.journal) == Bound(Last(st.journal), b).(phase := Committed)
            && VaultDigest(n.disk.vault) == Some(Digest(p.bytes))
  {
    var st1 := AfterBind(st, b);
    BindGood(d0, st, p, b);
    PhaseGood(d0, st1, DurabilityUnknown);
    var st2 := AfterPhase(st1, DurabilityUnknown);
    ReplaceGood(d0, st2, p);
    PhaseGood(d0, AfterReplace(st2, p), Committed);
  }

  /** What the chain of writes leaves alone. */
  lemma ChainFrame(st: St, p: Prepared, b: Binding)
    requires st.journal.operations != []
    ensures var n := AfterVault(AfterBind(st, b), p);
            && n.lease == st.lease && n.disk.lease == st.disk.lease && n.groupId == st.groupId
            && n.connected == st.connected && n.profileId == st.profileId
            && |n.journal.operations| == |st.journal.operations|
  {
  }

  lemma HostReady(st: St, cookies: seq<CookieRecord>, p: Prepared)
    requires HostInv(st) && Active(st.journal) && CanCommit(st, Last(st.journal).operationId)
    requires p.previousDigest == VaultDigest(st.disk.vault) && p.targetDigest == Digest(p.bytes)
    requires p.bytes.Record? && p.bytes.vaultSequence == p.vaultSequence
    requires p.commitRequired ==> p.bytes.cookies == cookies
    requires !p.commitRequired ==> cookies == [] && p.previousDigest == Some(p.targetDigest)
    ensures ReadyToCommit(st, p, BindingFor(st, cookies, p)) && Last(st.journal).phase.NotCommitted?
  {
    assert OperationValid(Last(st.journal), st.groupId);
  }

  lemma CommitGood(st: St, st0: St, id: Uuid, cookies: seq<CookieRecord>, p: Prepared)
    requires HostInv(st) && st.log == [] && st0 == st.(pending := st0.pending) && CanCommit(st, id)
    requires p.previousDigest == VaultDigest(st.disk.vault) && p.targetDigest == Digest(p.bytes)
    requires p.bytes.Record? && p.bytes.vaultSequence == p.vaultSequence
    requires p.commitRequired ==> p.bytes.cookies == cookies
    requires !p.commitRequired ==> cookies == [] && p.previousDigest == Some(p.targetDigest)
    ensures var (n, r) := CommitSnapshot(st0, id, cookies, p);
            && r == Ok(p.vaultSequence) && Good(st.disk, n) && Active(n.journal)
            && Last(n.journal).operationId == id && Last(n.journal).kind == Last(st.journal).kind
            && Last(n.journal).phase.Committed? && Last(n.journal).snapshot.Some?
            && Last(n.journal).snapshot.value.targetDigest == Digest(p.bytes)
            && Last(n.journal).snapshot.value.targetVaultSequence == p.vaultSequence
            && VaultDigest(n.disk.vault) == Some(Digest(p.bytes))
            && n.lease == st.lease && n.disk.lease == st.disk.lease && n.groupId == st.groupId
            && n.connected == st.connected && n.profileId == st.profileId
            && |n.journal.operations| == |st.journal.operations|
  {
    Start(st);
    HostReady(st, cookies, p);
    var b := BindingFor(st, cookies, p);
    CommitShape(st0, id, cookies, p);
    assert Good(st.disk, st0) && ReadyToCommit(st0, p, b) && BindingFor(st0, cookies, p) == b;
    ChainGood(st.disk, st0, p, b);
    ChainFrame(st0, p, b);
  }

  function ConfirmLease(st: St, id: Uuid, sequence: nat): Lease
  {
    st.lease.(vaultSequence := sequence, pendingOperationId := Some(id))
  }

  lemma ConfirmShape(st: St, sequence: nat, p: Pending)
    requires WellFormed(st.journal, st.groupId) && Active(st.journal) && Last(st.journal).phase.Committed?
    requires Last(st.journal).snapshot.Some?
    requires p.operationId == Last(st.journal).operationId
    ensures var (n, r) := ConfirmCommitted(st, p.operationId, sequence, p);
            n == AfterPhase(PersistLease(st, ConfirmLease(st, p.operationId, sequence)),
                            BrowserRemovalPending).(pending := Some(p)) && r.Ok?
  {
    TransitLast(PersistLease(st, ConfirmLease(st, p.operationId, sequence)), BrowserRemovalPending);
  }

  lemma ConfirmedHost(st: St, p: Pending)
    requires DiskInv(st.disk, st.groupId) && st.journal == st.disk.journal && st.disk.lease == Some(st.lease)
    requires (st.connected ==> st.profileId.Some?)
    requires Active(st.journal) && Last(st.journal).phase.IsCommitted() && Last(st.journal).snapshot.Some?
    requires st.lease.vaultSequence == Last(st.journal).snapshot.value.targetVaultSequence
    requires p.operationId == Last(st.journal).operationId && p.kind == Last(st.journal).kind && p.confirmed
    ensures HostInv(st.(pending := Some(p)))
  {
  }

  /** Lease and phase writes that follow a commit. */
  lemma ConfirmSafe(d0: Disk, st: St, sequence: nat, p: Pending)
    requires Good(d0, st) && Active(st.journal) && Last(st.journal).phase.Committed? && Last(st.journal).snapshot.Some?
    requires |d0.journal.operations| == |st.journal.operations|
    requires Last(d0.journal).snapshot.None? && Last(d0.journal).phase.NotCommitted?
    requires st.disk.lease == Some(st.lease) && st.lease.state.Evicting?
    requires st.lease.pendingOperationId == Some(Last(st.journal).operationId)
    requires sequence == Last(st.journal).snapshot.value.targetVaultSequence
    requires VaultDigest(st.disk.vault) == Some(Last(st.journal).snapshot.value.targetDigest)
    requires p.operationId == Last(st.journal).operationId && p.kind == Last(st.journal).kind && p.confirmed
    requires (st.connected ==> st.profileId.Some?)
    ensures var (n, r) := ConfirmCommitted(st, p.operationId, sequence, p);
            Safe(d0, n) && r.Ok? && Active(n.journal)
            && Last(n.journal) == Last(st.journal).(phase := BrowserRemovalPending)
  {
    ConfirmShape(st, sequence, p);
    var l := ConfirmLease(st, p.operationId, sequence);
    var st1 := PersistLease(st, l);
    LeaseGood(d0, st, l);
    PhaseGood(d0, st1, BrowserRemovalPending);
    ConfirmedHost(AfterPhase(st1, BrowserRemovalPending), p);
  }

  /** Without an unbound unresolved operation a commit is refused before any write. */
  lemma CommitRefused(st: St, id: Uuid, cookies: seq<CookieRecord>, p: Prepared)
    requires WellFormed(st.journal, st.groupId)
    requires Active(st.journal) && Last(st.journal).snapshot.Some? ==> Last(st.journal).phase.IsCommitted()
    requires !(st.profileId.Some? && Active(st.journal) && Last(st.journal).snapshot.None? &&
               Last(st.journal).operationId == id)
    ensures CommitSnapshot(st, id, cookies, p).0 == st && CommitSnapshot(st, id, cookies, p).1.Err?
  {
    LastIndex(st.journal, st.groupId, id);
  }

  predicate CanCommit(st: St, id: Uuid) {
    st.profileId.Some? && Active(st.journal) && Last(st.journal).snapshot.None? && Last(st.journal).operationId == id
  }

  /** What a buffered commit comes to. */
  lemma CommitBufferedShape(st: St, c: Chunk, cookies: seq<CookieRecord>, p: Pending, env: Env)
    requires WellFormed(st.journal, st.groupId)
    requires Active(st.journal) ==>
               if Last(st.journal).snapshot.Some? then Last(st.journal).phase.IsCommitted()
               else Last(st.journal).phase.NotCommitted?
    ensures var prepared := PrepareAfterSnapshot(st.disk.vault, cookies, env.nonce, env.fits);
            CommitBuffered(st, c, cookies, p, env).0 ==
              if prepared.Ok? && CanCommit(st, c.operationId) then
                ConfirmCommitted(CommitSnapshot(st, c.operationId, cookies, prepared.value).0, c.operationId,
                                 prepared.value.vaultSequence,
                                 p.(confirmed := true, cookieCount := Some(|cookies|))).0
              else st.(pending := Some(p))
  {
    var prepared := PrepareAfterSnapshot(st.disk.vault, cookies, env.nonce, env.fits);
    if prepared.Ok? {
      if CanCommit(st, c.operationId) {
        CommitShape(st, c.operationId, cookies, prepared.value);
      } else {
        CommitRefused(st, c.operationId, cookies, prepared.value);
      }
    }
  }

  lemma CommitBufferedSafe(st: St, st0: St, c: Chunk, cookies: seq<CookieRecord>, p: Pending, env: Env)
    requires HostInv(st) && st.log == [] && st0 == st.(pending := st0.pending) && st.pending.Some?
    requires p.kind == st.pending.value.kind && p.operationId == st.pending.value.operationId == c.operationId
    requires p.confirmed == st.pending.value.confirmed
    requires p.attemptId == st.pending.value.attemptId
    ensures Safe(st.disk, CommitBuffered(st0, c, cookies, p, env).0)
  {
    CommitBufferedShape(st0, c, cookies, p, env);
    var prepared := PrepareAfterSnapshot(st.disk.vault, cookies, env.nonce, env.fits);
    if prepared.Ok? && CanCommit(st0, c.operationId) {
      PreparedTrue(st.disk.vault, cookies, env.nonce, env.fits);
      CommitGood(st, st0, c.operationId, cookies, prepared.value);
      var st2 := CommitSnapshot(st0, c.operationId, cookies, prepared.value).0;
      ConfirmSafe(st.disk, st2, prepared.value.vaultSequence, p.(confirmed := true, cookieCount := Some(|cookies|)));
    } else {
      Start(st);
      PendingEdit(st, p);
    }
  }

  lemma AbortEmptySafe(st: St, st0: St, id: Uuid)
    requires HostInv(st) && st.log == [] && st0 == st.(pending := None)
    requires st.pending.Some? && st.pending.value.operationId == id && !st.pending.value.confirmed
    requires st.pending.value.kind.Enrollment?
    ensures Safe(st.disk, AbortEmpty(st0, id).0)
  {
    Start(st);
    LastIndex(st.journal, st.groupId, id);
    var (st1, r) := Transit(st0, id, Aborted);
    if r.Ok? {
      EndGood(st, st0, id, Aborted);
      EndedSafe(st.disk, st1, Advance(NoLease(st1.lease).(state := Uninitialized, pendingOperationId := None)));
    } else if Active(st.journal) && Last(st.journal).snapshot.None? {
      TransitLast(st0, Aborted);
    }
  }

  predicate SamePending(st: St, st0: St) {
    && st0 == st.(pending := st0.pending)
    && (st.pending.Some? <==> st0.pending.Some?)
    && (st.pending.Some? ==>
          var p, p0 := st.pending.value, st0.pending.value;
          p0.kind == p.kind && p0.operationId == p.operationId && p0.confirmed == p.confirmed
          && p0.attemptId == p.attemptId)
  }

  lemma SamePendingSafe(st: St, st0: St)
    requires HostInv(st) && st.log == [] && SamePending(st, st0)
    ensures Safe(st.disk, st0)
  {
    Start(st);
    if st.pending.Some? {
      PendingEdit(st, st0.pending.value);
    }
  }

  lemma SnapshotChunkSafe(st: St, st0: St, c: Chunk, env: Env)
    requires HostInv(st) && st.log == [] && SamePending(st, st0)
    ensures Safe(st.disk, HandleSnapshotChunk(st0, c, env).0)
  {
    if st.pending.None? {
      SamePendingSafe(st, st0);
    } else {
      var (p, appended) := AppendCommitChunk(st0.pending.value, c);
      if appended == Ok(true) {
        if p.kind.Enrollment? && p.cookies == [] {
          AbortEmptySafe(st, st0.(pending := None), c.operationId);
        } else {
          CommitBufferedSafe(st, st0.(pending := Some(p)), c, p.cookies, p.(cookies := []), env);
        }
      } else {
        SamePendingSafe(st, st0.(pending := Some(p)));
      }
    }
  }

  /** A removal chunk is buffered, or its mismatch ends the operation. */
  lemma RemovalChunkShape(st: St, c: Chunk)
    requires c.operationSequence.Some? && c.attemptId.Some? && st.pending.Some?
    ensures var st1 := st.(pending := Some(AppendV7Chunk(st.pending.value, c).0));
            var (st2, given) := Transit(st1, c.operationId, ReconciliationRequired);
            var n := HandleRemovalChunk(st, c).0;
            n == st1 || (given.Ok? && n == PersistLease(st2, Advance(st2.lease.(state := Degraded))).(pending := None))
  {
  }

  lemma RemovalChunkSafe(st: St, st0: St, c: Chunk)
    requires HostInv(st) && st.log == [] && SamePending(st, st0) && c.operationSequence.Some? && c.attemptId.Some?
    requires st.pending.Some? && st.pending.value.operationId == c.operationId
    ensures Safe(st.disk, HandleRemovalChunk(st0, c).0)
  {
    RemovalChunkShape(st0, c);
    var st1 := st0.(pending := Some(AppendV7Chunk(st0.pending.value, c).0));
    SamePendingSafe(st, st1);
    if HandleRemovalChunk(st0, c).0 != st1 { GiveUpSafe(st, st1, c.operationId); }
  }

  lemma GiveUpSafe(st: St, st1: St, id: Uuid)
    requires HostInv(st) && st.log == [] && SamePending(st, st1) && st.pending.Some?
    requires st.pending.value.operationId == id
    requires Transit(st1, id, ReconciliationRequired).1.Ok?
    ensures var st2 := Transit(st1, id, ReconciliationRequired).0;
            Safe(st.disk, PersistLease(st2, Advance(st2.lease.(state := Degraded))).(pending := None))
  {
    EndGood(st, st1, id, ReconciliationRequired);
    var st2 := Transit(st1, id, ReconciliationRequired).0;
    EndedSafe(st.disk, st2.(pending := None), Advance(st2.lease.(state := Degraded)));
  }

  predicate Fresh(st: St, c: Chunk) {
    && c.operationSequence.Some? && c.attemptId.Some? && c.purpose.Some? && st.pending.Some?
    && var p := st.pending.value;
       && p.operationId == c.operationId && p.operationSequence == c.operationSequence.value && p.leaseId == c.leaseId
       && p.attemptId == c.attemptId
       && c.chunkIndex !in p.chunkDigests
  }

  function Noted(st: St, c: Chunk): St
    requires st.pending.Some?
  {
    st.(pending := Some(st.pending.value.(chunkDigests := st.pending.value.chunkDigests[c.chunkIndex := c.cookies])))
  }

  lemma SnapshotChunkV7Shape(st: St, c: Chunk, env: Env)
    ensures HandleSnapshotChunkV7(st, c, env).0 ==
              if !Fresh(st, c) then st
              else match c.purpose.value
                case RemovalPrecheck => HandleRemovalChunk(Noted(st, c), c).0
                case UnknownPurpose => Noted(st, c)
                case CommitPurpose => HandleSnapshotChunk(Noted(st, c), c, env).0
  {
  }

  lemma SnapshotChunkV7Safe(st: St, c: Chunk, env: Env)
    requires HostInv(st) && st.log == []
    ensures Safe(st.disk, HandleSnapshotChunkV7(st, c, env).0)
  {
    SnapshotChunkV7Shape(st, c, env);
    if !Fresh(st, c) {
      SamePendingSafe(st, st);
    } else {
      match c.purpose.value
      case RemovalPrecheck => RemovalChunkSafe(st, Noted(st, c), c);
      case UnknownPurpose => SamePendingSafe(st, Noted(st, c));
      case CommitPurpose => SnapshotChunkSafe(st, Noted(st, c), c, env);
    }
  }

  lemma BeginMessageSafe(st: St, m: Message, env: Env)
    requires HostInv(st) && st.log == [] && st.connected && (m.EvictBegin? || m.OperationBegin?)
    ensures Safe(st.disk, Handle(st, m, env).0)
  {
    match m
    case EvictBegin(id, leaseId, reason) => EvictBeginSafe(st, id, leaseId, reason);
    case OperationBegin(attempt, kind, leaseId, reason) =>
      if st.v7 { OperationBeginSafe(st, attempt, kind, leaseId, reason, env); } else { Start(st); }
  }

  lemma LeaseMessageSafe(st: St, m: Message, env: Env)
    requires HostInv(st) && st.log == [] && st.connected && (m.LeaseRequest? || m.InjectResult? || m.SessionInvalidate?)
    ensures Safe(st.disk, Handle(st, m, env).0)
  {
    match m
    case LeaseRequest(enroll) => LeaseRequestSafe(st, enroll, env);
    case InjectResult(leaseId, restored) => InjectResultSafe(st, leaseId, restored);
    case SessionInvalidate(leaseId) => SessionInvalidateSafe(st, leaseId);
  }

  lemma ChunkSafe(st: St, c: Chunk, env: Env)
    requires HostInv(st) && st.log == [] && st.connected
    ensures Safe(st.disk, Handle(st, SnapshotChunk(c), env).0)
  {
    if st.v7 { SnapshotChunkV7Safe(st, c, env); } else { SnapshotChunkSafe(st, st, c, env); }
  }

  lemma EvictResultV7Safe(st: St, id: Uuid, leaseId: Option<Uuid>, success: bool, remaining: nat, sequence: Option<nat>,
                          attempt: Option<Uuid>)
    requires HostInv(st) && st.log == []
    ensures Safe(st.disk, HandleEvictResultV7(st, id, leaseId, success, remaining, sequence, attempt).0)
  {
    var n := HandleEvictResultV7(st, id, leaseId, success, remaining, sequence, attempt).0;
    if n == st {
      Start(st);
    } else {
      assert n == HandleEvictResult(st, id, leaseId, success, remaining).0;
      EvictResultSafe(st, id, leaseId, success, remaining);
    }
  }

  lemma ResultSafe(st: St, m: Message, env: Env)
    requires HostInv(st) && st.log == [] && st.connected && m.EvictResult?
    ensures Safe(st.disk, Handle(st, m, env).0)
  {
    if st.v7 {
      EvictResultV7Safe(st, m.resultOperationId, m.resultLeaseId, m.success, m.remaining, m.sequence, m.attempt);
    } else {
      EvictResultSafe(st, m.resultOperationId, m.resultLeaseId, m.success, m.remaining);
    }
  }

  lemma StatusQuerySafe(st: St, m: Message, env: Env)
    requires HostInv(st) && st.log == [] && st.connected && m.OperationStatusQuery?
    ensures Safe(st.disk, Handle(st, m, env).0)
  {
    if st.v7 { OperationStatusSafe(st, m.queryOperationId, m.querySequence, m.queryLeaseId); } else { Start(st); }
  }

  lemma PrepareMessageSafe(st: St, m: Message, env: Env)
    requires HostInv(st) && st.log == [] && st.connected && m.RemovePrepare?
    ensures Safe(st.disk, Handle(st, m, env).0)
  {
    if st.v7 { RemovePrepareSafe(st, m.prepareOperationId, m.prepareSequence, m.prepareLeaseId,
                                 m.prepareAttempt); } else { Start(st); }
  }

  /** Every message keeps the invariant at every write, whatever its contents and whatever the host
      draws while handling it. */
  lemma HandleSafe(st: St, m: Message, env: Env)
    requires HostInv(st) && st.log == []
    ensures Safe(st.disk, Handle(st, m, env).0)
  {
    if m.Handshake? {
      HandshakeSafe(st, m.profileId, m.v7, m.fate);
    } else if !st.connected {
      Start(st);
    } else if m.SnapshotChunk? {
      ChunkSafe(st, m.chunk, env);
    } else if m.EvictResult? {
      ResultSafe(st, m, env);
    } else if m.OperationStatusQuery? {
      StatusQuerySafe(st, m, env);
    } else if m.RemovePrepare? {
      PrepareMessageSafe(st, m, env);
    } else if m.EvictBegin? || m.OperationBegin? {
      BeginMessageSafe(st, m, env);
    } else {
      LeaseMessageSafe(st, m, env);
    }
  }
}
