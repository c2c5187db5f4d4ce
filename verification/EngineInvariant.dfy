/** What every durable state of the engine satisfies, what the host's memory satisfies between
    messages, and that recovery re-establishes both from any crash point. */
module EngineInvariant {
  import opened Base
  import opened JournalModel
  import opened EngineSpec

  // ---------------------------------------------------------------------------------------------
  // The invariant
  // ---------------------------------------------------------------------------------------------

  /** An unresolved operation can only be the last one of a well-formed journal. */
  predicate Active(j: Journal) {
    j.operations != [] && !j.operations[|j.operations| - 1].phase.IsTerminal()
  }

  function Last(j: Journal): Operation
    requires j.operations != []
  {
    j.operations[|j.operations| - 1]
  }

  function WithLast(j: Journal, o: Operation): Journal
    requires j.operations != []
  {
    WithOperation(j, |j.operations| - 1, o)
  }

  /** The binding describes a real record: its tag covers either exactly the records sealed in the
      target, or the empty snapshot of a commit that leaves the vault as it was. */
  predicate BindingTrue(o: Operation, groupId: Uuid)
    requires o.snapshot.Some?
  {
    var s := o.snapshot.value;
    && s.targetDigest.content.Record?
    && s.targetDigest.content.vaultSequence == s.targetVaultSequence
    && s.tag.groupId == groupId
    && s.tag.operationId == o.operationId
    && s.tag.operationSequence == o.sequence
    && s.tag.baseVaultSequence == o.baseVaultSequence
    && s.cookieCount == |s.tag.snapshot|
    && (s.tag.snapshot == s.targetDigest.content.cookies ||
        (s.tag.snapshot == [] && s.previousDigest == Some(s.targetDigest)))
  }

  predicate LeaseNames(lease: Option<Lease>, id: Uuid) {
    lease.Some? && lease.value.pendingOperationId == Some(id) && !lease.value.state.Uninitialized?
  }

  predicate NothingEnrolled(vault: Option<VaultFile>, lease: Option<Lease>) {
    vault.None? && (lease.None? || lease.value.state.Uninitialized?)
  }

  /** How the unresolved operation relates to the two other files. */
  predicate ActiveConsistent(u: Operation, vault: Option<VaultFile>, lease: Option<Lease>, groupId: Uuid) {
    && (u.snapshot.None? ==> u.phase.NotCommitted?)
    && (u.snapshot.Some? ==>
          var s := u.snapshot.value;
          && BindingTrue(u, groupId)
          && (LeaseNames(lease, u.operationId) || NothingEnrolled(vault, lease))
          && (u.phase.IsPrecommit() ==>
                VaultDigest(vault) == s.previousDigest || VaultDigest(vault) == Some(s.targetDigest))
          && (u.phase.IsCommitted() ==> vault.None? || VaultDigest(vault) == Some(s.targetDigest)))
  }

  /** Holds of the three files at every moment, also between two writes of one handler. */
  predicate DiskInv(d: Disk, groupId: Uuid) {
    && WellFormed(d.journal, groupId)
    && (d.lease.Some? ==>
          d.lease.value.groupId == groupId
          && (d.lease.value.state.Uninitialized? ==> d.lease.value.pendingOperationId.None?))
    && (d.vault.Some? ==> d.vault.value.Record? && d.lease.Some? && !d.lease.value.state.Uninitialized?)
    && (Active(d.journal) ==> ActiveConsistent(Last(d.journal), d.vault, d.lease, groupId))
  }

  /** Holds of a running host between two messages. */
  predicate HostInv(st: St) {
    && DiskInv(st.disk, st.groupId)
    && st.journal == st.disk.journal
    && st.disk.lease == Some(st.lease)
    && (st.connected ==> st.profileId.Some?)
    && (st.pending.Some? && st.pending.value.kind.Enrollment? && !st.pending.value.confirmed ==> st.disk.vault.None?)
    && (st.pending.Some? && st.pending.value.attemptId.Some? ==> Active(st.journal))
    && (Active(st.journal) && st.pending.Some? ==>
          st.pending.value.operationId == Last(st.journal).operationId
          && st.pending.value.kind == Last(st.journal).kind)
    && (Active(st.journal) ==>
          var u := Last(st.journal);
          if u.snapshot.None? then
            && st.pending.Some? && !st.pending.value.confirmed
            && st.lease.state.Evicting? && st.lease.pendingOperationId == Some(u.operationId)
          else
            && u.phase.IsCommitted()
            && (st.pending.Some? ==> st.pending.value.confirmed)
            && (st.lease.pendingOperationId == Some(u.operationId) ==>
                  st.lease.vaultSequence == u.snapshot.value.targetVaultSequence))
  }

  /** Every durable state since the handler started satisfies the invariant, and the journal only
      evolves from the one it started with. */
  predicate Good(d0: Disk, st: St) {
    && DiskInv(st.disk, st.groupId)
    && st.journal == st.disk.journal
    && Evolves(d0.journal, st.journal)
    && (forall i :: 0 <= i < |st.log| ==> DiskInv(st.log[i], st.groupId) && Evolves(d0.journal, st.log[i].journal))
    && (if st.log == [] then st.disk == d0 else st.disk == st.log[|st.log| - 1])
  }

  predicate Safe(d0: Disk, st: St) { Good(d0, st) && HostInv(st) }

  lemma WriteGood(d0: Disk, st: St, d: Disk)
    requires Good(d0, st) && DiskInv(d, st.groupId) && Evolves(d0.journal, d.journal)
    ensures Good(d0, Write(st, d).(journal := d.journal))
  {
  }

  // ---------------------------------------------------------------------------------------------
  // Journal edits at the unresolved operation
  // ---------------------------------------------------------------------------------------------

  predicate SameIdentity(o: Operation, n: Operation) {
    n.AsRequest() == o.AsRequest() && n.sequence == o.sequence && n.fingerprint == o.fingerprint
  }

  lemma LastIndex(j: Journal, groupId: Uuid, id: Uuid)
    requires WellFormed(j, groupId)
    ensures Has(j, id) && !Get(j, id).phase.IsTerminal() ==> Active(j) && Last(j).operationId == id
    ensures Active(j) && Last(j).operationId == id ==>
              IndexOf(j.operations, id) == |j.operations| - 1 && Get(j, id) == Last(j)
    ensures HasUnresolved(j) <==> Active(j)
  {
    if Active(j) && Last(j).operationId == id {
      var k := IndexOf(j.operations, id);
      assert k <= |j.operations| - 1;
      assert OperationsValid(j.operations, j.highWater, groupId);
    }
    if Active(j) {
      assert !j.operations[|j.operations| - 1].phase.IsTerminal();
    }
  }

  lemma TransitionHitsLast(j: Journal, groupId: Uuid, id: Uuid, p: Phase)
    requires WellFormed(j, groupId)
    ensures var t := JournalModel.Transition(j, id, p);
            t.Ok? && t.value.Some? ==>
              && Active(j) && Last(j).operationId == id && Last(j).phase.CanTransitionTo(p)
              && (p.Committed? ==> Last(j).snapshot.Some?)
              && t.value.value == WithLast(j, Last(j).(phase := p))
  {
    LastIndex(j, groupId, id);
  }

  lemma TransitionOfLast(j: Journal, groupId: Uuid, p: Phase)
    requires WellFormed(j, groupId) && Active(j) && Last(j).phase.CanTransitionTo(p)
    requires (p.Committed? ==> Last(j).snapshot.Some?)
    ensures JournalModel.Transition(j, Last(j).operationId, p) == Ok(Some(WithLast(j, Last(j).(phase := p))))
  {
    LastIndex(j, groupId, Last(j).operationId);
  }

  /** Only the unresolved operation can be edited; a terminal one refuses or ignores the edit. */
  lemma TransitionShape(j: Journal, groupId: Uuid, id: Uuid, p: Phase)
    requires WellFormed(j, groupId)
    ensures var t := JournalModel.Transition(j, id, p);
            t.Ok? && t.value.Some? ==>
              && Active(j) && Last(j).operationId == id && Last(j).phase.CanTransitionTo(p)
              && (p.Committed? ==> Last(j).snapshot.Some?)
              && t.value.value == WithLast(j, Last(j).(phase := p))
    ensures Active(j) && Last(j).operationId == id && Last(j).phase.CanTransitionTo(p)
            && (p.Committed? ==> Last(j).snapshot.Some?) ==>
              JournalModel.Transition(j, id, p) == Ok(Some(WithLast(j, Last(j).(phase := p))))
  {
    TransitionHitsLast(j, groupId, id, p);
    if Active(j) && Last(j).operationId == id && Last(j).phase.CanTransitionTo(p) &&
       (p.Committed? ==> Last(j).snapshot.Some?) {
      TransitionOfLast(j, groupId, p);
    }
  }

  lemma WithLastWellFormed(j: Journal, groupId: Uuid, o: Operation)
    requires WellFormed(j, groupId) && Active(j) && SameIdentity(Last(j), o)
    requires o.phase.IsCommitted() || o.phase.Completed? || o.phase.DurabilityUnknown? ==> o.snapshot.Some?
    ensures WellFormed(WithLast(j, o), groupId) && Last(WithLast(j, o)) == o
  {
    var k := |j.operations| - 1;
    assert OperationValid(j.operations[k], groupId);
    WithOperationKeepsValid(j, groupId, k, o);
    var n := WithLast(j, o);
    forall a, b | 0 <= a < b < |n.operations| && n.operations[a].attemptId.Some?
      ensures n.operations[a].attemptId != n.operations[b].attemptId
    {
      assert o.attemptId == o.AsRequest().attemptId == j.operations[k].attemptId;
      assert j.operations[a].attemptId != j.operations[b].attemptId;
    }
  }

  lemma WithLastEvolves(j0: Journal, j: Journal, o: Operation)
    requires Evolves(j0, j) && Active(j)
    requires |j0.operations| == |j.operations| ==> OperationEvolves(Last(j0), o)
    ensures Evolves(j0, WithLast(j, o))
  {
    var n := WithLast(j, o);
    forall i | 0 <= i < |j0.operations|
      ensures OperationEvolves(j0.operations[i], n.operations[i])
    {
      assert OperationEvolves(j0.operations[i], j.operations[i]);
    }
  }

  lemma EvolvesReflexive(j: Journal)
    ensures Evolves(j, j)
  {
  }

  // ---------------------------------------------------------------------------------------------
  // Startup recovery
  // ---------------------------------------------------------------------------------------------

  lemma {:induction false} ActiveIdsOfTerminal(ops: seq<Operation>)
    requires forall i :: 0 <= i < |ops| ==> ops[i].phase.IsTerminal()
    ensures ActiveIds(ops) == []
  {
    if ops != [] {
      ActiveIdsOfTerminal(ops[..|ops| - 1]);
    }
  }

  lemma ActiveIdsShape(j: Journal, groupId: Uuid)
    requires WellFormed(j, groupId)
    ensures ActiveIds(j.operations) == if Active(j) then [Last(j).operationId] else []
  {
    if j.operations != [] {
      ActiveIdsOfTerminal(j.operations[..|j.operations| - 1]);
    }
  }

  /** The phase in which recovery leaves an unresolved operation, stated from the vault alone. */
  function RecoveredPhase(u: Operation, vault: Option<VaultFile>): Phase {
    if u.snapshot.None? then Aborted
    else if VaultDigest(vault) == Some(u.snapshot.value.targetDigest) then
      if u.phase.IsCommitted() then u.phase else Committed
    else if u.phase.IsPrecommit() && VaultDigest(vault) == u.snapshot.value.previousDigest then Aborted
    else ReconciliationRequired
  }

  /** The state recovery leaves, with the journals it writes on the way. */
  function Recovered(st: St): St
    requires st.journal.operations != []
  {
    var u, p := Last(st.journal), RecoveredPhase(Last(st.journal), st.disk.vault);
    var settled := WithLast(st.journal, u.(phase := p));
    if p == u.phase then st
    else if u.snapshot.Some? && u.phase.DurabilityUnknown? && p.Aborted? then
      PersistJournal(PersistJournal(st, WithLast(st.journal, u.(phase := NotCommitted))), settled)
    else PersistJournal(st, settled)
  }

  function RecoveryOf(u: Operation, p: Phase): Recovery
    requires p.IsCommitted() ==> u.snapshot.Some?
  {
    if p.IsCommitted() then Recovery(true, Some(u.operationId), Some(u.snapshot.value.targetVaultSequence))
    else Recovery(true, None, None)
  }

  lemma TransitLast(st: St, p: Phase)
    requires WellFormed(st.journal, st.groupId) && Active(st.journal)
    requires Last(st.journal).phase.CanTransitionTo(p) && (p.Committed? ==> Last(st.journal).snapshot.Some?)
    ensures Transit(st, Last(st.journal).operationId,
                    p) == (PersistJournal(st, WithLast(st.journal, Last(st.journal).(phase := p))), Ok(()))
  {
    TransitionOfLast(st.journal, st.groupId, p);
  }

  lemma RecoverPhaseSettles(st: St)
    requires WellFormed(st.journal, st.groupId) && Active(st.journal) && Last(st.journal).snapshot.Some?
    ensures var u, p := Last(st.journal), RecoveredPhase(Last(st.journal), st.disk.vault);
            RecoverVaultPhase(st, u.operationId) ==
              if p.Aborted? then
                (if u.phase.NotCommitted? then st
                 else PersistJournal(st, WithLast(st.journal, u.(phase := NotCommitted))),
                 Ok(VaultNotCommitted))
              else
                (if u.phase == p then st else PersistJournal(st, WithLast(st.journal, u.(phase := p))),
                 Ok(if p.IsCommitted() then VaultCommitted else VaultConflict))
  {
    var u, p := Last(st.journal), RecoveredPhase(Last(st.journal), st.disk.vault);
    LastIndex(st.journal, st.groupId, u.operationId);
    var goal := if p.Aborted? then NotCommitted else p;
    if u.phase != goal {
      TransitLast(st, goal);
    }
  }

  lemma RecoverOneSettles(st: St)
    requires WellFormed(st.journal, st.groupId) && Active(st.journal)
    ensures var u, p := Last(st.journal), RecoveredPhase(Last(st.journal), st.disk.vault);
            RecoverOne(st, u.operationId, NoRecovery) == (Recovered(st), Ok(RecoveryOf(u, p)))
  {
    var u, p := Last(st.journal), RecoveredPhase(Last(st.journal), st.disk.vault);
    LastIndex(st.journal, st.groupId, u.operationId);
    if u.snapshot.None? {
      assert u.phase.NotCommitted? by {
        assert OperationValid(u, st.groupId);
      }
      TransitLast(st, Aborted);
    } else {
      RecoverPhaseSettles(st);
      if p.Aborted? {
        var n := RecoverVaultPhase(st, u.operationId).0;
        WithLastWellFormed(st.journal, st.groupId, u.(phase := NotCommitted));
        assert u.phase.NotCommitted? ==> n.journal == st.journal;
        assert Last(n.journal) == u.(phase := NotCommitted);
        TransitLast(n, Aborted);
        assert WithLast(n.journal, u.(phase := Aborted)) == WithLast(st.journal, u.(phase := Aborted));
      }
    }
  }

  /** Recovery is total on every journal a run can reach, whatever the vault holds: it attempts no
      illegal phase change and settles the unresolved operation by the vault's digest. */
  lemma StartupRecoverSettles(st: St)
    requires WellFormed(st.journal, st.groupId)
    ensures Active(st.journal) ==>
              StartupRecover(st) == (Recovered(st),
                                     Ok(RecoveryOf(Last(st.journal), RecoveredPhase(Last(st.journal), st.disk.vault))))
    ensures !Active(st.journal) ==> StartupRecover(st) == (st, Ok(NoRecovery))
  {
    ActiveIdsShape(st.journal, st.groupId);
    if Active(st.journal) {
      RecoverOneSettles(st);
      var ids := ActiveIds(st.journal.operations);
      assert ids[0] == Last(st.journal).operationId && ids[1..] == [];
      var (n, r) := RecoverOne(st, ids[0], NoRecovery);
      assert RecoverAll(n, [], r.value) == (n, r);
    }
  }

  lemma RecoveredWellFormed(st: St)
    requires WellFormed(st.journal, st.groupId) && Active(st.journal)
    ensures WellFormed(Recovered(st).journal, st.groupId)
    ensures var u := Last(st.journal);
            Recovered(st).journal == WithLast(st.journal, u.(phase := RecoveredPhase(u, st.disk.vault)))
  {
    var u, p := Last(st.journal), RecoveredPhase(Last(st.journal), st.disk.vault);
    assert u.phase == p ==> WithLast(st.journal, u.(phase := p)) == st.journal;
    WithLastWellFormed(st.journal, st.groupId, u.(phase := p));
  }

  /** A second startup recovery over the same vault changes nothing, and whatever stays unresolved
      after the first is committed with its target in the vault. */
  lemma StartupRecoverIdempotent(st: St)
    requires WellFormed(st.journal, st.groupId)
    ensures var n := StartupRecover(st).0;
            && StartupRecover(n).0 == n
            && WellFormed(n.journal, st.groupId)
            && (Active(n.journal) ==>
                  && Last(n.journal).phase.IsCommitted()
                  && Last(n.journal).snapshot.Some?
                  && VaultDigest(st.disk.vault) == Some(Last(n.journal).snapshot.value.targetDigest))
  {
    StartupRecoverSettles(st);
    if Active(st.journal) {
      RecoveredWellFormed(st);
      StartupRecoverSettles(Recovered(st));
    }
  }

  /** Preparing a v6 reconciliation succeeds on every reachable journal and any vault, and leaves
      nothing unresolved. */
  lemma ReconciliationResolvesAll(st: St)
    requires WellFormed(st.journal, st.groupId)
    ensures var (n, r) := PrepareForV6Reconciliation(st);
            r.Ok? && WellFormed(n.journal, st.groupId) && !HasUnresolved(n.journal)
  {
    ActiveIdsShape(st.journal, st.groupId);
    LastIndex(st.journal, st.groupId, NIL);
    if Active(st.journal) {
      var u := Last(st.journal);
      var (n, r) := ReconcileOne(st, u.operationId);
      ReconcileOneResolves(st);
      LastIndex(n.journal, st.groupId, NIL);
      var ids := ActiveIds(st.journal.operations);
      assert ids[0] == u.operationId && ids[1..] == [];
      assert ReconcileAll(n, []) == (n, r);
    }
  }

  /** The last step of preparing a reconciliation, from whatever phase the vault check left. */
  lemma GiveUpLast(m: St)
    requires WellFormed(m.journal, m.groupId) && m.journal.operations != []
    requires Active(m.journal) || Last(m.journal).phase.ReconciliationRequired?
    ensures var v := Last(m.journal);
            var p := if v.phase.NotCommitted? then Aborted else ReconciliationRequired;
            var (n, r) := Transit(m, v.operationId, p);
            && r.Ok?
            && n == (if v.phase.ReconciliationRequired? then m
                     else PersistJournal(m, WithLast(m.journal, v.(phase := p))))
            && WellFormed(n.journal, m.groupId) && !Active(n.journal)
  {
    var v := Last(m.journal);
    if v.phase.ReconciliationRequired? {
      LastHas(m.journal, m.groupId);
    } else {
      var p := if v.phase.NotCommitted? then Aborted else ReconciliationRequired;
      TransitLast(m, p);
      WithLastWellFormed(m.journal, m.groupId, v.(phase := p));
    }
  }

  /** The state after the vault check of a reconciliation. */
  function Checked(st: St): St
    requires st.journal.operations != []
  {
    var u := Last(st.journal);
    var q := CheckedPhase(u, st.disk.vault);
    if u.snapshot.Some? && u.phase.IsPrecommit() && u.phase != q then
      PersistJournal(st, WithLast(st.journal, u.(phase := q)))
    else st
  }

  /** The phase the vault check of a reconciliation leaves. */
  function CheckedPhase(u: Operation, vault: Option<VaultFile>): Phase {
    if RecoveredPhase(u, vault).Aborted? then NotCommitted else RecoveredPhase(u, vault)
  }

  lemma CheckedPhaseKinds(u: Operation, vault: Option<VaultFile>)
    requires u.snapshot.Some? && u.phase.IsPrecommit()
    ensures var q := CheckedPhase(u, vault); q.NotCommitted? || q.Committed? || q.ReconciliationRequired?
  {
  }

  lemma CheckedJournal(st: St)
    requires WellFormed(st.journal, st.groupId) && Active(st.journal)
    ensures var m := Checked(st);
            && m.groupId == st.groupId && WellFormed(m.journal, m.groupId) && m.journal.operations != []
            && (Active(m.journal) || Last(m.journal).phase.ReconciliationRequired?)
            && Last(m.journal).operationId == Last(st.journal).operationId
  {
    var u := Last(st.journal);
    var o := u.(phase := CheckedPhase(u, st.disk.vault));
    if u.snapshot.Some? && u.phase.IsPrecommit() {
      CheckedPhaseKinds(u, st.disk.vault);
      assert o.AsRequest() == u.AsRequest();
      WithLastWellFormed(st.journal, st.groupId, o);
      assert Checked(st) == st || Checked(st) == PersistJournal(st, WithLast(st.journal, o));
    } else {
      assert Checked(st) == st;
    }
  }

  lemma CheckedByRecovery(st: St)
    requires WellFormed(st.journal, st.groupId) && Active(st.journal) && Last(st.journal).snapshot.Some?
    requires Last(st.journal).phase.IsPrecommit()
    ensures RecoverVaultPhase(st, Last(st.journal).operationId).0 == Checked(st)
    ensures RecoverVaultPhase(st, Last(st.journal).operationId).1.Ok?
  {
    RecoverPhaseSettles(st);
  }

  lemma CheckedShape(st: St)
    requires WellFormed(st.journal, st.groupId) && Active(st.journal)
    ensures var m := Checked(st);
            && m.groupId == st.groupId && WellFormed(m.journal, m.groupId) && m.journal.operations != []
            && (Active(m.journal) || Last(m.journal).phase.ReconciliationRequired?)
            && Last(m.journal).operationId == Last(st.journal).operationId
            && ReconcileOne(st, Last(st.journal).operationId) ==
                 Transit(m, Last(m.journal).operationId,
                         if Last(m.journal).phase.NotCommitted? then Aborted else ReconciliationRequired)
  {
    CheckedJournal(st);
    LastHas(st.journal, st.groupId);
    LastHas(Checked(st).journal, st.groupId);
    if Last(st.journal).snapshot.Some? && Last(st.journal).phase.IsPrecommit() { CheckedByRecovery(st); }
  }

  lemma ReconcileOneResolves(st: St)
    requires WellFormed(st.journal, st.groupId) && Active(st.journal)
    ensures var (n, r) := ReconcileOne(st, Last(st.journal).operationId);
            r.Ok? && WellFormed(n.journal, st.groupId) && !Active(n.journal)
  {
    CheckedShape(st);
    GiveUpLast(Checked(st));
  }

  /** The last operation is found by its own id. */
  lemma LastHas(j: Journal, groupId: Uuid)
    requires WellFormed(j, groupId) && j.operations != []
    ensures Has(j, Last(j).operationId) && Get(j, Last(j).operationId) == Last(j)
  {
    var k := IndexOf(j.operations, Last(j).operationId);
    assert OperationsValid(j.operations, j.highWater, groupId);
    assert k <= |j.operations| - 1;
  }
}
