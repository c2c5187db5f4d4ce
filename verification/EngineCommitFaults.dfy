/** A commit whose vault write fails while the process goes on (native-host/src/operation/coordinator.rs,
    native-host/src/atomic_file.rs). */
module EngineCommitFaults {
  import opened Base
  import opened JournalModel
  import opened EngineSpec
  import opened EngineInvariant
  import opened EngineSafety
  import opened EngineRuns
  import AF = AtomicFile

  /** The vault after the write. */
  function VaultAfter(vault: Option<VaultFile>, p: Prepared, fault: AF.Fault): Option<VaultFile> {
    if !p.commitRequired then vault else AF.Outcome(vault, false, p.bytes, true, fault).1
  }

  function Written(vault: Option<VaultFile>, p: Prepared, fault: AF.Fault): AF.DurableWriteResult {
    if !p.commitRequired then AF.Committed else AF.Outcome(vault, false, p.bytes, true, fault).0
  }

  lemma ReplaceShape(st: St, p: Prepared, fault: AF.Fault)
    ensures var (n, written) := ReplaceVault(st, p, fault);
            && written == Written(st.disk.vault, p, fault) && n.disk.vault == VaultAfter(st.disk.vault, p, fault)
            && (n == st || n == WriteVault(st, Some(p.bytes)))
            && (n.disk.vault == st.disk.vault || n.disk.vault == Some(p.bytes))
  {
  }

  /** Without a fault the commit is the one of the runs. */
  lemma NoFaultIsCommit(st: St, id: Uuid, cookies: seq<CookieRecord>, p: Prepared, readFails: bool)
    ensures CommitWithFault(st, id, cookies, p, AF.NoFault, readFails) == CommitSnapshot(st, id, cookies, p)
  {
  }

  lemma FaultShape(st: St, id: Uuid, cookies: seq<CookieRecord>, p: Prepared, fault: AF.Fault, readFails: bool)
    requires WellFormed(st.journal, st.groupId) && CanCommit(st, id) && Last(st.journal).phase.NotCommitted?
    ensures var st2 := AfterPhase(AfterBind(st, BindingFor(st, cookies, p)), DurabilityUnknown);
            var (st3, written) := ReplaceVault(st2, p, fault);
            && CommitWithFault(st, id, cookies, p, fault, readFails) ==
                 SettleWrite(st3, id, written, p.vaultSequence, readFails)
            && WellFormed(st3.journal, st.groupId) && Active(st3.journal) && st3.groupId == st.groupId
            && Last(st3.journal) == Bound(Last(st.journal), BindingFor(st, cookies, p)).(phase := DurabilityUnknown)
  {
    var b := BindingFor(st, cookies, p);
    LastIndex(st.journal, st.groupId, id);
    BindShape(st, b);
    PhaseShape(AfterBind(st, b), DurabilityUnknown);
    ReplaceShape(AfterPhase(AfterBind(st, b), DurabilityUnknown), p, fault);
  }

  /** The phase in which the commit leaves the operation. */
  function SettledPhase(vault: Option<VaultFile>, p: Prepared, fault: AF.Fault, readFails: bool): Phase {
    match Written(vault, p, fault)
    case Committed => Committed
    case NotCommitted => NotCommitted
    case DurabilityUnknown =>
      if readFails then DurabilityUnknown
      else if VaultAfter(vault, p, fault) == Some(p.bytes) then Committed
      else NotCommitted
  }

  /** The last write, as a phase change of the operation. */
  lemma SettleShape(st: St, vault: Option<VaultFile>, p: Prepared, fault: AF.Fault, readFails: bool)
    requires WellFormed(st.journal, st.groupId) && Active(st.journal) && Last(st.journal).phase.DurabilityUnknown?
    requires Last(st.journal).snapshot.Some? && st.disk.vault == VaultAfter(vault, p, fault)
    requires Last(st.journal).snapshot.value.targetDigest == Digest(p.bytes)
    requires Last(st.journal).snapshot.value.previousDigest == VaultDigest(vault)
    ensures var q := SettledPhase(vault, p, fault, readFails);
            var (n, r) := SettleWrite(st, Last(st.journal).operationId, Written(vault, p, fault), p.vaultSequence,
                                      readFails);
            && n == (if q.DurabilityUnknown? then st else AfterPhase(st, q))
            && r == (if q.Committed? then Ok(p.vaultSequence) else Err(Io))
  {
    match Written(vault, p, fault)
    case Committed => PhaseShape(st, Committed);
    case NotCommitted => PhaseShape(st, NotCommitted);
    case DurabilityUnknown => if !readFails { RecoverPhaseSettles(st); }
  }

  /** For every fault of the vault write and of the read that settles it: every durable state keeps the
      disk invariant, the vault holds the previous or the prepared bytes, and the commit reports success
      if and only if it left the operation Committed, which implies that the vault holds the target. A
      reported failure with the target in the vault is possible only when the rename was visible, its
      sync failed and the read failed too; the phase then stays DurabilityUnknown. */
  lemma FaultyCommit(st: St, id: Uuid, cookies: seq<CookieRecord>, nonce: nat, fits: bool, fault: AF.Fault,
                     readFails: bool)
    requires HostInv(st) && st.log == [] && CanCommit(st, id)
    requires PrepareAfterSnapshot(st.disk.vault, cookies, nonce, fits).Ok?
    ensures var p := PrepareAfterSnapshot(st.disk.vault, cookies, nonce, fits).value;
            var (n, r) := CommitWithFault(st, id, cookies, p, fault, readFails);
            && Good(st.disk, n) && n.groupId == st.groupId && n.disk.vault == VaultAfter(st.disk.vault, p, fault)
            && (n.disk.vault == st.disk.vault || n.disk.vault == Some(p.bytes))
            && Active(n.journal) && Last(n.journal).operationId == id
            && Last(n.journal).phase == (if !p.commitRequired || fault.NoFault? then Committed
                                         else if !fault.SyncFailed? then NotCommitted
                                         else if readFails then DurabilityUnknown
                                         else if fault.visible then Committed
                                         else NotCommitted)
            && Last(n.journal).snapshot.Some? && Last(n.journal).snapshot.value.tag.snapshot == cookies
            && (r.Ok? <==> Last(n.journal).phase.Committed?)
            && (r.Ok? ==> r.value == p.vaultSequence && n.disk.vault == Some(p.bytes))
            && (r.Err? && n.disk.vault == Some(p.bytes) <==>
                  p.commitRequired && fault.SyncFailed? && fault.visible && readFails)
  {
    var p := PrepareAfterSnapshot(st.disk.vault, cookies, nonce, fits).value;
    PreparedTrue(st.disk.vault, cookies, nonce, fits);
    PreparedIsNew(st.disk.vault, cookies, nonce, fits);
    SettledMeaning(st.disk.vault, p, fault, readFails);
    FaultyChain(st, id, cookies, p, fault, readFails);
  }

  lemma SettledMeaning(vault: Option<VaultFile>, p: Prepared, fault: AF.Fault, readFails: bool)
    requires p.commitRequired ==> vault != Some(p.bytes)
    requires !p.commitRequired ==> vault == Some(p.bytes)
    ensures var q, v := SettledPhase(vault, p, fault, readFails), VaultAfter(vault, p, fault);
            && q == (if !p.commitRequired || fault.NoFault? then Committed
                     else if !fault.SyncFailed? then NotCommitted
                     else if readFails then DurabilityUnknown
                     else if fault.visible then Committed
                     else NotCommitted)
            && (v == vault || v == Some(p.bytes))
            && (q.Committed? ==> v == Some(p.bytes))
            && (!q.Committed? && v == Some(p.bytes) <==>
                  p.commitRequired && fault.SyncFailed? && fault.visible && readFails)
  {
  }

  lemma FaultyChain(st: St, id: Uuid, cookies: seq<CookieRecord>, p: Prepared, fault: AF.Fault, readFails: bool)
    requires HostInv(st) && st.log == [] && CanCommit(st, id)
    requires p.previousDigest == VaultDigest(st.disk.vault) && p.targetDigest == Digest(p.bytes)
    requires p.bytes.Record? && p.bytes.vaultSequence == p.vaultSequence
    requires p.commitRequired ==> p.bytes.cookies == cookies
    requires !p.commitRequired ==> cookies == [] && p.previousDigest == Some(p.targetDigest)
    ensures var q := SettledPhase(st.disk.vault, p, fault, readFails);
            var (n, r) := CommitWithFault(st, id, cookies, p, fault, readFails);
            && Good(st.disk, n) && n.groupId == st.groupId && n.disk.vault == VaultAfter(st.disk.vault, p, fault)
            && Active(n.journal) && Last(n.journal).operationId == id && Last(n.journal).phase == q
            && Last(n.journal).snapshot == Some(BindingFor(st, cookies, p))
            && r == (if q.Committed? then Ok(p.vaultSequence) else Err(Io))
  {
    var b := BindingFor(st, cookies, p);
    Start(st);
    HostReady(st, cookies, p);
    FaultShape(st, id, cookies, p, fault, readFails);
    MarkedGood(st, p, b);
    var st2 := AfterPhase(AfterBind(st, b), DurabilityUnknown);
    var st3 := ReplaceVault(st2, p, fault).0;
    ReplaceShape(st2, p, fault);
    ReplacedGood(st.disk, st2, p, fault);
    SettleShape(st3, st.disk.vault, p, fault, readFails);
    SettledGood(st.disk, st3, st.disk.vault, p, fault, readFails);
  }

  /** A commit that needs a write writes a record that was not there before. */
  lemma PreparedIsNew(vault: Option<VaultFile>, cookies: seq<CookieRecord>, nonce: nat, fits: bool)
    requires PrepareAfterSnapshot(vault, cookies, nonce, fits).Ok?
    ensures var p := PrepareAfterSnapshot(vault, cookies, nonce, fits).value;
            && (p.commitRequired ==> vault != Some(p.bytes))
            && (!p.commitRequired ==> vault == Some(p.bytes))
  {
  }

  lemma MarkedGood(st: St, p: Prepared, b: Binding)
    requires Good(st.disk, st) && ReadyToCommit(st, p, b) && Last(st.journal).phase.NotCommitted?
    ensures var n := AfterPhase(AfterBind(st, b), DurabilityUnknown);
            && Good(st.disk, n) && Active(n.journal)
            && Last(n.journal) == Bound(Last(st.journal), b).(phase := DurabilityUnknown)
            && n.disk.vault == st.disk.vault && n.disk.lease == st.disk.lease && n.groupId == st.groupId
            && |n.journal.operations| == |st.journal.operations|
  {
    BindGood(st.disk, st, p, b);
    PhaseGood(st.disk, AfterBind(st, b), DurabilityUnknown);
  }

  lemma ReplacedGood(d0: Disk, st: St, p: Prepared, fault: AF.Fault)
    requires Good(d0, st) && Active(st.journal) && Last(st.journal).snapshot.Some?
    requires Last(st.journal).phase.IsPrecommit()
    requires p.bytes.Record? && Digest(p.bytes) == Last(st.journal).snapshot.value.targetDigest
    requires LeaseNames(st.disk.lease, Last(st.journal).operationId)
    ensures var n := ReplaceVault(st, p, fault).0;
            Good(d0, n) && n.journal == st.journal && n.disk.lease == st.disk.lease && n.groupId == st.groupId
  {
    ReplaceShape(st, p, fault);
    WriteGood(d0, st, st.disk.(vault := Some(p.bytes)));
  }

  lemma SettledGood(d0: Disk, st: St, vault: Option<VaultFile>, p: Prepared, fault: AF.Fault, readFails: bool)
    requires Good(d0, st) && Active(st.journal) && Last(st.journal).snapshot.Some?
    requires Last(st.journal).phase.DurabilityUnknown?
    requires |d0.journal.operations| == |st.journal.operations|
    requires Last(d0.journal).snapshot.None? && Last(d0.journal).phase.NotCommitted?
    requires Last(st.journal).snapshot.value.targetDigest == Digest(p.bytes)
    requires st.disk.vault == VaultAfter(vault, p, fault) && (!p.commitRequired ==> vault == Some(p.bytes))
    ensures var q := SettledPhase(vault, p, fault, readFails);
            var n := if q.DurabilityUnknown? then st else AfterPhase(st, q);
            Good(d0, n) && Active(n.journal) && Last(n.journal) == Last(st.journal).(phase := q)
            && n.disk.vault == st.disk.vault && n.groupId == st.groupId
  {
    var q := SettledPhase(vault, p, fault, readFails);
    if !q.DurabilityUnknown? { PhaseGood(d0, st, q); }
  }

  /** Startup on a disk in the middle of a commit goes by the vault. */
  lemma RestartSettles(groupId: Uuid, monitoringOnly: bool, d: Disk, vault: Option<VaultFile>, bytes: VaultFile)
    requires DiskInv(d, groupId) && Active(d.journal) && Last(d.journal).snapshot.Some?
    requires Last(d.journal).snapshot.value.targetDigest == Digest(bytes)
    requires Last(d.journal).snapshot.value.previousDigest == VaultDigest(vault)
    requires d.vault == vault || d.vault == Some(bytes)
    requires Last(d.journal).phase.IsPrecommit() || (Last(d.journal).phase.Committed? && d.vault == Some(bytes))
    ensures var (n, r) := Open(groupId, monitoringOnly, d);
            && r.Ok? && n.disk.vault == d.vault && n.journal.operations != []
            && Last(n.journal).operationId == Last(d.journal).operationId
            && (Last(n.journal).phase.Committed? <==> d.vault == Some(bytes))
            && (!Last(n.journal).phase.Committed? ==> Last(n.journal).phase.Aborted?)
  {
    OpenSettles(groupId, monitoringOnly, d);
  }

  lemma SettledKinds(vault: Option<VaultFile>, p: Prepared, fault: AF.Fault, readFails: bool)
    ensures var q := SettledPhase(vault, p, fault, readFails); q.Committed? || q.IsPrecommit()
  {
  }

  /** Whatever the faults, a restart afterwards marks the operation Committed if and only if the vault
      holds the target, and Aborted otherwise. */
  lemma RestartAfterFaultyCommit(st: St, id: Uuid, cookies: seq<CookieRecord>, nonce: nat, fits: bool, fault: AF.Fault,
                                 readFails: bool, monitoringOnly: bool)
    requires HostInv(st) && st.log == [] && CanCommit(st, id)
    requires PrepareAfterSnapshot(st.disk.vault, cookies, nonce, fits).Ok?
    ensures var p := PrepareAfterSnapshot(st.disk.vault, cookies, nonce, fits).value;
            var d := CommitWithFault(st, id, cookies, p, fault, readFails).0.disk;
            var (n, r) := Open(st.groupId, monitoringOnly, d);
            && r.Ok? && n.disk.vault == d.vault && n.journal.operations != [] && Last(n.journal).operationId == id
            && (Last(n.journal).phase.Committed? <==> d.vault == Some(p.bytes))
            && (!Last(n.journal).phase.Committed? ==> Last(n.journal).phase.Aborted?)
  {
    var p := PrepareAfterSnapshot(st.disk.vault, cookies, nonce, fits).value;
    PreparedTrue(st.disk.vault, cookies, nonce, fits);
    PreparedIsNew(st.disk.vault, cookies, nonce, fits);
    SettledMeaning(st.disk.vault, p, fault, readFails);
    FaultyChain(st, id, cookies, p, fault, readFails);
    SettledKinds(st.disk.vault, p, fault, readFails);
    var m := CommitWithFault(st, id, cookies, p, fault, readFails).0;
    RestartSettles(st.groupId, monitoringOnly, m.disk, st.disk.vault, p.bytes);
  }
}
