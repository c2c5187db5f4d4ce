/** Whole runs of the engine: any sequence of startups, messages and crashes, a crash falling
    between any two writes of a handler or of startup itself. */
module EngineRuns {
  import opened Base
  import opened JournalModel
  import opened EngineSpec
  import opened EngineInvariant
  import opened EngineSafety

  /** The host is down and only the disk is left, or it is up and at rest. */
  datatype World = Down(disk: Disk) | Up(st: St)

  function DiskOf(w: World): Disk { if w.Down? then w.disk else w.st.disk }

  datatype Event =
    | Startup(monitoringOnly: bool)
    | StartupCrash(monitoringOnly: bool, writes: nat)
    | Deliver(message: Message, env: Env)
    | DeliverCrash(message: Message, env: Env, writes: nat)

  /** The disk after a crash that lets the first `writes` of the logged writes through. */
  function CrashDisk(d: Disk, log: seq<Disk>, writes: nat): Disk {
    if writes == 0 || log == [] then d
    else if writes <= |log| then log[writes - 1]
    else log[|log| - 1]
  }

  function Step(groupId: Uuid, w: World, e: Event): World {
    match (w, e)
    case (Down(d), Startup(monitoringOnly)) =>
      var (st, r) := Open(groupId, monitoringOnly, d);
      if r.Ok? then Up(st.(log := [])) else Down(st.disk)
    case (Down(d), StartupCrash(monitoringOnly, writes)) =>
      Down(CrashDisk(d, Open(groupId, monitoringOnly, d).0.log, writes))
    case (Up(st), Deliver(m, env)) => Up(Handle(st, m, env).0.(log := []))
    case (Up(st), DeliverCrash(m, env, writes)) => Down(CrashDisk(st.disk, Handle(st, m, env).0.log, writes))
    case _ => w
  }

  function Run(groupId: Uuid, events: seq<Event>): World {
    if events == [] then Down(EmptyDisk(groupId))
    else Step(groupId, Run(groupId, events[..|events| - 1]), events[|events| - 1])
  }

  predicate WorldInv(groupId: Uuid, w: World) {
    match w
    case Down(d) => DiskInv(d, groupId)
    case Up(st) => HostInv(st) && st.log == [] && st.groupId == groupId
  }

  lemma CrashDiskGood(d: Disk, st: St, writes: nat)
    requires Good(d, st) && DiskInv(d, st.groupId)
    ensures DiskInv(CrashDisk(d, st.log, writes), st.groupId)
    ensures Evolves(d.journal, CrashDisk(d, st.log, writes).journal)
  {
    EvolvesReflexive(d.journal);
  }

  lemma DownSafe(groupId: Uuid, d: Disk, e: Event)
    requires DiskInv(d, groupId) && (e.Startup? || e.StartupCrash?)
    ensures var n := Step(groupId, Down(d), e);
            WorldInv(groupId, n) && Evolves(d.journal, DiskOf(n).journal)
  {
    OpenSafe(groupId, e.monitoringOnly, d);
    if e.StartupCrash? {
      CrashDiskGood(d, Open(groupId, e.monitoringOnly, d).0, e.writes);
    }
  }

  lemma HandledSafe(groupId: Uuid, st: St, n: St, writes: nat)
    requires HostInv(st) && st.groupId == groupId && Safe(st.disk, n)
    ensures WorldInv(groupId, Up(n.(log := []))) && WorldInv(groupId, Down(CrashDisk(st.disk, n.log, writes)))
    ensures Evolves(st.disk.journal, n.disk.journal)
    ensures Evolves(st.disk.journal, CrashDisk(st.disk, n.log, writes).journal)
  {
    SameGroup(st, n);
    CrashDiskGood(st.disk, n, writes);
  }

  lemma SameGroup(st: St, n: St)
    requires HostInv(st) && Safe(st.disk, n)
    ensures n.groupId == st.groupId
  {
  }

  lemma StepSafe(groupId: Uuid, w: World, e: Event)
    requires WorldInv(groupId, w)
    ensures WorldInv(groupId, Step(groupId, w, e)) && Evolves(DiskOf(w).journal, DiskOf(Step(groupId, w, e)).journal)
  {
    EvolvesReflexive(DiskOf(w).journal);
    if w.Down? && (e.Startup? || e.StartupCrash?) {
      DownSafe(groupId, w.disk, e);
    } else if w.Up? && e.Deliver? {
      HandleSafe(w.st, e.message, e.env);
      HandledSafe(groupId, w.st, Handle(w.st, e.message, e.env).0, 0);
    } else if w.Up? && e.DeliverCrash? {
      HandleSafe(w.st, e.message, e.env);
      HandledSafe(groupId, w.st, Handle(w.st, e.message, e.env).0, e.writes);
    }
  }

  // ---------------------------------------------------------------------------------------------
  // Theorems about every run
  // ---------------------------------------------------------------------------------------------

  lemma {:induction false} EmptyDiskInv(groupId: Uuid)
    ensures DiskInv(EmptyDisk(groupId), groupId)
  {
  }

  /** The invariant holds at the end of every run, including runs that end in a crash. */
  lemma {:induction false} RunSafe(groupId: Uuid, events: seq<Event>)
    ensures WorldInv(groupId, Run(groupId, events))
  {
    if events == [] {
      EmptyDiskInv(groupId);
    } else {
      RunSafe(groupId, events[..|events| - 1]);
      StepSafe(groupId, Run(groupId, events[..|events| - 1]), events[|events| - 1]);
    }
  }

  /** Startup never refuses the disk a run leaves, and puts journal, vault and lease in agreement:
      an unresolved operation is committed with its target on disk, and the lease is degraded with
      that operation's id and vault sequence. */
  lemma StartupAfterAnyRun(groupId: Uuid, events: seq<Event>, monitoringOnly: bool)
    requires Run(groupId, events).Down?
    ensures var w := Run(groupId, events + [Startup(monitoringOnly)]);
            && w.Up? && AfterOpen(w.st) && w.st.disk.vault == Run(groupId, events).disk.vault
            && (HasUnresolved(w.st.journal) <==> Active(w.st.journal))
  {
    var all := events + [Startup(monitoringOnly)];
    assert all[..|all| - 1] == events;
    RunSafe(groupId, events);
    OpenSafe(groupId, monitoringOnly, Run(groupId, events).disk);
    var st := Open(groupId, monitoringOnly, Run(groupId, events).disk).0;
    LastIndex(st.journal, groupId, NIL);
  }

  /** An uninitialized lease never coexists with a vault file, at any crash point of any run. */
  lemma VaultIsNeverUnclaimed(groupId: Uuid, events: seq<Event>)
    ensures var d := DiskOf(Run(groupId, events));
            d.vault.Some? ==> d.lease.Some? && !d.lease.value.state.Uninitialized?
  {
    RunSafe(groupId, events);
  }

  /** Every journal of every run has sequences 1..high-water, distinct operation and attempt ids, at
      most one unresolved operation which is the last, and no unbound DurabilityUnknown. */
  lemma JournalOfEveryRun(groupId: Uuid, events: seq<Event>)
    ensures var j := DiskOf(Run(groupId, events)).journal;
            && SequencesExact(j)
            && (forall a, b :: 0 <= a < b < |j.operations| ==>
                  j.operations[a].operationId != j.operations[b].operationId)
            && AttemptsDistinct(j.operations)
            && OnlyLastUnresolved(j.operations)
            && UnknownIsBound(j.operations)
  {
    RunSafe(groupId, events);
  }

  /** Along a run operations are only appended; identities and bound snapshots are write-once and
      terminal phases absorbing. */
  lemma {:induction false} RunEvolves(groupId: Uuid, events: seq<Event>, n: nat)
    requires n <= |events|
    ensures Evolves(DiskOf(Run(groupId, events[..n])).journal, DiskOf(Run(groupId, events)).journal)
    decreases |events|
  {
    if n == |events| {
      assert events[..n] == events;
      EvolvesReflexive(DiskOf(Run(groupId, events)).journal);
    } else {
      var before := events[..|events| - 1];
      assert before[..n] == events[..n];
      RunEvolves(groupId, before, n);
      RunSafe(groupId, before);
      StepSafe(groupId, Run(groupId, before), events[|events| - 1]);
      EvolvesTransitive(DiskOf(Run(groupId, before[..n])).journal, DiskOf(Run(groupId, before)).journal,
                        DiskOf(Run(groupId, events)).journal);
    }
  }

  /** An operation that a crash or a startup leaves in Committed never completes in any
      continuation of the run: it stays Committed or is given up. */
  lemma RestingCommittedNeverCompletes(groupId: Uuid, events: seq<Event>, n: nat, i: nat)
    requires n <= |events|
    requires var ops := DiskOf(Run(groupId, events[..n])).journal.operations;
             i < |ops| && ops[i].phase.Committed?
    ensures var ops := DiskOf(Run(groupId, events)).journal.operations;
            i < |ops| && (ops[i].phase.Committed? || ops[i].phase.ReconciliationRequired?)
  {
    RunEvolves(groupId, events, n);
    assert OperationEvolves(DiskOf(Run(groupId, events[..n])).journal.operations[i],
                            DiskOf(Run(groupId, events)).journal.operations[i]);
  }

  /** What a begin that creates an operation leaves in the journal, and its answer. */
  lemma NewBeginShape(st: St, attempt: Uuid, kind: Kind, leaseId: Option<Uuid>, reason: string, env: Env)
    requires IndexOfAttempt(st.journal.operations, attempt) == |st.journal.operations|
    requires HandleOperationBegin(st, attempt, kind, leaseId, reason, env).1.Ok?
    ensures var (n, r) := HandleOperationBegin(st, attempt, kind, leaseId, reason, env);
            && |n.journal.operations| == |st.journal.operations| + 1
            && n.journal.operations[..|st.journal.operations|] == st.journal.operations
            && var o := n.journal.operations[|st.journal.operations|];
               && o.attemptId == Some(attempt) && o.kind == kind && o.leaseId == leaseId && o.reason == reason
               && o.phase.NotCommitted?
               && r == Ok([SnapshotRequired(o.operationId, o.sequence, leaseId, Some(attempt))])
  {
  }

  /** Repeating a begin with an attempt the journal knows writes nothing and creates nothing; right
      after the begin that created the operation it answers with the same operation. */
  lemma RepeatedBeginIsIdempotent(st: St, attempt: Uuid, kind: Kind, leaseId: Option<Uuid>, reason: string, env: Env,
                                  again: Env)
    ensures var (n, r) := HandleOperationBegin(st, attempt, kind, leaseId, reason, env);
            && (r.Ok? ==> HandleOperationBegin(n, attempt, kind, leaseId, reason, again) == (n, r))
            && (IndexOfAttempt(st.journal.operations, attempt) < |st.journal.operations| ==> n == st)
  {
    var (n, r) := HandleOperationBegin(st, attempt, kind, leaseId, reason, env);
    var ops, all := st.journal.operations, n.journal.operations;
    if IndexOfAttempt(ops, attempt) == |ops| && r.Ok? {
      NewBeginShape(st, attempt, kind, leaseId, reason, env);
      forall i | 0 <= i < |ops|
        ensures all[i].attemptId != Some(attempt)
      {
        assert all[i] == all[..|ops|][i];
      }
      assert IndexOfAttempt(all, attempt) == |ops|;
    }
  }

  // ---------------------------------------------------------------------------------------------
  // Crashes inside a commit
  // ---------------------------------------------------------------------------------------------

  /** The disks a commit passes through, in order. */
  lemma CommitLog(st: St, id: Uuid, cookies: seq<CookieRecord>, p: Prepared)
    requires HostInv(st) && st.log == [] && CanCommit(st, id)
    ensures var u := Last(st.journal);
            var bound := Bound(u, BindingFor(st, cookies, p));
            var d1 := st.disk.(journal := WithLast(st.journal, bound));
            var d2 := st.disk.(journal := WithLast(st.journal, bound.(phase := DurabilityUnknown)));
            var vault := if p.commitRequired then Some(p.bytes) else st.disk.vault;
            var d3 := d2.(vault := vault);
            var d4 := d3.(journal := WithLast(st.journal, bound.(phase := Committed)));
            CommitSnapshot(st, id, cookies, p).0.log == if p.commitRequired then [d1, d2, d3, d4] else [d1, d2, d4]
  {
    assert OperationValid(Last(st.journal), st.groupId);
    CommitShape(st, id, cookies, p);
    ChainLog(st, p, BindingFor(st, cookies, p));
  }

  lemma ChainLog(st: St, p: Prepared, b: Binding)
    requires st.journal.operations != [] && st.log == []
    ensures var bound := Bound(Last(st.journal), b);
            var d1 := st.disk.(journal := WithLast(st.journal, bound));
            var d2 := st.disk.(journal := WithLast(st.journal, bound.(phase := DurabilityUnknown)));
            var d3 := d2.(vault := if p.commitRequired then Some(p.bytes) else st.disk.vault);
            var d4 := d3.(journal := WithLast(st.journal, bound.(phase := Committed)));
            AfterVault(AfterBind(st, b), p).log == if p.commitRequired then [d1, d2, d3, d4] else [d1, d2, d4]
  {
    var bound := Bound(Last(st.journal), b);
    LastTwice(st.journal, bound, bound.(phase := DurabilityUnknown));
    LastTwice(st.journal, bound.(phase := DurabilityUnknown), bound.(phase := Committed));
  }

  lemma LastTwice(j: Journal, a: Operation, b: Operation)
    requires j.operations != []
    ensures WithLast(WithLast(j, a), b) == WithLast(j, b) && Last(WithLast(j, a)) == a
  {
  }

  /** What every crash point after the first write of a commit has in common. */
  predicate MidCommit(d: Disk, st: St, id: Uuid, p: Prepared) {
    && Active(d.journal) && Last(d.journal).operationId == id && Last(d.journal).snapshot.Some?
    && var s := Last(d.journal).snapshot.value;
    && s.targetDigest == Digest(p.bytes) && s.previousDigest == VaultDigest(st.disk.vault)
    && (d.vault == st.disk.vault || d.vault == Some(p.bytes))
    && (Last(d.journal).phase.IsPrecommit() || (Last(d.journal).phase.Committed? && d.vault == Some(p.bytes)))
  }

  lemma CommitCrashStates(st: St, id: Uuid, cookies: seq<CookieRecord>, p: Prepared, writes: nat)
    requires HostInv(st) && st.log == [] && CanCommit(st, id) && writes > 0
    requires p.previousDigest == VaultDigest(st.disk.vault) && p.targetDigest == Digest(p.bytes)
    requires !p.commitRequired ==> p.previousDigest == Some(p.targetDigest)
    ensures MidCommit(CrashDisk(st.disk, CommitSnapshot(st, id, cookies, p).0.log, writes), st, id, p)
  {
    CommitLog(st, id, cookies, p);
    var b := BindingFor(st, cookies, p);
    var vault := if p.commitRequired then Some(p.bytes) else st.disk.vault;
    MidCommitDisk(st, id, p, b, NotCommitted, st.disk.vault);
    MidCommitDisk(st, id, p, b, DurabilityUnknown, st.disk.vault);
    MidCommitDisk(st, id, p, b, DurabilityUnknown, vault);
    MidCommitDisk(st, id, p, b, Committed, vault);
  }

  lemma MidCommitDisk(st: St, id: Uuid, p: Prepared, b: Binding, phase: Phase, vault: Option<VaultFile>)
    requires Active(st.journal) && Last(st.journal).operationId == id
    requires b.targetDigest == Digest(p.bytes) && b.previousDigest == VaultDigest(st.disk.vault)
    requires vault == st.disk.vault || vault == Some(p.bytes)
    requires phase.IsPrecommit() || (phase.Committed? && vault == Some(p.bytes))
    ensures MidCommit(st.disk.(journal := WithLast(st.journal, Bound(Last(st.journal), b).(phase := phase)),
                               vault := vault), st, id, p)
  {
  }

  /** Startup leaves the last operation in the phase recovery computes from the vault. */
  lemma OpenSettles(groupId: Uuid, monitoringOnly: bool, d: Disk)
    requires DiskInv(d, groupId) && Active(d.journal)
    ensures var (n, r) := Open(groupId, monitoringOnly, d);
            && r.Ok? && n.disk.vault == d.vault
            && n.journal == WithLast(d.journal, Last(d.journal).(phase := RecoveredPhase(Last(d.journal), d.vault)))
  {
    OpenSafe(groupId, monitoringOnly, d);
    OpenShape(groupId, monitoringOnly, d);
    LoadLeaseGood(groupId, monitoringOnly, d);
    RecoveredWellFormed(LoadLease(Boot(groupId, monitoringOnly, d)).0);
  }

  lemma CommitStatesGood(st: St, id: Uuid, cookies: seq<CookieRecord>, nonce: nat, fits: bool, writes: nat)
    requires HostInv(st) && st.log == [] && CanCommit(st, id)
    requires PrepareAfterSnapshot(st.disk.vault, cookies, nonce, fits).Ok?
    ensures var p := PrepareAfterSnapshot(st.disk.vault, cookies, nonce, fits).value;
            var d := CrashDisk(st.disk, CommitSnapshot(st, id, cookies, p).0.log, writes);
            && DiskInv(d, st.groupId)
            && (writes > 0 ==> MidCommit(d, st, id, p))
            && (writes == 0 ==> d == st.disk)
  {
    var p := PrepareAfterSnapshot(st.disk.vault, cookies, nonce, fits).value;
    PreparedTrue(st.disk.vault, cookies, nonce, fits);
    CommitGood(st, st, id, cookies, p);
    CrashDiskGood(st.disk, CommitSnapshot(st, id, cookies, p).0, writes);
    if writes > 0 {
      CommitCrashStates(st, id, cookies, p, writes);
    }
  }

  /** A crash at any point of a commit leaves exactly the previous or the prepared bytes. Startup
      then marks the operation Committed iff the vault holds the target, Aborted otherwise; before
      the binding is durable it always aborts, also for a commit that would not change the vault. */
  lemma CrashInsideCommit(st: St, id: Uuid, cookies: seq<CookieRecord>, nonce: nat, fits: bool, writes: nat,
                          monitoringOnly: bool)
    requires HostInv(st) && st.log == [] && CanCommit(st, id)
    requires PrepareAfterSnapshot(st.disk.vault, cookies, nonce, fits).Ok?
    ensures var p := PrepareAfterSnapshot(st.disk.vault, cookies, nonce, fits).value;
            var d := CrashDisk(st.disk, CommitSnapshot(st, id, cookies, p).0.log, writes);
            var (n, r) := Open(st.groupId, monitoringOnly, d);
            && (d.vault == st.disk.vault || d.vault == Some(p.bytes))
            && r.Ok? && n.disk.vault == d.vault
            && n.journal.operations != [] && Last(n.journal).operationId == id
            && (writes == 0 ==> Last(n.journal).phase.Aborted?)
            && (writes > 0 ==> (Last(n.journal).phase.Committed? <==> d.vault == Some(p.bytes)))
            && (!Last(n.journal).phase.Committed? ==> Last(n.journal).phase.Aborted? && d.vault == st.disk.vault)
  {
    var p := PrepareAfterSnapshot(st.disk.vault, cookies, nonce, fits).value;
    CommitStatesGood(st, id, cookies, nonce, fits, writes);
    OpenSettles(st.groupId, monitoringOnly, CrashDisk(st.disk, CommitSnapshot(st, id, cookies, p).0.log, writes));
  }

  // ---------------------------------------------------------------------------------------------
  // A crash between the journal's Completed write and the lease write
  // ---------------------------------------------------------------------------------------------

  /** The handler that completes an operation writes the journal, then the lease. */
  lemma CompletionShape(st: St, id: Uuid, leaseId: Option<Uuid>, success: bool, remaining: nat)
    requires HostInv(st) && st.log == []
    requires Active(st.journal) && HandleEvictResult(st, id, leaseId, success, remaining).1.Ok?
    requires EvictOutcome(st.pending.value, success, remaining).Completed?
    ensures var u := Last(st.journal);
            var n := HandleEvictResult(st, id, leaseId, success, remaining).0;
            var j := WithLast(st.journal, u.(phase := Completed));
            && u.operationId == id && u.phase.BrowserRemovalPending? && u.snapshot.Some?
            && |n.log| == 2 && n.log[0] == st.disk.(journal := j) && n.journal == j
            && n.lease == Advance(LeaseAfterResult(st.lease, u.kind, Completed))
            && DiskInv(n.log[0], st.groupId)
  {
    TransitionShape(st.journal, st.groupId, id, Completed);
    LastIndex(st.journal, st.groupId, id);
    assert OperationValid(Last(st.journal), st.groupId);
    EvictResultSafe(st, id, leaseId, success, remaining);
  }

  /** Opening a disk whose last operation is Completed but still named by the lease. */
  lemma OpenCompleted(groupId: Uuid, monitoringOnly: bool, d: Disk)
    requires DiskInv(d, groupId) && d.journal.operations != [] && Last(d.journal).phase.Completed?
    requires Last(d.journal).snapshot.Some?
    ensures var u := Last(d.journal);
            var (o, r) := Open(groupId, monitoringOnly, d);
            && r.Ok? && o.journal == d.journal
            && (d.vault.None? ==> o.lease.state.Uninitialized?)
            && (d.vault.Some? && d.lease.value.pendingOperationId == Some(u.operationId) ==>
                  var l := d.lease.value;
                  var l1 := if u.kind.Enrollment? then l.(state := Leased, leaseId := u.leaseId)
                            else NoLease(l).(state := Sealed);
                  o.lease == Advance(l1.(pendingOperationId := None,
                                         vaultSequence := u.snapshot.value.targetVaultSequence)))
  {
    OpenShape(groupId, monitoringOnly, d);
    LoadLeaseGood(groupId, monitoringOnly, d);
    LastHas(d.journal, groupId);
  }

  /** The crash is invisible exactly when the vault is there and, for an enrollment, the begin
      carried the granted lease id: startup then produces the very lease the uncrashed host wrote. */
  lemma CompletionCrashInvisible(st: St, id: Uuid, leaseId: Option<Uuid>, success: bool, remaining: nat,
                                 monitoringOnly: bool)
    requires HostInv(st) && st.log == []
    requires Active(st.journal) && HandleEvictResult(st, id, leaseId, success, remaining).1.Ok?
    requires EvictOutcome(st.pending.value, success, remaining).Completed?
    ensures var n := HandleEvictResult(st, id, leaseId, success, remaining).0;
            var (o, r) := Open(st.groupId, monitoringOnly, CrashDisk(st.disk, n.log, 1));
            && r.Ok? && o.journal == n.journal && Last(n.journal).phase.Completed?
            && (o.lease == n.lease <==>
                  st.disk.vault.Some?
                  && (Last(st.journal).kind.Enrollment? ==> st.lease.leaseId == Last(st.journal).leaseId))
  {
    CompletionShape(st, id, leaseId, success, remaining);
    var n := HandleEvictResult(st, id, leaseId, success, remaining).0;
    OpenCompleted(st.groupId, monitoringOnly, n.log[0]);
  }
}
