/** Which messages the host admits and what it answers, each as an exact condition on the message and the
    state before, and where an answer leads: what the host tells the extension to do next is what it then
    accepts (native-host/src/dispatcher.rs). */
module EngineAnswers {
  import opened Base
  import opened JournalModel
  import opened EngineSpec
  import opened EngineInvariant
  import opened EngineSafety
  import opened RemovalHost
  import opened CommitTransfer

  // ---------------------------------------------------------------------------------------------
  // Starting
  // ---------------------------------------------------------------------------------------------

  /** From any three files: startup refuses the lease file of another group, a vault that no lease knows and a
      journal that is not valid. */
  lemma OpenRefuses(groupId: Uuid, monitoringOnly: bool, d: Disk)
    ensures var refused :=
              && d.lease.Some?
              && (d.lease.value.groupId != groupId || (d.lease.value.state.Uninitialized? && d.vault.Some?));
            && (refused ==> Open(groupId, monitoringOnly, d).1.Err?)
            && (!JournalModel.Valid(d.journal, groupId) ==> Open(groupId, monitoringOnly, d).1.Err?)
            && (LoadLease(Boot(groupId, monitoringOnly, d)).1.Err? <==> refused)
  {
  }

  /** The lease that startup works from: the one in the file, or the first of a group where there is none or
      it has lost its vault. */
  lemma LoadedLease(groupId: Uuid, monitoringOnly: bool, d: Disk)
    requires LoadLease(Boot(groupId, monitoringOnly, d)).1.Ok?
    ensures var n := LoadLease(Boot(groupId, monitoringOnly, d)).0;
            var kept := d.lease.Some? && (d.lease.value.state.Uninitialized? <==> d.vault.None?);
            && (kept ==> n.lease == d.lease.value && n.disk == d && n.log == [])
            && (!kept ==>
                  && n.lease == Lease(groupId, if d.vault.Some? then Sealed else Uninitialized, None, None, None, None,
                                      0,
                                      0, 6, 0)
                  && n.disk == d.(lease := Some(n.lease)) && n.log == [n.disk])
  {
  }

  /** The lease after a crash between the last journal write and the lease write: what the completed operation
      would have made of it. */
  function Ended(l: Lease, o: Operation): Lease {
    var n := if o.kind == Enrollment then l.(state := Leased, leaseId := o.leaseId)
             else l.(state := Sealed, leaseId := None, grantedAt := None, expiresAt := None);
    n.(pendingOperationId := None,
       vaultSequence := if o.snapshot.Some? then o.snapshot.value.targetVaultSequence else l.vaultSequence,
       transitionSequence := l.transitionSequence + 1)
  }

  /** The lease after startup. If it names an operation that the journal has completed, it is what that
      completion makes of it. Otherwise, if an operation was unresolved and the group has a lease, it is
      Degraded and names the operation and its vault sequence exactly if recovery found it committed. In
      every other case it is the lease loaded. */
  lemma OpenedLease(groupId: Uuid, monitoringOnly: bool, d: Disk)
    requires DiskInv(d, groupId)
    ensures var l := LoadLease(Boot(groupId, monitoringOnly, d)).0.lease;
            var n := Open(groupId, monitoringOnly, d).0;
            var j := n.journal;
            n.lease ==
              if l.pendingOperationId.Some? && Has(j, l.pendingOperationId.value)
                 && Get(j, l.pendingOperationId.value).phase == Completed then
                Ended(l, Get(j, l.pendingOperationId.value))
              else if Active(d.journal) && (l.state != Uninitialized || d.vault.Some?) then
                if Active(j) && Last(j).snapshot.Some? then
                  l.(state := Degraded, pendingOperationId := Some(Last(j).operationId),
                     vaultSequence := Last(j).snapshot.value.targetVaultSequence,
                     transitionSequence := l.transitionSequence + 1)
                else
                  l.(state := Degraded, pendingOperationId := None, transitionSequence := l.transitionSequence + 1)
              else l
  {
    OpenShape(groupId, monitoringOnly, d);
    var st1 := LoadLease(Boot(groupId, monitoringOnly, d)).0;
    RepairedLease(Resumed(st1), ResumedRecovery(st1), d.vault.Some?);
    if Active(d.journal) { ResumedJournal(st1); }
  }

  lemma ResumedJournal(st: St)
    requires WellFormed(st.journal, st.groupId) && Active(st.journal)
    ensures var n, u := Resumed(st), Last(st.journal);
            && n.lease == st.lease && n.journal.operations != []
            && Last(n.journal) == u.(phase := RecoveredPhase(u, st.disk.vault))
            && ResumedRecovery(st) ==
                 (if Active(n.journal) then
                    Recovery(true, Some(u.operationId), Some(u.snapshot.value.targetVaultSequence))
                  else Recovery(true, None, None))
            && (Active(n.journal) ==> u.snapshot.Some?)
  {
    assert OperationValid(Last(st.journal), st.groupId);
  }

  lemma RepairedLease(st: St, r: Recovery, vaultExists: bool)
    ensures var n, l := RepairLease(st, r, vaultExists), st.lease;
            && n.journal == st.journal
            && n.lease ==
                 if l.pendingOperationId.Some? && Has(st.journal, l.pendingOperationId.value)
                    && Get(st.journal, l.pendingOperationId.value).phase == Completed then
                   Ended(l, Get(st.journal, l.pendingOperationId.value))
                 else if r.needsReconciliation && (l.state != Uninitialized || vaultExists) then
                   l.(state := Degraded, pendingOperationId := r.operationId,
                      vaultSequence := if r.vaultSequence.Some? then r.vaultSequence.value else l.vaultSequence,
                      transitionSequence := l.transitionSequence + 1)
                 else l
  {
  }

  // ---------------------------------------------------------------------------------------------
  // Connecting
  // ---------------------------------------------------------------------------------------------

  /** This group takes the handshake: nothing else in the host refuses it before, it is the first of the
      connection, it names the profile of this process if there is one, and its protocol is not older
      than one that was used before. */
  predicate TakesHandshake(st: St, profileId: Uuid, v7: bool, fate: HandshakeFate) {
    && !st.connected && fate != Refused && fate != RefusedElsewhere(false) && profileId != 0
    && (st.profileId.None? || st.profileId.value == profileId)
    && (if v7 then st.lease.protocolFloor <= 7 else st.lease.protocolFloor <= 6)
  }

  /** A handshake is accepted if and only if every group takes it; after protocol 7 a client of protocol 6 is
      refused. */
  lemma HandshakeIff(st: St, profileId: Uuid, v7: bool, fate: HandshakeFate, env: Env)
    ensures var (n, r) := Handle(st, Handshake(profileId, v7, fate), env);
            && (r.Ok? <==> TakesHandshake(st, profileId, v7, fate) && fate == Accepted)
            && (r.Ok? ==> r.value == [] && n.connected && n.v7 == v7 && n.profileId == Some(profileId))
            && (r.Err? ==> n.connected == st.connected && n.v7 == st.v7)
            && (n.profileId == st.profileId || n.profileId == Some(profileId))
            && n.journal == st.journal && n.disk.vault == st.disk.vault && n.pending == st.pending
            && (!TakesHandshake(st, profileId, v7, fate) ==> n.lease == st.lease && n.log == st.log)
  {
  }

  /** What taking a handshake makes of the lease, whether or not another group refuses it then: nothing under
      protocol 6; under protocol 7 the floor is 7, the high-water mark covers every operation, and what
      changed counts as one transition. */
  lemma HandshakeLease(st: St, profileId: Uuid, v7: bool, fate: HandshakeFate, env: Env)
    requires TakesHandshake(st, profileId, v7, fate)
    ensures var n := Handle(st, Handshake(profileId, v7, fate), env).0;
            var known := if st.lease.operationHighWater < st.journal.highWater then st.journal.highWater
                         else st.lease.operationHighWater;
            && n.profileId == Some(profileId)
            && if !v7 || (st.lease.protocolFloor == 7 && known == st.lease.operationHighWater) then
              n.lease == st.lease && n.log == st.log
            else
              && n.log == st.log + [n.disk] && n.disk.lease == Some(n.lease)
              && n.lease == st.lease.(protocolFloor := 7, operationHighWater := known,
                                      transitionSequence := st.lease.transitionSequence + 1)
  {
  }

  // ---------------------------------------------------------------------------------------------
  // Leases
  // ---------------------------------------------------------------------------------------------

  /** The lease of a session that runs from now on. */
  predicate RunsFrom(l: Lease, leaseId: Uuid, now: nat, duration: nat) {
    l.leaseId == Some(leaseId) && l.grantedAt == Some(now) && l.expiresAt == Some(now + duration)
  }

  /** An unlock is granted exactly from a sealed vault, with authorisation and with nothing under way, for
      the requested time; otherwise nothing changes. */
  lemma UnlockIff(st: St, env: Env)
    requires HostInv(st)
    ensures var (n, r) := HandleLeaseRequest(st, false, env);
            var granted := && st.lease.state.Sealed? && st.disk.vault.Some? && env.authorized && st.pending.None?
                           && !Active(st.journal) && !st.monitoringOnly;
            && (granted ==>
                  && r == Ok([Granted(env.freshLeaseId)])
                  && RunsFrom(n.lease, env.freshLeaseId, env.now, env.leaseMs)
                  && n.lease == st.lease.(state := Leased, leaseId := n.lease.leaseId, grantedAt := n.lease.grantedAt,
                                          expiresAt := n.lease.expiresAt, pendingOperationId := None,
                                          vaultSequence := st.disk.vault.value.vaultSequence,
                                          transitionSequence := st.lease.transitionSequence + 1)
                  && n.journal == st.journal && n.disk.vault == st.disk.vault && n.pending.None?)
            && (!granted ==> n == st && (r.Err? || r == Ok([Denied])))
            && (r.Err? ==> !env.authorized)
  {
    LastIndex(st.journal, st.groupId, NIL);
  }

  /** When an enrollment is granted. */
  predicate EnrollAdmitted(st: St) {
    && st.lease.state.Uninitialized? && st.disk.vault.None? && st.pending.None? && !Active(st.journal)
    && !st.monitoringOnly
  }

  /** An enrollment is granted exactly to a group without lease and vault and with nothing under way. Under
      protocol 7 the grant alone is recorded. */
  lemma EnrollIff(st: St, env: Env)
    requires HostInv(st) && st.v7
    ensures var (n, r) := HandleLeaseRequest(st, true, env);
            if !EnrollAdmitted(st) then (n, r) == (st, Ok([Denied]))
            else
              && r == Ok([Granted(env.freshLeaseId)]) && RunsFrom(n.lease, env.freshLeaseId, env.now, env.leaseMs)
              && n.lease.state.Uninitialized? && n.lease.transitionSequence == st.lease.transitionSequence + 1
              && n.journal == st.journal && n.pending.None? && n.disk.vault == st.disk.vault
  {
    LastIndex(st.journal, st.groupId, NIL);
  }

  /** Under protocol 6 the operation begins with the grant. */
  lemma EnrollV6Iff(st: St, env: Env)
    requires HostInv(st) && !st.v7
    requires env.freshOperationId != 0 && !Has(st.journal, env.freshOperationId) && st.journal.highWater < U64_MAX
    ensures var (n, r) := HandleLeaseRequest(st, true, env);
            if !EnrollAdmitted(st) then (n, r) == (st, Ok([Denied]))
            else
              && r == Ok([Granted(env.freshLeaseId),
                          SnapshotRequired(env.freshOperationId, 0, Some(env.freshLeaseId), None)])
              && RunsFrom(n.lease, env.freshLeaseId, env.now, env.leaseMs) && n.lease.state.Evicting?
              && n.lease.pendingOperationId == Some(env.freshOperationId)
              && n.lease.transitionSequence == st.lease.transitionSequence + 1
              && Begins(st, n, env.freshOperationId, None, Enrollment, Some(env.freshLeaseId), "initial_enrollment")
              && n.pending.value.operationSequence == 0
  {
    LastIndex(st.journal, st.groupId, NIL);
    if EnrollAdmitted(st) { EnrollV6Taken(st, env); }
  }

  lemma EnrollV6Taken(st: St, env: Env)
    requires EnrollAdmitted(st) && !st.v7 && !HasUnresolved(st.journal)
    requires env.freshOperationId != 0 && !Has(st.journal, env.freshOperationId) && st.journal.highWater < U64_MAX
    ensures var (n, r) := HandleLeaseRequest(st, true, env);
            var q := Request(env.freshOperationId, None, Enrollment, Some(env.freshLeaseId), "initial_enrollment",
                             st.lease.vaultSequence);
            var l := st.lease.(state := Evicting, leaseId := Some(env.freshLeaseId), grantedAt := Some(env.now),
                               expiresAt := Some(env.now + env.leaseMs),
                               pendingOperationId := Some(env.freshOperationId));
            && n == PersistLease(PersistJournal(st, WithNew(st.journal, q)), Advance(l)).(
                      pending := Some(NewPending(Enrollment, env.freshOperationId, Some(env.freshLeaseId), 0, None)))
            && r == Ok([Granted(env.freshLeaseId),
                        SnapshotRequired(env.freshOperationId, 0, Some(env.freshLeaseId), None)])
  {
    var q := Request(env.freshOperationId, None, Enrollment, Some(env.freshLeaseId), "initial_enrollment",
                     st.lease.vaultSequence);
    assert q.Valid();
  }

  /** The journal has one more operation, as asked for, and memory waits for its first chunk. */
  predicate Begins(st: St, n: St, id: Uuid, attempt: Option<Uuid>, kind: Kind, leaseId: Option<Uuid>, reason: string) {
    && n.journal.operations != [] && n.journal.operations[..|n.journal.operations| - 1] == st.journal.operations
    && n.journal.highWater == st.journal.highWater + 1 == Last(n.journal).sequence
    && Last(n.journal).operationId == id && Last(n.journal).attemptId == attempt && Last(n.journal).kind == kind
    && Last(n.journal).leaseId == leaseId && Last(n.journal).reason == reason
    && Last(n.journal).baseVaultSequence == st.lease.vaultSequence
    && Last(n.journal).phase.NotCommitted? && Last(n.journal).snapshot.None?
    && n.disk.vault == st.disk.vault
    && n.pending.Some? && !n.pending.value.confirmed && Emptied(n.pending.value)
    && n.pending.value.operationId == id && n.pending.value.kind == kind && n.pending.value.leaseId == leaseId
    && n.pending.value.attemptId == attempt && n.pending.value.cookieCount.None?
  }

  /** The outcome of a restore is taken exactly for the current lease; a failed one degrades it. */
  lemma InjectResultIff(st: St, leaseId: Uuid, restored: bool)
    ensures var (n, r) := HandleInjectResult(st, leaseId, restored);
            && (r.Ok? <==> st.lease.state.Leased? && st.lease.leaseId == Some(leaseId))
            && (r.Ok? ==> r.value == [])
            && (r.Err? || restored ==> n == st)
            && (r.Ok? && !restored ==>
                  && n.lease == st.lease.(state := Degraded, transitionSequence := st.lease.transitionSequence + 1)
                  && n.journal == st.journal && n.disk.vault == st.disk.vault && n.pending == st.pending)
  {
  }

  /** A session is invalidated exactly when nothing is pending and the lease named, if one is, is the
      current one; vault and lease go, and the sequences that guard against replay stay. */
  lemma InvalidateIff(st: St, leaseId: Option<Uuid>)
    ensures var (n, r) := HandleSessionInvalidate(st, leaseId);
            && (r.Ok? <==> st.pending.None?
                           && (st.lease.state.Uninitialized? || leaseId.None? || leaseId == st.lease.leaseId))
            && (r.Ok? ==> r.value == [SessionInvalidated])
            && (r.Err? || st.lease.state.Uninitialized? ==> n == st)
            && (r.Ok? && !st.lease.state.Uninitialized? ==>
                  && n.disk.vault.None? && n.journal == st.journal && n.pending.None?
                  && n.lease == Lease(st.lease.groupId, Uninitialized, None, None, None, None, 0,
                                      st.lease.transitionSequence + 1, st.lease.protocolFloor,
                                      st.lease.operationHighWater))
  {
  }

  // ---------------------------------------------------------------------------------------------
  // Beginning an operation
  // ---------------------------------------------------------------------------------------------

  /** One to 64 lower-case letters, digits and underscores. */
  predicate ReasonCode(s: string) {
    0 < |s| <= 64 && forall c :: c in s ==> 'a' <= c <= 'z' || '0' <= c <= '9' || c == '_'
  }

  lemma ReasonCodeIff(q: Request)
    ensures q.Valid() <==> q.operationId != 0 && q.attemptId != Some(0) && ReasonCode(q.reason)
  {
    if q.Valid() {
      forall c | c in q.reason
        ensures 'a' <= c <= 'z' || '0' <= c <= '9' || c == '_'
      {
        var i :| 0 <= i < |q.reason| && q.reason[i] == c;
      }
    }
    if ReasonCode(q.reason) {
      assert forall i :: 0 <= i < |q.reason| ==> q.reason[i] in q.reason;
    }
  }

  /** What the lease must be for an operation of each kind. */
  predicate KindAdmitted(l: Lease, kind: Kind, leaseId: Option<Uuid>) {
    && (kind.Enrollment? ==> l.state.Uninitialized?)
    && (kind.Eviction? ==> l.state.Leased? && leaseId.Some? && l.leaseId == leaseId)
    && (kind.Reconciliation? ==> !l.state.Uninitialized?)
  }

  /** The operation a request becomes. */
  function NewOperation(j: Journal, q: Request): Operation {
    Operation(q.operationId, q.attemptId, j.highWater + 1, Fingerprint(j.groupId, q), q.kind, q.leaseId, q.reason,
              q.baseVaultSequence, NotCommitted, None)
  }

  function WithNew(j: Journal, q: Request): Journal {
    j.(highWater := j.highWater + 1, operations := j.operations + [NewOperation(j, q)])
  }

  lemma IssueShape(st: St, q: Request)
    requires !HasUnresolved(st.journal) && !Has(st.journal, q.operationId) && st.journal.highWater < U64_MAX
    ensures IssueV7(st, q) ==
              if q.Valid() then (PersistJournal(st, WithNew(st.journal, q)), Ok(NewOperation(st.journal, q)))
              else (st, Err(Protocol))
  {
  }

  lemma OperationBeginTaken(st: St, attempt: Uuid, kind: Kind, leaseId: Option<Uuid>, reason: string, env: Env)
    requires attempt != 0 && IndexOfAttempt(st.journal.operations, attempt) == |st.journal.operations|
    requires KindAdmitted(st.lease, kind, leaseId) && st.pending.None? && !HasUnresolved(st.journal)
    requires !Has(st.journal, env.freshOperationId) && st.journal.highWater < U64_MAX
    ensures var q := Request(env.freshOperationId, Some(attempt), kind, leaseId, reason, st.lease.vaultSequence);
            var o := NewOperation(st.journal, q);
            var st1 := PersistJournal(st, WithNew(st.journal, q));
            var l := st.lease.(state := Evicting, pendingOperationId := Some(o.operationId),
                               operationHighWater := o.sequence);
            HandleOperationBegin(st, attempt, kind, leaseId, reason, env) ==
              if q.Valid() then
                (PersistLease(st1, Advance(l)).(pending := Some(NewPending(kind, o.operationId, leaseId, o.sequence,
                                                                           Some(attempt)))),
                 Ok([SnapshotRequired(o.operationId, o.sequence, leaseId, Some(attempt))]))
              else (st, Err(Protocol))
  {
    IssueShape(st, Request(env.freshOperationId, Some(attempt), kind, leaseId, reason, st.lease.vaultSequence));
  }

  lemma OperationBeginRefused(st: St, attempt: Uuid, kind: Kind, leaseId: Option<Uuid>, reason: string, env: Env)
    requires IndexOfAttempt(st.journal.operations, attempt) == |st.journal.operations|
    requires attempt == 0 || !KindAdmitted(st.lease, kind, leaseId) || st.pending.Some? || HasUnresolved(st.journal)
    ensures HandleOperationBegin(st, attempt, kind, leaseId, reason, env) == (st, Err(Protocol))
  {
  }

  /** What a begin makes of the host. */
  predicate OperationBegins(st: St, n: St, r: Result<seq<Reply>>, id: Uuid, attempt: Uuid, kind: Kind,
                            leaseId: Option<Uuid>, reason: string) {
    && Begins(st, n, id, Some(attempt), kind, leaseId, reason)
    && n.pending.value.operationSequence == n.journal.highWater
    && r == Ok([SnapshotRequired(id, n.journal.highWater, leaseId, Some(attempt))])
    && n.lease == st.lease.(state := Evicting, pendingOperationId := Some(id),
                            operationHighWater := n.journal.highWater,
                            transitionSequence := st.lease.transitionSequence + 1)
  }

  lemma TakenBegins(st: St, attempt: Uuid, kind: Kind, leaseId: Option<Uuid>, reason: string, env: Env)
    requires attempt != 0 && IndexOfAttempt(st.journal.operations, attempt) == |st.journal.operations|
    requires KindAdmitted(st.lease, kind, leaseId) && st.pending.None? && !HasUnresolved(st.journal)
    requires !Has(st.journal, env.freshOperationId) && st.journal.highWater < U64_MAX
    requires Request(env.freshOperationId, Some(attempt), kind, leaseId, reason, st.lease.vaultSequence).Valid()
    ensures var (n, r) := HandleOperationBegin(st, attempt, kind, leaseId, reason, env);
            OperationBegins(st, n, r, env.freshOperationId, attempt, kind, leaseId, reason)
  {
    OperationBeginTaken(st, attempt, kind, leaseId, reason, env);
    var q := Request(env.freshOperationId, Some(attempt), kind, leaseId, reason, st.lease.vaultSequence);
    assert WithNew(st.journal, q).operations[..|st.journal.operations|] == st.journal.operations;
  }

  /** An attempt the journal does not know begins an operation if and only if the lease is the right one for
      its kind and nothing is pending or unresolved; otherwise nothing changes. The journal then has the
      operation before the lease names it, and the answer asks for its snapshot. */
  lemma OperationBeginIff(st: St, attempt: Uuid, kind: Kind, leaseId: Option<Uuid>, reason: string, env: Env)
    requires HostInv(st) && IndexOfAttempt(st.journal.operations, attempt) == |st.journal.operations|
    requires env.freshOperationId != 0 && !Has(st.journal, env.freshOperationId) && st.journal.highWater < U64_MAX
    ensures var (n, r) := HandleOperationBegin(st, attempt, kind, leaseId, reason, env);
            if && attempt != 0 && ReasonCode(reason) && KindAdmitted(st.lease, kind, leaseId)
               && st.pending.None? && !Active(st.journal)
            then OperationBegins(st, n, r, env.freshOperationId, attempt, kind, leaseId, reason)
            else (n, r) == (st, Err(Protocol))
  {
    LastIndex(st.journal, st.groupId, NIL);
    if attempt == 0 || !KindAdmitted(st.lease, kind, leaseId) || st.pending.Some? || Active(st.journal) {
      OperationBeginRefused(st, attempt, kind, leaseId, reason, env);
    } else {
      ReasonCodeIff(Request(env.freshOperationId, Some(attempt), kind, leaseId, reason, st.lease.vaultSequence));
      OperationBeginTaken(st, attempt, kind, leaseId, reason, env);
      if ReasonCode(reason) { TakenBegins(st, attempt, kind, leaseId, reason, env); }
    }
  }

  /** An attempt the journal knows is answered from the journal, exactly if it repeats the begin in all
      its parts, and nothing is written. */
  lemma KnownAttemptIff(st: St, attempt: Uuid, kind: Kind, leaseId: Option<Uuid>, reason: string, env: Env, k: nat)
    requires k < |st.journal.operations| && IndexOfAttempt(st.journal.operations, attempt) == k
    ensures var (n, r) := HandleOperationBegin(st, attempt, kind, leaseId, reason, env);
            var o := st.journal.operations[k];
            && n == st
            && (r.Ok? <==> attempt != 0 && o.kind == kind && o.leaseId == leaseId && o.reason == reason)
            && (r.Ok? ==>
                  r.value == [if o.phase.NotCommitted? then
                                SnapshotRequired(o.operationId, o.sequence, o.leaseId, Some(attempt))
                              else Status(o.operationId, o.sequence, o.leaseId, ActionFor(o.phase))])
  {
  }

  /** The v6 begins that the lease admits, with the kind of operation each starts. */
  predicate EvictionAdmitted(st: St, leaseId: Option<Uuid>, reason: string) {
    match st.lease.state
    case Leased => leaseId.Some? && st.lease.leaseId == leaseId
    case Sealed => leaseId.None? && reason == "site_cookie_recreated"
    case Degraded => leaseId.Some? && st.lease.leaseId == leaseId && reason == "degraded_cookie_detected"
    case _ => false
  }

  /** What a v6 begin makes of the host. */
  predicate EvictionBegins(st: St, n: St, r: Result<seq<Reply>>, id: Uuid, kind: Kind, leaseId: Option<Uuid>,
                           reason: string) {
    && r == Ok([SnapshotRequired(id, 0, leaseId, None)])
    && |n.journal.operations| == |st.journal.operations| + 1
    && Last(n.journal).operationId == id && Last(n.journal).phase.NotCommitted? && Last(n.journal).kind == kind
    && Last(n.journal).leaseId == leaseId && Last(n.journal).reason == reason && n.disk.vault == st.disk.vault
    && n.lease == st.lease.(state := Evicting, pendingOperationId := Some(id),
                            transitionSequence := st.lease.transitionSequence + 1)
    && n.pending == Some(NewPending(kind, id, leaseId, 0, None))
  }

  /** A v6 begin under a new id starts an operation if and only if nothing is pending and either it asks for
      reconciliation of a group that has a lease, which then gives up what is unresolved, or the lease
      admits an eviction for this reason and nothing is unresolved. */
  lemma EvictBeginIff(st: St, id: Uuid, leaseId: Option<Uuid>, reason: string)
    requires HostInv(st) && st.log == [] && id != 0 && !Has(st.journal, id) && ReasonCode(reason)
    requires st.journal.highWater < U64_MAX
    ensures var (n, r) := HandleEvictBegin(st, id, leaseId, reason);
            var reconciles := reason == "startup_reconciliation" && !st.lease.state.Uninitialized?;
            if st.pending.None? && reconciles then EvictionBegins(st, n, r, id, Reconciliation, leaseId, reason)
            else if st.pending.None? && EvictionAdmitted(st, leaseId, reason) && !Active(st.journal) then
              EvictionBegins(st, n, r, id, Eviction, leaseId, reason)
            else (n, r) == (st, Err(Protocol))
  {
    LastIndex(st.journal, st.groupId, NIL);
    if st.pending.None? && reason == "startup_reconciliation" && !st.lease.state.Uninitialized? {
      ReconciliationBegins(st, id, leaseId, reason);
    } else if st.pending.None? && !Active(st.journal) && EvictionAdmitted(st, leaseId, reason) {
      StartedEviction(st, id, leaseId, reason, Eviction);
      EvictionStarts(st, id, leaseId, reason);
    } else {
      EvictionRefused(st, id, leaseId, reason);
    }
  }

  lemma EvictionStarts(st: St, id: Uuid, leaseId: Option<Uuid>, reason: string)
    requires st.pending.None? && !HasUnresolved(st.journal) && !IsReconciliation(st.lease, reason)
    requires EvictionAdmitted(st, leaseId, reason)
    ensures HandleEvictBegin(st, id, leaseId, reason) == StartEviction(st, id, leaseId, reason, Eviction)
  {
  }

  lemma EvictionRefused(st: St, id: Uuid, leaseId: Option<Uuid>, reason: string)
    requires st.pending.Some? || (!IsReconciliation(st.lease, reason)
                                  && (HasUnresolved(st.journal) || !EvictionAdmitted(st, leaseId, reason)))
    ensures HandleEvictBegin(st, id, leaseId, reason) == (st, Err(Protocol))
  {
  }

  lemma ReconciliationBegins(st: St, id: Uuid, leaseId: Option<Uuid>, reason: string)
    requires HostInv(st) && st.log == [] && id != 0 && !Has(st.journal, id) && ReasonCode(reason)
    requires st.journal.highWater < U64_MAX && st.pending.None? && IsReconciliation(st.lease, reason)
    ensures var (n, r) := HandleEvictBegin(st, id, leaseId, reason);
            EvictionBegins(st, n, r, id, Reconciliation, leaseId, reason)
  {
    PrepareGood(st);
    PreparedIds(st, id);
    var m := PrepareForV6Reconciliation(st).0;
    LastIndex(m.journal, m.groupId, NIL);
    StartedEviction(m, id, leaseId, reason, Reconciliation);
    assert HandleEvictBegin(st, id, leaseId, reason) == StartEviction(m, id, leaseId, reason, Reconciliation);
  }

  lemma PreparedIds(st: St, id: Uuid)
    requires HostInv(st) && st.log == [] && st.pending.None? && !Has(st.journal, id)
    ensures var m := PrepareForV6Reconciliation(st).0;
            && !Has(m.journal, id) && |m.journal.operations| == |st.journal.operations|
            && m.journal.highWater == st.journal.highWater
  {
    PrepareShape(st);
    var m := PrepareForV6Reconciliation(st).0;
    assert forall i :: 0 <= i < |m.journal.operations| ==>
      m.journal.operations[i].operationId == st.journal.operations[i].operationId;
  }

  lemma StartedEviction(st: St, id: Uuid, leaseId: Option<Uuid>, reason: string, kind: Kind)
    requires !Has(st.journal, id) && !HasUnresolved(st.journal) && id != 0 && ReasonCode(reason)
    requires st.journal.highWater < U64_MAX
    ensures var (n, r) := StartEviction(st, id, leaseId, reason, kind);
            EvictionBegins(st, n, r, id, kind, leaseId, reason)
  {
    ReasonCodeIff(Request(id, None, kind, leaseId, reason, st.lease.vaultSequence));
  }

  // ---------------------------------------------------------------------------------------------
  // Resuming an operation
  // ---------------------------------------------------------------------------------------------

  /** What the extension is told to do next. */
  function ActionFor(phase: Phase): RequiredAction {
    if phase == NotCommitted then SendSnapshot
    else if phase == DurabilityUnknown then ClassifyDurability
    else if phase == JournalModel.Committed || phase == BrowserRemovalPending then EngineSpec.PrepareRemoval
    else if phase == ReconciliationRequired then Reconcile
    else Finished
  }

  /** A status query is answered exactly when the journal has the operation under this sequence and lease,
      with the action for its phase. It writes nothing; with nothing pending it takes an unresolved
      operation up again, as far as the journal has recorded it. */
  lemma StatusIff(st: St, id: Uuid, sequence: nat, leaseId: Option<Uuid>)
    ensures var (n, r) := HandleOperationStatus(st, id, sequence, leaseId);
            && (r.Ok? <==>
                  Has(st.journal, id) && Get(st.journal, id).sequence == sequence
                  && Get(st.journal, id).leaseId == leaseId)
            && n == st.(pending := n.pending)
            && (r.Err? || st.pending.Some? ==> n == st)
            && (r.Ok? ==> r.value == [Status(id, sequence, leaseId, ActionFor(Get(st.journal, id).phase))])
            && (r.Ok? && st.pending.None? ==>
                  var o := Get(st.journal, id);
                  if o.phase.Completed? || o.phase.Aborted? || o.phase.ReconciliationRequired? then n.pending.None?
                  else
                    && n.pending.Some? && Emptied(n.pending.value)
                    && n.pending.value.operationId == id && n.pending.value.operationSequence == sequence
                    && n.pending.value.leaseId == leaseId && n.pending.value.attemptId == o.attemptId
                    && n.pending.value.kind == o.kind
                    && (n.pending.value.confirmed <==>
                          o.phase == JournalModel.Committed || o.phase == BrowserRemovalPending)
                    && n.pending.value.cookieCount ==
                         if o.snapshot.Some? then Some(o.snapshot.value.cookieCount) else None)
  {
  }

  /** Told to prepare the removal after a restart, the extension can: the host takes the prepare and all its
      chunks and authorises exactly the committed snapshot. */
  lemma ToldToPrepare(st: St, p: Prepare, env: Env)
    requires HostInv(st) && st.log == [] && st.connected && st.v7 && st.pending.None? && Admissible(p)
    requires Active(st.journal) && Last(st.journal).attemptId == Some(p.binding.attempt)
    requires Last(st.journal).operationId == p.binding.operationId
    requires Last(st.journal).sequence == p.binding.sequence && Last(st.journal).leaseId == p.binding.leaseId
    requires Last(st.journal).snapshot.Some? ==>
               Last(st.journal).snapshot.value.tag.profileId == st.profileId.value
    ensures var (n, r) := HandleOperationStatus(st, p.binding.operationId, p.binding.sequence, p.binding.leaseId);
            && r.Ok? && |r.value| == 1 && r.value[0].Status?
            && (r.value[0].action == EngineSpec.PrepareRemoval <==> RemovalHost.Committed(st.journal))
            && (RemovalHost.Committed(st.journal) ==> MayRemove(n, p))
  {
    var o := Last(st.journal);
    LastIndex(st.journal, st.groupId, o.operationId);
    StatusIff(st, o.operationId, o.sequence, o.leaseId);
    if RemovalHost.Committed(st.journal) { ResumedMayRemove(st, p); }
  }

  lemma ResumedMayRemove(st: St, p: Prepare)
    requires HostInv(st) && st.log == [] && st.connected && st.v7 && st.pending.None? && Admissible(p)
    requires RemovalHost.Committed(st.journal) && Last(st.journal).attemptId == Some(p.binding.attempt)
    requires Last(st.journal).operationId == p.binding.operationId
    requires Last(st.journal).sequence == p.binding.sequence && Last(st.journal).leaseId == p.binding.leaseId
    requires Last(st.journal).snapshot.value.tag.profileId == st.profileId.value
    ensures MayRemove(HandleOperationStatus(st, p.binding.operationId, p.binding.sequence, p.binding.leaseId).0, p)
  {
    var o := Last(st.journal);
    LastIndex(st.journal, st.groupId, o.operationId);
    OperationStatusSafe(st, o.operationId, o.sequence, o.leaseId);
  }

  /** Asked for the snapshot, the extension can send it: whatever begin or repetition was answered so, the
      host takes a snapshot of the operation chunk by chunk and commits it. */
  lemma AskedForSnapshot(st: St, attempt: Uuid, kind: Kind, leaseId: Option<Uuid>, reason: string, env: Env, p: Prepare)
    requires HostInv(st) && st.log == [] && st.connected && st.v7 && Admissible(p)
    requires IndexOfAttempt(st.journal.operations, attempt) == |st.journal.operations|
    requires env.freshOperationId != 0 && !Has(st.journal, env.freshOperationId) && st.journal.highWater < U64_MAX
    requires p.binding == Reference(env.freshOperationId, st.journal.highWater + 1, leaseId, attempt)
    ensures var (n, r) := HandleOperationBegin(st, attempt, kind, leaseId, reason, env);
            r.Ok? ==> MayCommit(n.(log := []), p)
  {
    OperationBeginIff(st, attempt, kind, leaseId, reason, env);
    OperationBeginSafe(st, attempt, kind, leaseId, reason, env);
  }

  // ---------------------------------------------------------------------------------------------
  // Snapshots and results
  // ---------------------------------------------------------------------------------------------

  /** A prepare is accepted exactly for the confirmed pending operation under all four parts of its binding,
      and clears what was buffered; otherwise nothing changes. */
  lemma PrepareIff(st: St, id: Uuid, sequence: nat, leaseId: Option<Uuid>, attempt: Uuid)
    ensures var (n, r) := HandleRemovePrepare(st, id, sequence, leaseId, attempt);
            && (r.Ok? <==>
                  st.pending.Some?
                  && var q := st.pending.value;
                     q.confirmed && q.operationId == id && q.operationSequence == sequence && q.leaseId == leaseId
                     && q.attemptId == Some(attempt))
            && (r.Err? ==> n == st)
            && (r.Ok? ==>
                  && r.value == [] && n == st.(pending := n.pending) && n.pending.Some? && Emptied(n.pending.value)
                  && n.pending.value == st.pending.value.(cookieCount := None, chunkCount := None, nextChunk := 0,
                                                          cookies := [], bytes := 0, chunkDigests := map[]))
  {
  }

  /** The pending operation under a chunk's whole binding. */
  predicate Bound(st: St, c: Chunk) {
    && st.pending.Some? && c.operationSequence.Some? && c.attemptId.Some? && c.purpose.Some?
    && var q := st.pending.value;
       q.operationId == c.operationId && q.operationSequence == c.operationSequence.value && q.leaseId == c.leaseId
       && q.attemptId == c.attemptId
  }

  /** A chunk without the pending operation's binding changes nothing and is refused; one seen before
      changes nothing and is acknowledged exactly if it carries the same records; one of unknown purpose
      is refused, but remembered as seen. */
  lemma ChunkBindingIff(st: St, c: Chunk, env: Env)
    ensures var (n, r) := HandleSnapshotChunkV7(st, c, env);
            && (!Bound(st, c) ==> n == st && r.Err?)
            && (Bound(st, c) && c.chunkIndex in st.pending.value.chunkDigests ==>
                  n == st && (r.Ok? <==> st.pending.value.chunkDigests[c.chunkIndex] == c.cookies)
                  && (r.Ok? ==> r.value == []))
            && (Bound(st, c) && c.chunkIndex !in st.pending.value.chunkDigests && c.purpose.value.UnknownPurpose? ==>
                  r.Err?
                  && n == st.(pending := Some(st.pending.value.(
                                chunkDigests := st.pending.value.chunkDigests[c.chunkIndex := c.cookies]))))
  {
  }

  /** The confirmed pending operation under a report's whole binding. */
  predicate Reported(st: St, id: Uuid, leaseId: Option<Uuid>, sequence: Option<nat>, attempt: Option<Uuid>) {
    && st.pending.Some? && sequence.Some? && attempt.Some?
    && var q := st.pending.value;
       q.confirmed && q.operationId == id && q.operationSequence == sequence.value && q.leaseId == leaseId
       && q.attemptId == attempt
  }

  lemma ReportRefused(st: St, id: Uuid, leaseId: Option<Uuid>, success: bool, remaining: nat, sequence: Option<nat>,
                      attempt: Option<Uuid>)
    requires !Reported(st, id, leaseId, sequence, attempt)
    ensures HandleEvictResultV7(st, id, leaseId, success, remaining, sequence, attempt) == (st, Err(Protocol))
  {
  }

  lemma ReportTaken(st: St, id: Uuid, leaseId: Option<Uuid>, success: bool, remaining: nat, sequence: Option<nat>,
                    attempt: Option<Uuid>)
    requires Reported(st, id, leaseId, sequence, attempt)
    ensures var (n, r) := HandleEvictResultV7(st, id, leaseId, success, remaining, sequence, attempt);
            var q := st.pending.value;
            var ended := EndOperation(st.(pending := None), id, q.kind, EvictOutcome(q, success, remaining));
            n == ended.0 && (r.Ok? <==> ended.1.Ok?)
  {
  }

  lemma EndedPending(st: St, id: Uuid, kind: Kind, outcome: Phase)
    ensures EndOperation(st, id, kind, outcome).0.pending == st.pending
    ensures EndOperation(st, id, kind, outcome).1.Ok? <==> Transit(st, id, outcome).1.Ok?
  {
  }

  /** A report is taken exactly for the confirmed pending operation under its whole binding; otherwise
      nothing changes. `EngineLeases.ReportDecides` says what it makes of the operation. */
  lemma ReportTakenIff(st: St, id: Uuid, leaseId: Option<Uuid>, success: bool, remaining: nat,
                       sequence: Option<nat>, attempt: Option<Uuid>)
    requires HostInv(st) && Active(st.journal) && Last(st.journal).phase.BrowserRemovalPending?
    ensures var (n, r) := HandleEvictResultV7(st, id, leaseId, success, remaining, sequence, attempt);
            if Reported(st, id, leaseId, sequence, attempt) then r.Ok? && n.pending.None?
            else (n, r) == (st, Err(Protocol))
  {
    if Reported(st, id, leaseId, sequence, attempt) {
      ReportTaken(st, id, leaseId, success, remaining, sequence, attempt);
      var outcome := EvictOutcome(st.pending.value, success, remaining);
      ReportEnds(st, id, outcome);
      EndedPending(st.(pending := None), id, st.pending.value.kind, outcome);
    } else {
      ReportRefused(st, id, leaseId, success, remaining, sequence, attempt);
    }
  }

  lemma ReportEnds(st: St, id: Uuid, outcome: Phase)
    requires HostInv(st) && Active(st.journal) && Last(st.journal).phase.BrowserRemovalPending?
    requires Last(st.journal).operationId == id && (outcome.Completed? || outcome.ReconciliationRequired?)
    ensures Transit(st.(pending := None), id, outcome).1.Ok?
  {
    TransitLast(st.(pending := None), outcome);
  }

  /** Before a handshake nothing is taken, and the messages of protocol 7 are not taken under 6. */
  lemma RefusedOutright(st: St, m: Message, env: Env)
    requires !m.Handshake?
    requires !st.connected || (!st.v7 && (m.OperationBegin? || m.OperationStatusQuery? || m.RemovePrepare?))
    ensures Handle(st, m, env) == (st, Err(Protocol))
  {
  }
}
