/** Leases and operations exclude each other: while an operation is unresolved the group is neither
    leased nor sealed, in every run, so no session is unlocked or declared safe in the middle of a move
    (native-host/src/dispatcher.rs). */
module EngineLeases {
  import opened Base
  import opened JournalModel
  import opened EngineSpec
  import opened EngineInvariant
  import opened EngineSafety
  import opened EngineRuns
  import opened RemovalHost
  import C = Capability

  predicate Exclusive(st: St) { Active(st.journal) ==> !st.lease.state.Leased? && !st.lease.state.Sealed? }

  predicate SameStand(st: St, n: St) { n.journal == st.journal && n.lease.state == st.lease.state }

  lemma BeganExclusive(st: St, n: St)
    requires Exclusive(st) && HostInv(n) && (n == st || (n.pending.Some? && !n.pending.value.confirmed))
    ensures Exclusive(n)
  {
  }

  lemma LeaseRequestShape(st: St, enroll: bool, env: Env)
    ensures var n := HandleLeaseRequest(st, enroll, env).0;
            n == st || !HasUnresolved(st.journal)
    ensures var n := HandleLeaseRequest(st, enroll, env).0;
            n.journal == st.journal || (n.pending.Some? && !n.pending.value.confirmed)
  {
  }

  lemma LeaseRequestExclusive(st: St, enroll: bool, env: Env)
    requires HostInv(st) && st.log == [] && Exclusive(st)
    ensures Exclusive(HandleLeaseRequest(st, enroll, env).0)
  {
    LeaseRequestShape(st, enroll, env);
    LeaseRequestSafe(st, enroll, env);
    LastIndex(st.journal, st.groupId, NIL);
    RequestExclusive(st, HandleLeaseRequest(st, enroll, env).0);
  }

  lemma RequestExclusive(st: St, n: St)
    requires Exclusive(st) && HostInv(n) && (n == st || !Active(st.journal))
    requires n.journal == st.journal || (n.pending.Some? && !n.pending.value.confirmed)
    ensures Exclusive(n)
  {
  }

  lemma EvictBeginExclusive(st: St, id: Uuid, leaseId: Option<Uuid>, reason: string)
    requires HostInv(st) && st.log == [] && Exclusive(st)
    ensures Exclusive(HandleEvictBegin(st, id, leaseId, reason).0)
  {
    if st.pending.None? && IsReconciliation(st.lease, reason) {
      PrepareGood(st);
      ReconciliationBeginSafe(st, id, leaseId, reason);
      var st1 := PrepareForV6Reconciliation(st).0;
      StartEvictionShape(st1, id, leaseId, reason, Reconciliation);
      assert HandleEvictBegin(st, id, leaseId, reason) == StartEviction(st1, id, leaseId, reason, Reconciliation);
      BeganExclusive(st1, StartEviction(st1, id, leaseId, reason, Reconciliation).0);
    } else {
      EvictBeginSafe(st, id, leaseId, reason);
      StartEvictionShape(st, id, leaseId, reason, Eviction);
      BeganExclusive(st, HandleEvictBegin(st, id, leaseId, reason).0);
    }
  }

  lemma OperationBeginExclusive(st: St, attempt: Uuid, kind: Kind, leaseId: Option<Uuid>, reason: string, env: Env)
    requires HostInv(st) && st.log == [] && Exclusive(st)
    ensures Exclusive(HandleOperationBegin(st, attempt, kind, leaseId, reason, env).0)
  {
    OperationBeginShape(st, attempt, kind, leaseId, reason, env);
    OperationBeginSafe(st, attempt, kind, leaseId, reason, env);
    BeganExclusive(st, HandleOperationBegin(st, attempt, kind, leaseId, reason, env).0);
  }

  lemma EvictResultExclusive(st: St, id: Uuid, leaseId: Option<Uuid>, success: bool, remaining: nat)
    requires HostInv(st) && st.log == [] && Exclusive(st)
    ensures Exclusive(HandleEvictResult(st, id, leaseId, success, remaining).0)
  {
    if st.pending.Some? && st.pending.value.operationId == id && st.pending.value.leaseId == leaseId &&
       st.pending.value.confirmed {
      var st0, outcome := st.(pending := None), EvictOutcome(st.pending.value, success, remaining);
      if Transit(st0, id, outcome).1.Ok? {
        EndGood(st, st0, id, outcome);
        EndOperationShape(st0, id, st.pending.value.kind, outcome);
      }
    }
  }

  lemma ConfirmState(st: St, id: Uuid, sequence: nat, p: Pending)
    ensures ConfirmCommitted(st, id, sequence, p).0.lease.state == st.lease.state
  {
  }

  lemma CommitBufferedExclusive(st: St, st0: St, c: Chunk, cookies: seq<CookieRecord>, p: Pending, env: Env)
    requires HostInv(st) && st.log == [] && st0 == st.(pending := st0.pending) && Exclusive(st)
    requires p.operationId == c.operationId
    ensures Exclusive(CommitBuffered(st0, c, cookies, p, env).0)
  {
    CommitBufferedShape(st0, c, cookies, p, env);
    var prepared := PrepareAfterSnapshot(st.disk.vault, cookies, env.nonce, env.fits);
    if prepared.Ok? && CanCommit(st0, c.operationId) {
      PreparedTrue(st.disk.vault, cookies, env.nonce, env.fits);
      CommitGood(st, st0, c.operationId, cookies, prepared.value);
      ConfirmState(CommitSnapshot(st0, c.operationId, cookies, prepared.value).0, c.operationId,
                   prepared.value.vaultSequence,
                   p.(confirmed := true, cookieCount := Some(|cookies|)));
    }
  }

  lemma AbortEmptyExclusive(st: St, st0: St, id: Uuid)
    requires HostInv(st) && st.log == [] && st0 == st.(pending := None) && Exclusive(st)
    requires st.pending.Some? && st.pending.value.operationId == id
    ensures Exclusive(AbortEmpty(st0, id).0)
  {
    if Transit(st0, id, Aborted).1.Ok? { EndGood(st, st0, id, Aborted); }
  }

  lemma SnapshotChunkExclusive(st: St, st0: St, c: Chunk, env: Env)
    requires HostInv(st) && st.log == [] && SamePending(st, st0) && Exclusive(st)
    ensures Exclusive(HandleSnapshotChunk(st0, c, env).0)
  {
    if st.pending.Some? {
      var (p, appended) := AppendCommitChunk(st0.pending.value, c);
      if appended == Ok(true) {
        if p.kind.Enrollment? && p.cookies == [] {
          AbortEmptyExclusive(st, st0.(pending := None), c.operationId);
        } else {
          CommitBufferedExclusive(st, st0.(pending := Some(p)), c, p.cookies, p.(cookies := []), env);
        }
      }
    }
  }

  lemma RemovalChunkStand(st: St, c: Chunk)
    requires c.operationSequence.Some? && c.attemptId.Some? && st.pending.Some?
    ensures var n := HandleRemovalChunk(st, c).0;
            SameStand(st, n) || n.lease.state.Degraded?
  {
  }

  lemma RemovalChunkExclusive(st: St, st0: St, c: Chunk)
    requires SamePending(st, st0) && st.pending.Some? && c.operationSequence.Some? && c.attemptId.Some? && Exclusive(st)
    ensures Exclusive(HandleRemovalChunk(st0, c).0)
  {
    RemovalChunkStand(st0, c);
  }

  lemma ChunkV7Exclusive(st: St, c: Chunk, env: Env)
    requires HostInv(st) && st.log == [] && Exclusive(st)
    ensures Exclusive(HandleSnapshotChunkV7(st, c, env).0)
  {
    SnapshotChunkV7Shape(st, c, env);
    if Fresh(st, c) {
      match c.purpose.value
      case RemovalPrecheck => RemovalChunkExclusive(st, Noted(st, c), c);
      case UnknownPurpose =>
      case CommitPurpose => SnapshotChunkExclusive(st, Noted(st, c), c, env);
    }
  }

  lemma SimpleExclusive(st: St, m: Message, env: Env)
    requires Exclusive(st) && (Quiet(m) || m.InjectResult? || m.RemovePrepare? || m.SessionInvalidate?)
    ensures Exclusive(Handle(st, m, env).0)
  {
  }

  lemma BeginExclusive(st: St, m: Message, env: Env)
    requires HostInv(st) && st.log == [] && Exclusive(st) && st.connected
    requires (m.LeaseRequest? || m.EvictBegin? || m.OperationBegin?)
    ensures Exclusive(Handle(st, m, env).0)
  {
    match m
    case LeaseRequest(enroll) => LeaseRequestExclusive(st, enroll, env);
    case EvictBegin(id, leaseId, reason) => EvictBeginExclusive(st, id, leaseId, reason);
    case OperationBegin(attempt, kind, leaseId, reason) =>
      OperationBeginExclusive(st, attempt, kind, leaseId, reason, env);
  }

  lemma ChunkOrResultExclusive(st: St, m: Message, env: Env)
    requires HostInv(st) && st.log == [] && Exclusive(st) && st.connected && (m.SnapshotChunk? || m.EvictResult?)
    ensures Exclusive(Handle(st, m, env).0)
  {
    match m
    case SnapshotChunk(c) => if st.v7 { ChunkV7Exclusive(st, c, env); } else { SnapshotChunkExclusive(st, st, c, env); }
    case EvictResult(id, leaseId, success, remaining, sequence, attempt) =>
      EvictResultExclusive(st, id, leaseId, success, remaining);
  }

  lemma HandleExclusive(st: St, m: Message, env: Env)
    requires HostInv(st) && st.log == [] && Exclusive(st)
    ensures Exclusive(Handle(st, m, env).0)
  {
    if Quiet(m) || m.InjectResult? || m.RemovePrepare? || m.SessionInvalidate? {
      SimpleExclusive(st, m, env);
    } else if st.connected {
      if m.SnapshotChunk? || m.EvictResult? { ChunkOrResultExclusive(st, m, env); } else { BeginExclusive(st, m, env); }
    }
  }

  /** In every run, whenever the host is up: an unresolved operation means neither Leased nor Sealed. */
  lemma {:induction false} RunExclusive(groupId: Uuid, events: seq<Event>)
    ensures Run(groupId, events).Up? ==> Exclusive(Run(groupId, events).st)
  {
    if events != [] {
      var before, e := events[..|events| - 1], events[|events| - 1];
      RunExclusive(groupId, before);
      RunSafe(groupId, before);
      StepExclusive(groupId, Run(groupId, before), e);
    }
  }

  lemma StepExclusive(groupId: Uuid, w: World, e: Event)
    requires WorldInv(groupId, w) && (w.Up? ==> Exclusive(w.st))
    ensures Step(groupId, w, e).Up? ==> Exclusive(Step(groupId, w, e).st)
  {
    if w.Down? && e.Startup? {
      OpenSafe(groupId, e.monitoringOnly, w.disk);
    } else if w.Up? && e.Deliver? {
      HandleExclusive(w.st, e.message, e.env);
    }
  }

  /** A session is unlocked only from a sealed vault, with user authorisation and with nothing
      unresolved, and a refused request changes nothing. */
  lemma InjectGrantedIff(st: St, env: Env)
    requires HostInv(st)
    ensures var (n, r) := HandleLeaseRequest(st, false, env);
            && (r == Ok([Granted(env.freshLeaseId)]) <==>
                  st.lease.state.Sealed? && st.disk.vault.Some? && env.authorized && st.pending.None?
                  && !Active(st.journal) && !st.monitoringOnly)
            && (r != Ok([Granted(env.freshLeaseId)]) ==> n == st)
            && (r == Ok([Granted(env.freshLeaseId)]) ==>
                  n.lease.state.Leased? && n.lease.leaseId == Some(env.freshLeaseId) && n.disk.vault == st.disk.vault
                  && n.lease.vaultSequence == st.disk.vault.value.vaultSequence)
  {
    LastIndex(st.journal, st.groupId, NIL);
  }

  /** When the host asks for the user's authorisation at all. */
  predicate UnlockAdmitted(st: St) {
    st.lease.state.Sealed? && st.disk.vault.Some? && st.pending.None? && !Active(st.journal) && !st.monitoringOnly
  }

  /** The ledger after one authorisation and, where that failed and the platform enrolled a new
      credential in the place of a vanished one, one more. */
  function Authorized(groupId: Uuid, w: C.World, first: C.Attempt, retry: Option<C.Attempt>): C.World {
    var n := C.Attempted(groupId, w, first);
    if n.tokens != w.tokens || retry.None? then n else C.Attempted(groupId, n, retry.value)
  }

  /** An unlock request with the ledger behind it: the ledger is asked only when the group admits an
      unlock, and the request is authorised exactly when the ledger yields a token. */
  function Unlock(groupId: Uuid, w: C.World, st: St, first: C.Attempt, retry: Option<C.Attempt>, env: Env):
    (C.World, Reaction)
  {
    if !UnlockAdmitted(st) then (w, HandleLeaseRequest(st, false, env))
    else
      var n := Authorized(groupId, w, first, retry);
      (n, HandleLeaseRequest(st, false, env.(authorized := n.tokens != w.tokens)))
  }

  /** One of the two attempts is granted. */
  predicate OneGrants(groupId: Uuid, w: C.World, first: C.Attempt, retry: Option<C.Attempt>) {
    && w.memory.Some?
    && (C.Grants(w.memory.value, first) || (retry.Some? && RetryGrants(groupId, w, first, retry.value)))
  }

  /** The retry is granted on the ledger that the first attempt left. */
  predicate RetryGrants(groupId: Uuid, w: C.World, first: C.Attempt, retry: C.Attempt) {
    C.Attempted(groupId, w, first).memory.Some? && C.Grants(C.Attempted(groupId, w, first).memory.value, retry)
  }

  lemma AuthorizedToken(groupId: Uuid, w: C.World, first: C.Attempt, retry: Option<C.Attempt>)
    requires C.Inv(w)
    ensures var n := Authorized(groupId, w, first, retry);
            && C.Inv(n)
            && (n.tokens != w.tokens <==> OneGrants(groupId, w, first, retry))
            && (n.tokens != w.tokens ==>
                  && |n.tokens| == |w.tokens| + 1 && n.tokens[..|w.tokens|] == w.tokens
                  && n.tokens[|w.tokens|] !in w.tokens
                  && n.file.Some? && n.file.value.consumed == n.tokens[|w.tokens|])
  {
    C.AttemptedIff(groupId, w, first);
    var n := C.Attempted(groupId, w, first);
    if retry.Some? { C.AttemptedIff(groupId, n, retry.value); }
  }

  /** A session is unlocked if and only if the group is sealed with a vault and nothing is pending or
      unresolved, and the ledger accepts and records the signed capability at the first attempt or at the
      retry. Each unlock spends one token that no unlock spent before, durably recorded before the lease
      is written; a refused request changes neither lease nor files. */
  lemma UnlockSpendsToken(groupId: Uuid, w: C.World, st: St, first: C.Attempt, retry: Option<C.Attempt>, env: Env)
    requires HostInv(st) && C.Inv(w)
    ensures var (n, (st', r)) := Unlock(groupId, w, st, first, retry, env);
            var granted := r == Ok([Granted(env.freshLeaseId)]);
            && C.Inv(n)
            && (granted <==> UnlockAdmitted(st) && OneGrants(groupId, w, first, retry))
            && (granted ==>
                  && |n.tokens| == |w.tokens| + 1 && n.tokens[..|w.tokens|] == w.tokens
                  && n.tokens[|w.tokens|] !in w.tokens
                  && n.file.Some? && n.file.value.consumed == n.tokens[|w.tokens|] && st'.lease.state.Leased?)
            && (!granted ==> st' == st && n.tokens == w.tokens)
  {
    AuthorizedToken(groupId, w, first, retry);
    var n := Authorized(groupId, w, first, retry);
    InjectGrantedIff(st, env);
    InjectGrantedIff(st, env.(authorized := n.tokens != w.tokens));
  }

  /** A retry of a request that had reserved a capability is granted only after a refused signature
      whose cancellation was recorded: any other failure leaves the reservation pending and the retry is
      refused. */
  lemma RetryNeedsCancellation(groupId: Uuid, w: C.World, first: C.Attempt, retry: C.Attempt)
    requires C.Inv(w) && w.memory.Some? && !C.Grants(w.memory.value, first) && first.reserved.Replaced?
    requires C.Draw(w.memory.value, C.Inject, first.now, C.MAX_LIFETIME_MS, first.nonce).Ok?
    ensures RetryGrants(groupId, w, first, retry) ==> first.answer.None? && first.written.Replaced?
  {
    C.RefusalBlocks(groupId, w, first, retry);
  }

  // ---------------------------------------------------------------------------------------------
  // The extension's report
  // ---------------------------------------------------------------------------------------------

  /** A host that waits for the result of its committed operation under this reference. */
  predicate AwaitsResult(st: St, b: Reference) {
    && HostInv(st) && Ready(st, b) && RemovalHost.Committed(st.journal) && Last(st.journal).phase.BrowserRemovalPending?
  }

  function Report(st: St, b: Reference, success: bool, remaining: nat, env: Env): Reaction {
    Handle(st, EvictResult(b.operationId, b.leaseId, success, remaining, Some(b.sequence), Some(b.attempt)), env)
  }

  lemma ReportShape(st: St, b: Reference, success: bool, remaining: nat, env: Env)
    requires Ready(st, b)
    ensures var p := st.pending.value;
            var reported := success && (if p.kind.Enrollment? then remaining > 0 else remaining == 0);
            var (n, r) := EndOperation(st.(pending := None), b.operationId, p.kind,
                                       EvictOutcome(p, success, remaining));
            Report(st, b, success, remaining, env) ==
              (n, if r.Err? then r
                  else Ok([OperationCompleted(b.operationId, b.sequence, b.leaseId, reported)]))
  {
  }

  lemma EndedAs(st: St, id: Uuid, kind: Kind, outcome: Phase)
    requires WellFormed(st.journal, st.groupId) && Active(st.journal) && Last(st.journal).operationId == id
    requires Last(st.journal).phase.CanTransitionTo(outcome) && !outcome.Committed?
    ensures EndOperation(st, id, kind, outcome).1.Ok?
    ensures EndOperation(st, id, kind, outcome).0.journal == WithLast(st.journal, Last(st.journal).(phase := outcome))
    ensures EndOperation(st, id, kind, outcome).0.lease == Advance(LeaseAfterResult(st.lease, kind, outcome))
  {
    TransitLast(st, outcome);
  }

  /** What a report makes of the operation and the lease, and what the extension is told. An operation
      that removes completes if and only if nothing was left, and seals the group; an enrollment
      completes if and only if exactly the captured number was kept, and leases it. Told success without
      completion happens exactly for an enrollment whose count is positive but not the captured one. */
  lemma ReportDecides(st: St, b: Reference, success: bool, remaining: nat, env: Env)
    requires AwaitsResult(st, b)
    ensures var p := st.pending.value;
            var (n, r) := Report(st, b, success, remaining, env);
            var done := success
            && (if p.kind.Enrollment? then remaining > 0 && p.cookieCount == Some(remaining) else remaining == 0);
            && n.journal == WithLast(st.journal,
                                     Last(st.journal).(phase := if done then Completed else ReconciliationRequired))
            && n.lease == (if done && !p.kind.Enrollment?
                           then st.lease.(state := Sealed, leaseId := None, grantedAt := None, expiresAt := None)
                           else st.lease.(state := if done then Leased else Degraded)).(
                            pendingOperationId := None, transitionSequence := st.lease.transitionSequence + 1)
            && n.disk.vault == st.disk.vault && n.pending.None?
            && r.Ok? && |r.value| == 1
            && r.value[0] == OperationCompleted(b.operationId, b.sequence, b.leaseId, r.value[0].success)
            && (r.value[0].success && !done <==>
                  p.kind.Enrollment? && success && remaining > 0 && p.cookieCount != Some(remaining))
            && (done ==> r.value[0].success)
  {
    var p := st.pending.value;
    var st0 := st.(pending := None);
    ReadyIsCommitted(st, b);
    ReportShape(st, b, success, remaining, env);
    EndedAs(st0, b.operationId, p.kind, EvictOutcome(p, success, remaining));
    EndVault(st0, b.operationId, p.kind, EvictOutcome(p, success, remaining));
  }

  lemma EndVault(st: St, id: Uuid, kind: Kind, outcome: Phase)
    ensures EndOperation(st, id, kind, outcome).0.disk.vault == st.disk.vault
    ensures EndOperation(st, id, kind, outcome).0.pending == st.pending
  {
    TransitVault(st, id, outcome);
  }

  /** An enrollment that went through a removal prepare never completes: the prepare forgets the
      captured number, so every report sends it to reconciliation. */
  lemma PreparedEnrollmentNeverCompletes(st: St, b: Reference, success: bool, remaining: nat, env: Env)
    requires AwaitsResult(st, b) && st.pending.value.kind.Enrollment? && st.log == []
    ensures var n := Handle(st, PrepareMessage(b), env).0;
            Report(n, b, success, remaining, env).0.journal ==
              WithLast(st.journal, Last(st.journal).(phase := ReconciliationRequired))
  {
    var n := Handle(st, PrepareMessage(b), env).0;
    PreparedReady(st, b, env);
    PendingEdit(st, n.pending.value);
    ReportDecides(n, b, success, remaining, env);
  }
}
