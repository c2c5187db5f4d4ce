/** What the host contributes to guarded removal: when it authorises, and what it leaves alone while
    a removal is under way (native-host/src/dispatcher.rs, operation/coordinator.rs). */
module RemovalHost {
  import opened Base
  import opened JournalModel
  import opened EngineSpec
  import opened EngineInvariant
  import opened EngineSafety

  // ---------------------------------------------------------------------------------------------
  // The vault stays while an operation is committed and unresolved
  // ---------------------------------------------------------------------------------------------

  predicate Committed(j: Journal) { Active(j) && Last(j).snapshot.Some? }

  /** A committed, unresolved operation has its vault. */
  predicate VaultKept(st: St) { Committed(st.journal) ==> st.disk.vault.Some? }

  /** The one message that breaks this: an invalidation that the host accepts while an operation is
      unresolved and nothing is pending in memory. */
  predicate Careless(st: St, m: Message) {
    && m.SessionInvalidate? && st.connected
    && Active(st.journal) && st.pending.None?
    && (m.invalidateLeaseId.None? || m.invalidateLeaseId == st.lease.leaseId)
  }

  predicate SameFiles(st: St, n: St) { n.journal == st.journal && n.disk.vault == st.disk.vault }

  lemma BeganKept(n: St)
    requires HostInv(n) && n.pending.Some? && !n.pending.value.confirmed
    ensures VaultKept(n)
  {
  }

  lemma LeaseRequestFiles(st: St, enroll: bool, env: Env)
    ensures var n := HandleLeaseRequest(st, enroll, env).0;
            SameFiles(st, n) || (n.pending.Some? && !n.pending.value.confirmed)
  {
  }

  lemma LeaseRequestKept(st: St, enroll: bool, env: Env)
    requires HostInv(st) && st.log == [] && VaultKept(st)
    ensures VaultKept(HandleLeaseRequest(st, enroll, env).0)
  {
    LeaseRequestFiles(st, enroll, env);
    LeaseRequestSafe(st, enroll, env);
    var n := HandleLeaseRequest(st, enroll, env).0;
    if !SameFiles(st, n) { BeganKept(n); }
  }

  lemma StartEvictionShape(st: St, id: Uuid, leaseId: Option<Uuid>, reason: string, kind: Kind)
    ensures var n := StartEviction(st, id, leaseId, reason, kind).0;
            n == st || (n.pending.Some? && !n.pending.value.confirmed)
  {
  }

  lemma EvictBeginKept(st: St, id: Uuid, leaseId: Option<Uuid>, reason: string)
    requires HostInv(st) && st.log == [] && VaultKept(st)
    ensures VaultKept(HandleEvictBegin(st, id, leaseId, reason).0)
  {
    if st.pending.None? && IsReconciliation(st.lease, reason) {
      PrepareGood(st);
      ReconciliationBeginSafe(st, id, leaseId, reason);
      var st1 := PrepareForV6Reconciliation(st).0;
      StartEvictionShape(st1, id, leaseId, reason, Reconciliation);
      assert HandleEvictBegin(st, id, leaseId, reason) == StartEviction(st1, id, leaseId, reason, Reconciliation);
    } else {
      EvictBeginSafe(st, id, leaseId, reason);
      StartEvictionShape(st, id, leaseId, reason, Eviction);
    }
  }

  lemma OperationBeginShape(st: St, attempt: Uuid, kind: Kind, leaseId: Option<Uuid>, reason: string, env: Env)
    ensures var n := HandleOperationBegin(st, attempt, kind, leaseId, reason, env).0;
            n == st || (n.pending.Some? && !n.pending.value.confirmed)
  {
  }

  lemma OperationBeginKept(st: St, attempt: Uuid, kind: Kind, leaseId: Option<Uuid>, reason: string, env: Env)
    requires HostInv(st) && st.log == [] && VaultKept(st)
    ensures VaultKept(HandleOperationBegin(st, attempt, kind, leaseId, reason, env).0)
  {
    OperationBeginShape(st, attempt, kind, leaseId, reason, env);
    OperationBeginSafe(st, attempt, kind, leaseId, reason, env);
    KeptOrBegan(st, HandleOperationBegin(st, attempt, kind, leaseId, reason, env).0);
  }

  lemma KeptOrBegan(st: St, n: St)
    requires VaultKept(st) && HostInv(n) && (n == st || (n.pending.Some? && !n.pending.value.confirmed))
    ensures VaultKept(n)
  {
  }

  lemma EvictResultKept(st: St, id: Uuid, leaseId: Option<Uuid>, success: bool, remaining: nat)
    requires HostInv(st) && st.log == [] && VaultKept(st)
    ensures VaultKept(HandleEvictResult(st, id, leaseId, success, remaining).0)
  {
    if st.pending.Some? && st.pending.value.operationId == id && st.pending.value.leaseId == leaseId &&
       st.pending.value.confirmed {
      var st0, outcome := st.(pending := None), EvictOutcome(st.pending.value, success, remaining);
      if Transit(st0, id, outcome).1.Ok? {
        EndGood(st, st0, id, outcome);
      }
    }
  }

  lemma CommitBufferedKept(st: St, st0: St, c: Chunk, cookies: seq<CookieRecord>, p: Pending, env: Env)
    requires HostInv(st) && st.log == [] && st0 == st.(pending := st0.pending) && VaultKept(st)
    requires p.operationId == c.operationId
    ensures VaultKept(CommitBuffered(st0, c, cookies, p, env).0)
  {
    CommitBufferedShape(st0, c, cookies, p, env);
    var prepared := PrepareAfterSnapshot(st.disk.vault, cookies, env.nonce, env.fits);
    if prepared.Ok? && CanCommit(st0, c.operationId) {
      PreparedTrue(st.disk.vault, cookies, env.nonce, env.fits);
      CommitGood(st, st0, c.operationId, cookies, prepared.value);
      ConfirmVault(CommitSnapshot(st0, c.operationId, cookies, prepared.value).0, c.operationId,
                   prepared.value.vaultSequence,
                   p.(confirmed := true, cookieCount := Some(|cookies|)));
    }
  }

  lemma ConfirmVault(st: St, id: Uuid, sequence: nat, p: Pending)
    ensures ConfirmCommitted(st, id, sequence, p).0.disk.vault == st.disk.vault
  {
  }

  lemma SnapshotChunkKept(st: St, st0: St, c: Chunk, env: Env)
    requires HostInv(st) && st.log == [] && SamePending(st, st0) && VaultKept(st)
    ensures VaultKept(HandleSnapshotChunk(st0, c, env).0)
  {
    if st.pending.Some? {
      var (p, appended) := AppendCommitChunk(st0.pending.value, c);
      if appended == Ok(true) {
        if p.kind.Enrollment? && p.cookies == [] {
          AbortEmptyKept(st, st0.(pending := None), c.operationId);
        } else {
          CommitBufferedKept(st, st0.(pending := Some(p)), c, p.cookies, p.(cookies := []), env);
        }
      }
    }
  }

  lemma AbortEmptyKept(st: St, st0: St, id: Uuid)
    requires HostInv(st) && st.log == [] && st0 == st.(pending := None) && VaultKept(st)
    requires st.pending.Some? && st.pending.value.operationId == id
    ensures VaultKept(AbortEmpty(st0, id).0)
  {
    if Transit(st0, id, Aborted).1.Ok? {
      EndGood(st, st0, id, Aborted);
    }
  }

  /** A removal chunk changes the journal only by giving the operation up. */
  lemma RemovalChunkFiles(st: St, c: Chunk)
    requires c.operationSequence.Some? && c.attemptId.Some? && st.pending.Some?
    ensures var n := HandleRemovalChunk(st, c).0;
            var st1 := st.(pending := Some(AppendV7Chunk(st.pending.value, c).0));
            SameFiles(st, n) ||
            (Transit(st1, c.operationId, ReconciliationRequired).1.Ok? &&
             SameFiles(Transit(st1, c.operationId, ReconciliationRequired).0, n))
  {
  }

  lemma RemovalChunkKept(st: St, st0: St, c: Chunk)
    requires HostInv(st) && st.log == [] && SamePending(st, st0) && c.operationSequence.Some? && c.attemptId.Some?
    requires VaultKept(st)
    requires st.pending.Some? && st.pending.value.operationId == c.operationId
    ensures VaultKept(HandleRemovalChunk(st0, c).0)
  {
    RemovalChunkFiles(st0, c);
    var st1 := st0.(pending := Some(AppendV7Chunk(st0.pending.value, c).0));
    if Transit(st1, c.operationId, ReconciliationRequired).1.Ok? {
      EndGood(st, st1, c.operationId, ReconciliationRequired);
    }
  }

  lemma ChunkV7Kept(st: St, c: Chunk, env: Env)
    requires HostInv(st) && st.log == [] && VaultKept(st)
    ensures VaultKept(HandleSnapshotChunkV7(st, c, env).0)
  {
    SnapshotChunkV7Shape(st, c, env);
    if Fresh(st, c) {
      match c.purpose.value
      case RemovalPrecheck => RemovalChunkKept(st, Noted(st, c), c);
      case UnknownPurpose =>
      case CommitPurpose => SnapshotChunkKept(st, Noted(st, c), c, env);
    }
  }

  /** Messages that touch neither journal nor vault. */
  predicate Quiet(m: Message) { m.Handshake? || m.OperationStatusQuery? }

  lemma QuietFiles(st: St, m: Message, env: Env)
    requires Quiet(m) || m.InjectResult? || m.RemovePrepare?
    ensures var n := Handle(st, m, env).0;
            SameFiles(st, n) && (forall i :: |st.log| <= i < |n.log| ==> n.log[i].vault == st.disk.vault)
            && |st.log| <= |n.log|
  {
  }

  lemma InvalidateKept(st: St, leaseId: Option<Uuid>)
    requires VaultKept(st)
    requires st.pending.Some? || !Active(st.journal) || (leaseId.Some? && leaseId != st.lease.leaseId)
    ensures VaultKept(HandleSessionInvalidate(st, leaseId).0)
  {
  }

  lemma CarelessLoses(st: St, m: Message, env: Env)
    requires HostInv(st) && VaultKept(st) && Careless(st, m)
    ensures !VaultKept(Handle(st, m, env).0)
  {
    assert Committed(st.journal) && !st.lease.state.Uninitialized?;
  }

  lemma BeginKept(st: St, m: Message, env: Env)
    requires HostInv(st) && st.log == [] && VaultKept(st) && st.connected
    requires (m.LeaseRequest? || m.EvictBegin? || m.OperationBegin?)
    ensures VaultKept(Handle(st, m, env).0)
  {
    match m
    case LeaseRequest(enroll) => LeaseRequestKept(st, enroll, env);
    case EvictBegin(id, leaseId, reason) => EvictBeginKept(st, id, leaseId, reason);
    case OperationBegin(attempt, kind, leaseId, reason) => OperationBeginKept(st, attempt, kind, leaseId, reason, env);
  }

  lemma ChunkOrResultKept(st: St, m: Message, env: Env)
    requires HostInv(st) && st.log == [] && VaultKept(st) && st.connected && (m.SnapshotChunk? || m.EvictResult?)
    ensures VaultKept(Handle(st, m, env).0)
  {
    match m
    case SnapshotChunk(c) => if st.v7 { ChunkV7Kept(st, c, env); } else { SnapshotChunkKept(st, st, c, env); }
    case EvictResult(id, leaseId, success, remaining, sequence, attempt) =>
      EvictResultKept(st, id, leaseId, success, remaining);
  }

  lemma CarefulKept(st: St, m: Message, env: Env)
    requires HostInv(st) && st.log == [] && VaultKept(st) && !Careless(st, m)
    ensures VaultKept(Handle(st, m, env).0)
  {
    if Quiet(m) || m.InjectResult? || m.RemovePrepare? {
      QuietFiles(st, m, env);
    } else if st.connected {
      if m.SnapshotChunk? || m.EvictResult? {
        ChunkOrResultKept(st, m, env);
      } else if m.SessionInvalidate? {
        InvalidateKept(st, m.invalidateLeaseId);
      } else {
        BeginKept(st, m, env);
      }
    }
  }

  /** A message keeps the vault of a committed, unresolved operation if and only if it is not a careless
      invalidation. */
  lemma HandleKept(st: St, m: Message, env: Env)
    requires HostInv(st) && st.log == [] && VaultKept(st)
    ensures VaultKept(Handle(st, m, env).0) <==> !Careless(st, m)
  {
    if Careless(st, m) { CarelessLoses(st, m, env); } else { CarefulKept(st, m, env); }
  }

  // ---------------------------------------------------------------------------------------------
  // A removal under way
  // ---------------------------------------------------------------------------------------------

  /** The binding under which the extension prepares a removal. */
  datatype Reference = Reference(operationId: Uuid, sequence: nat, leaseId: Option<Uuid>, attempt: Uuid)

  predicate IsPrecheck(m: Message) { m.SnapshotChunk? && m.chunk.purpose == Some(RemovalPrecheck) }

  /** Messages that neither belong to a prepare nor report its outcome. */
  predicate Plain(m: Message) { !m.RemovePrepare? && !IsPrecheck(m) && !m.EvictResult? }

  predicate Authorizes(r: Result<seq<Reply>>) {
    r.Ok? && exists i :: 0 <= i < |r.value| && r.value[i].RemoveAuthorized?
  }

  /** Memory still works on the committed operation, so nothing else may start. */
  predicate Locked(st: St) {
    st.connected && st.v7 && Committed(st.journal) && st.pending.Some?
  }

  /** A step that leaves the vault as it was at every write. */
  predicate VaultUntouched(st: St, n: St) {
    && n.disk.vault == st.disk.vault
    && forall i :: 0 <= i < |n.log| ==> n.log[i].vault == st.disk.vault
  }

  lemma CommitChunkRefused(st: St, c: Chunk, env: Env)
    requires st.pending.Some? && st.pending.value.confirmed
    ensures HandleSnapshotChunk(st, c, env) == (st, Err(Protocol))
  {
  }

  lemma LockedChunk(st: St, c: Chunk, env: Env)
    requires HostInv(st) && st.log == [] && Locked(st) && c.purpose != Some(RemovalPrecheck)
    ensures var (n, r) := HandleSnapshotChunkV7(st, c, env);
            VaultUntouched(st, n) && Locked(n) && !Authorizes(r)
  {
    if Fresh(st, c) {
      CommitChunkRefused(Noted(st, c), c, env);
    }
  }

  lemma LockedBegin(st: St, m: Message, env: Env)
    requires HostInv(st) && st.log == [] && Locked(st)
    requires (m.LeaseRequest? || m.EvictBegin? || m.OperationBegin? || m.SessionInvalidate?)
    ensures var (n, r) := Handle(st, m, env);
            n == st && !Authorizes(r)
  {
  }

  lemma LockedQuiet(st: St, m: Message, env: Env)
    requires HostInv(st) && st.log == [] && Locked(st) && (Quiet(m) || m.InjectResult?)
    ensures var (n, r) := Handle(st, m, env);
            VaultUntouched(st, n) && Locked(n) && !Authorizes(r)
  {
    QuietFiles(st, m, env);
  }

  /** While the committed operation is pending, no message but its own outcome moves the vault. */
  lemma LockedKeeps(st: St, m: Message, env: Env)
    requires HostInv(st) && st.log == [] && Locked(st) && Plain(m)
    ensures var (n, r) := Handle(st, m, env);
            VaultUntouched(st, n) && Locked(n) && !Authorizes(r)
  {
    if Quiet(m) || m.InjectResult? {
      LockedQuiet(st, m, env);
    } else if m.SnapshotChunk? {
      LockedChunk(st, m.chunk, env);
    } else {
      LockedBegin(st, m, env);
    }
  }

  lemma CommitChunkSilent(st: St, c: Chunk, env: Env)
    ensures !Authorizes(HandleSnapshotChunk(st, c, env).1)
  {
  }

  lemma ChunkSilent(st: St, c: Chunk, env: Env)
    requires c.purpose != Some(RemovalPrecheck)
    ensures !Authorizes(HandleSnapshotChunkV7(st, c, env).1)
  {
    if Fresh(st, c) {
      CommitChunkSilent(Noted(st, c), c, env);
    }
  }

  /** Only a precheck chunk is ever answered with an authorisation. */
  lemma OnlyPrecheckAuthorizes(st: St, m: Message, env: Env)
    requires !IsPrecheck(m)
    ensures !Authorizes(Handle(st, m, env).1)
  {
    if m.SnapshotChunk? {
      ChunkSilent(st, m.chunk, env);
      CommitChunkSilent(st, m.chunk, env);
    }
  }

  // ---------------------------------------------------------------------------------------------
  // Prepare and precheck
  // ---------------------------------------------------------------------------------------------

  /** The extension's fresh snapshot, cut into chunks, with their encoded sizes. */
  datatype Prepare = Prepare(binding: Reference, chunks: seq<seq<CookieRecord>>, sizes: seq<nat>) {
    predicate Valid() { 0 < |chunks| == |sizes| }
  }

  function PrepareMessage(b: Reference): Message { RemovePrepare(b.operationId, b.sequence, b.leaseId, b.attempt) }

  function ChunkAt(p: Prepare, i: nat): Chunk
    requires p.Valid() && i < |p.chunks|
  {
    Chunk(p.binding.operationId, p.binding.leaseId, i, |p.chunks|, |Flatten(p.chunks)|, p.chunks[i], p.sizes[i],
          Some(p.binding.sequence), Some(p.binding.attempt), Some(RemovalPrecheck))
  }

  /** The guard of evict.remove.prepare. */
  predicate Ready(st: St, b: Reference) {
    && st.connected && st.v7 && st.pending.Some?
    && var p := st.pending.value;
       p.operationId == b.operationId && p.operationSequence == b.sequence && p.leaseId == b.leaseId
       && p.attemptId == Some(b.attempt) && p.confirmed
  }

  /** After the prepare and n of its chunks: either the prepare was refused, or the buffer holds a
      prefix of exactly these chunks. */
  predicate Tracks(st: St, p: Prepare, n: nat) {
    Ready(st, p.binding) ==>
      var buffered := st.pending.value.nextChunk;
      buffered <= n <= |p.chunks| && st.pending.value.cookies == Flatten(p.chunks[..buffered])
  }

  lemma PrepareTracks(st: St, p: Prepare, env: Env)
    requires p.Valid()
    ensures var (n, r) := Handle(st, PrepareMessage(p.binding), env);
            Tracks(n, p, 0) && !Authorizes(r) && (st.log == [] ==> VaultUntouched(st, n))
  {
    assert p.chunks[..0] == [];
  }

  /** Records the host may see deleted: none, or exactly those sealed in the vault. */
  predicate Covered(authorized: seq<CookieRecord>, vault: Option<VaultFile>) {
    authorized == [] || (vault.Some? && vault.value.Record? && vault.value.cookies == authorized)
  }

  lemma ReadyIsCommitted(st: St, b: Reference)
    requires HostInv(st) && Ready(st, b)
    ensures Locked(st) && Last(st.journal).operationId == b.operationId
    ensures Get(st.journal, b.operationId) == Last(st.journal)
    ensures Has(st.journal, b.operationId)
  {
    LastIndex(st.journal, st.groupId, b.operationId);
  }

  /** The tag comparison succeeds only on the snapshot that was committed, which is what the vault
      holds. */
  lemma VerifiedIsCovered(st: St, b: Reference, cookies: seq<CookieRecord>)
    requires HostInv(st) && VaultKept(st) && Ready(st, b)
    requires VerifySnapshot(st, b.operationId, b.sequence, b.attempt, cookies) == Ok(true)
    ensures Covered(cookies, st.disk.vault)
  {
    ReadyIsCommitted(st, b);
    var u := Last(st.journal);
    assert u.snapshot.value.tag.snapshot == cookies;
    assert ActiveConsistent(u, st.disk.vault, st.disk.lease, st.groupId);
    assert BindingTrue(u, st.groupId);
  }

  lemma AppendTracks(q: Pending, p: Prepare, n: nat)
    requires p.Valid() && n < |p.chunks| && q.nextChunk <= n && q.cookies == Flatten(p.chunks[..q.nextChunk])
    ensures var (q', r) := AppendV7Chunk(q, ChunkAt(p, n));
            && q'.nextChunk <= n + 1 && q'.cookies == Flatten(p.chunks[..q'.nextChunk])
            && q'.operationId == q.operationId && q'.operationSequence == q.operationSequence && q'.leaseId == q.leaseId
            && q'.attemptId == q.attemptId && q'.confirmed == q.confirmed && q'.kind == q.kind
            && (r.Ok? && q'.nextChunk >= |p.chunks| ==>
                  q'.nextChunk == |p.chunks| == n + 1 && q'.cookies == Flatten(p.chunks))
  {
    FlattenNext(p.chunks, n);
    assert p.chunks[..|p.chunks|] == p.chunks;
  }

  lemma TransitVault(st: St, id: Uuid, p: Phase)
    ensures var n := Transit(st, id, p).0;
            && n.disk.vault == st.disk.vault && n.pending == st.pending && n.connected == st.connected && n.v7 == st.v7
            && (Transit(st, id, p).1.Err? ==> n == st)
            && |st.log| <= |n.log| && forall i :: 0 <= i < |n.log| ==>
              if i < |st.log| then n.log[i] == st.log[i] else n.log[i].vault == st.disk.vault
  {
  }

  /** The state of the buffer after chunk n, before any verdict. */
  function Buffered(st: St, c: Chunk): St
    requires st.pending.Some?
  {
    st.(pending := Some(AppendV7Chunk(st.pending.value, c).0))
  }

  lemma BufferedTracks(st: St, p: Prepare, n: nat)
    requires HostInv(st) && st.log == [] && p.Valid() && n < |p.chunks| && Ready(st, p.binding) && Tracks(st, p, n)
    ensures var m := Buffered(Noted(st, ChunkAt(p, n)), ChunkAt(p, n));
            HostInv(m) && Ready(m, p.binding) && Tracks(m, p, n + 1) && SamePending(st, m)
  {
    var c := ChunkAt(p, n);
    AppendTracks(Noted(st, c).pending.value, p, n);
    SamePendingSafe(st, Buffered(Noted(st, c), c));
  }

  /** A chunk of an accepted prepare: an authorisation comes only with the last one, and then the
      whole snapshot is what the vault holds. */
  lemma AcceptedChunk(st: St, p: Prepare, n: nat)
    requires HostInv(st) && st.log == [] && VaultKept(st) && p.Valid() && n < |p.chunks| && Ready(st, p.binding)
    requires Tracks(st, p, n)
    ensures var (m, r) := HandleRemovalChunk(Noted(st, ChunkAt(p, n)), ChunkAt(p, n));
            && VaultUntouched(st, m) && Tracks(m, p, n + 1)
            && (Authorizes(r) ==> n + 1 == |p.chunks| && Locked(m) && Covered(Flatten(p.chunks), m.disk.vault))
  {
    var c := ChunkAt(p, n);
    var st0 := Noted(st, c);
    var st1 := Buffered(st0, c);
    BufferedTracks(st, p, n);
    AppendTracks(st0.pending.value, p, n);
    ReadyIsCommitted(st1, p.binding);
    var appended := AppendV7Chunk(st0.pending.value, c).1;
    if appended.Ok? && st1.pending.value.nextChunk >= |p.chunks| {
      var verdict := VerifySnapshot(st1, c.operationId, c.operationSequence.value, c.attemptId.value,
                                    st1.pending.value.cookies);
      if verdict == Ok(true) {
        VerifiedIsCovered(st1, p.binding, st1.pending.value.cookies);
      } else {
        TransitVault(st1, c.operationId, ReconciliationRequired);
      }
    }
  }

  /** A chunk of a refused prepare can be buffered at most; it is never answered with an
      authorisation. */
  lemma RefusedRemovalChunk(st: St, p: Prepare, n: nat)
    requires HostInv(st) && st.log == [] && p.Valid() && n < |p.chunks| && !Ready(st, p.binding) && st.connected
    requires st.v7
    requires Fresh(st, ChunkAt(p, n))
    ensures var (m, r) := HandleRemovalChunk(Noted(st, ChunkAt(p, n)), ChunkAt(p, n));
            VaultUntouched(st, m) && !Ready(m, p.binding) && !Authorizes(r)
  {
    var c := ChunkAt(p, n);
    var st1 := Buffered(Noted(st, c), c);
    assert !st.pending.value.confirmed;
    LastIndex(st.journal, st.groupId, c.operationId);
    assert Active(st.journal) && Last(st.journal).snapshot.None?;
    assert VerifySnapshot(st1, c.operationId, c.operationSequence.value, c.attemptId.value,
                          st1.pending.value.cookies).Err?;
  }

  predicate SameConnection(st: St, n: St) { n.v7 == st.v7 && n.connected == st.connected }

  lemma CommitConnection(st: St, id: Uuid, cookies: seq<CookieRecord>, p: Prepared)
    ensures SameConnection(st, CommitSnapshot(st, id, cookies, p).0)
  {
    if Has(st.journal, id) && st.profileId.Some? {
      var bound := JournalModel.BindSnapshot(st.journal, id,
        Binding(TagFor(st, st.profileId.value, Get(st.journal, id), cookies), p.previousDigest, p.targetDigest,
                p.vaultSequence, |cookies|));
      if bound.Ok? {
        var st1 := if bound.value.Some? then PersistJournal(st, bound.value.value) else st;
        assert SameConnection(st, st1);
        var (st2, marked) := Transit(st1, id, DurabilityUnknown);
        TransitVault(st1, id, DurabilityUnknown);
        var st3 := if p.commitRequired then WriteVault(st2, Some(p.bytes)) else st2;
        assert SameConnection(st2, st3);
        TransitVault(st3, id, JournalModel.Committed);
      }
    }
  }

  lemma BufferedConnection(st: St, c: Chunk, cookies: seq<CookieRecord>, p: Pending, env: Env)
    ensures SameConnection(st, CommitBuffered(st, c, cookies, p, env).0)
  {
    var prepared := PrepareAfterSnapshot(st.disk.vault, cookies, env.nonce, env.fits);
    if prepared.Ok? {
      CommitConnection(st, c.operationId, cookies, prepared.value);
      var (st2, committed) := CommitSnapshot(st, c.operationId, cookies, prepared.value);
      if committed.Ok? {
        ConfirmConnection(st2, c.operationId, committed.value, p.(confirmed := true, cookieCount := Some(|cookies|)));
      }
    }
  }

  lemma ConfirmConnection(st: St, id: Uuid, sequence: nat, p: Pending)
    ensures SameConnection(st, ConfirmCommitted(st, id, sequence, p).0)
  {
  }

  lemma CommitChunkConnection(st: St, c: Chunk, env: Env)
    ensures SameConnection(st, HandleSnapshotChunk(st, c, env).0)
  {
    if st.pending.Some? {
      var p := AppendCommitChunk(st.pending.value, c).0;
      BufferedConnection(st.(pending := Some(p)), c, p.cookies, p.(cookies := []), env);
      assert SameConnection(st, AbortEmpty(st.(pending := None), c.operationId).0);
    }
  }

  /** One chunk of a prepare, delivered to a host in any state that tracks it. */
  lemma ChunkTracks(st: St, p: Prepare, n: nat, env: Env)
    requires HostInv(st) && st.log == [] && VaultKept(st) && p.Valid() && n < |p.chunks| && Tracks(st, p, n)
    ensures var (m, r) := Handle(st, SnapshotChunk(ChunkAt(p, n)), env);
            && Tracks(m, p, n + 1)
            && (Authorizes(r) ==> n + 1 == |p.chunks| && Locked(m) && Covered(Flatten(p.chunks), m.disk.vault))
  {
    var c := ChunkAt(p, n);
    if !st.connected {
    } else if !st.v7 {
      CommitChunkConnection(st, c, env);
      CommitChunkSilent(st, c, env);
    } else {
      SnapshotChunkV7Shape(st, c, env);
      if Fresh(st, c) {
        assert HandleSnapshotChunkV7(st, c, env) == HandleRemovalChunk(Noted(st, c), c);
        if Ready(st, p.binding) { AcceptedChunk(st, p, n); } else { RefusedRemovalChunk(st, p, n); }
      }
    }
  }

  // ---------------------------------------------------------------------------------------------
  // The careless invalidation
  // ---------------------------------------------------------------------------------------------

  /** The unresolved operation as a removal binding. */
  function ReferenceOf(o: Operation): Reference
    requires o.attemptId.Some?
  {
    Reference(o.operationId, o.sequence, o.leaseId, o.attemptId.value)
  }

  /** A host that recovered a committed operation and has nothing pending. */
  predicate Resting(st: St) {
    && HostInv(st) && st.connected && st.v7 && st.pending.None? && !st.lease.state.Uninitialized?
    && Committed(st.journal) && Last(st.journal).attemptId.Some?
    && Last(st.journal).snapshot.value.tag.profileId == st.profileId.value
    && 0 < |Last(st.journal).snapshot.value.tag.snapshot| <= MAX_SNAPSHOT_COOKIES
  }

  /** Startup after a crash in the middle of a removal, followed by the handshake, leaves this state. */
  lemma RecoveredRests(st: St, env: Env)
    requires HostInv(st) && st.log == [] && AfterOpen(st) && Active(st.journal) && !st.connected && st.profileId.None?
    requires st.lease.protocolFloor <= 7
    requires var o := Last(st.journal);
             && o.attemptId.Some? && o.snapshot.value.tag.profileId != NIL
             && 0 < |o.snapshot.value.tag.snapshot| <= MAX_SNAPSHOT_COOKIES
    ensures Resting(Handle(st, Handshake(Last(st.journal).snapshot.value.tag.profileId, true, Accepted), env).0)
  {
    HandshakeSafe(st, Last(st.journal).snapshot.value.tag.profileId, true, Accepted);
  }

  function Whole(o: Operation, size: nat): Prepare
    requires o.attemptId.Some? && o.snapshot.Some?
  {
    Prepare(ReferenceOf(o), [o.snapshot.value.tag.snapshot], [size])
  }

  lemma InvalidatedResting(st: St, env: Env)
    requires Resting(st)
    ensures var n := Handle(st, SessionInvalidate(None), env).0;
            && n.journal == st.journal && n.disk.vault.None? && n.pending.None? && n.connected && n.v7
            && n.profileId == st.profileId && n.groupId == st.groupId
  {
  }

  lemma QueriedReady(st: St, env: Env)
    requires WellFormed(st.journal, st.groupId) && st.connected && st.v7 && st.pending.None?
    requires Committed(st.journal) && Last(st.journal).phase.IsCommitted() && Last(st.journal).attemptId.Some?
    ensures var o := Last(st.journal);
            var n := Handle(st, OperationStatusQuery(o.operationId, o.sequence, o.leaseId), env).0;
            n == st.(pending := n.pending) && Ready(n, ReferenceOf(o))
  {
    LastIndex(st.journal, st.groupId, Last(st.journal).operationId);
  }

  /** The buffer of a removal snapshot before its first chunk. */
  predicate Emptied(q: Pending) {
    q.nextChunk == 0 && q.cookies == [] && q.bytes == 0 && q.chunkCount.None? && q.chunkDigests == map[]
  }

  lemma WholeAuthorized(st: St, size: nat, env: Env)
    requires WellFormed(st.journal, st.groupId) && Committed(st.journal) && Last(st.journal).attemptId.Some?
    requires st.profileId.Some?
    requires BindingTrue(Last(st.journal), st.groupId) && size <= MAX_SNAPSHOT_BYTES
    requires Last(st.journal).snapshot.value.tag.profileId == st.profileId.value
    requires |Last(st.journal).snapshot.value.tag.snapshot| <= MAX_SNAPSHOT_COOKIES
    requires Ready(st, ReferenceOf(Last(st.journal)))
    requires Emptied(st.pending.value)
    ensures Authorizes(Handle(st, SnapshotChunk(ChunkAt(Whole(Last(st.journal), size), 0)), env).1)
    ensures Handle(st, SnapshotChunk(ChunkAt(Whole(Last(st.journal), size), 0)), env).0.disk == st.disk
  {
    var o := Last(st.journal);
    var c := ChunkAt(Whole(o, size), 0);
    LastIndex(st.journal, st.groupId, o.operationId);
    FlattenNext([c.cookies], 0);
    assert [c.cookies][..1] == [c.cookies];
    var q := AppendV7Chunk(Noted(st, c).pending.value, c);
    assert q.1.Ok? && q.0.cookies == c.cookies && q.0.nextChunk == 1;
    var m := Noted(st, c).(pending := Some(q.0));
    assert VerifySnapshot(m, o.operationId, o.sequence, o.attemptId.value, c.cookies) == Ok(true);
    var r := HandleRemovalChunk(Noted(st, c), c);
    assert r.1.Ok? && r.1.value[0].RemoveAuthorized?;
  }

  function AfterInvalidation(st: St, env: Env): St { Handle(st, SessionInvalidate(None), env).0 }

  function AfterQuery(st: St, o: Operation, env: Env): St
  {
    Handle(st, OperationStatusQuery(o.operationId, o.sequence, o.leaseId), env).0
  }

  function AfterPrepare(st: St, b: Reference, env: Env): St { Handle(st, PrepareMessage(b), env).0 }

  lemma PreparedReady(st: St, b: Reference, env: Env)
    requires Ready(st, b)
    ensures var n := AfterPrepare(st, b, env);
            && n == st.(pending := n.pending) && Ready(n, b)
            && Emptied(n.pending.value)
  {
  }

  /** Every such host, after an invalidation, still authorises the removal of the committed records
      although the vault is gone: the refusal to invalidate looks at memory only. */
  lemma CarelessInvalidationLosesVault(st: St, size: nat, env: Env)
    requires Resting(st) && size <= MAX_SNAPSHOT_BYTES
    ensures var o := Last(st.journal);
            var n := AfterPrepare(AfterQuery(AfterInvalidation(st, env), o, env), ReferenceOf(o), env);
            && n.disk.vault.None?
            && Authorizes(Handle(n, SnapshotChunk(ChunkAt(Whole(o, size), 0)), env).1)
  {
    var o := Last(st.journal);
    InvalidatedResting(st, env);
    var n1 := AfterInvalidation(st, env);
    QueriedReady(n1, env);
    var n2 := AfterQuery(n1, o, env);
    PreparedReady(n2, ReferenceOf(o), env);
    WholeAuthorized(AfterPrepare(n2, ReferenceOf(o), env), size, env);
  }
}
