/** A whole snapshot on its way through the host: sent in chunks for a commit it ends as exactly the
    records sealed in the vault, and sent again before the removal it is authorised if and only if it
    is the committed one (native-host/src/dispatcher.rs, operation/coordinator.rs). */
module CommitTransfer {
  import opened Base
  import opened JournalModel
  import opened EngineSpec
  import opened EngineInvariant
  import opened EngineSafety
  import opened RemovalHost
  import Chunks

  /** The chunk as sent for the given purpose. */
  function Sent(p: Prepare, i: nat, purpose: Purpose): Chunk
    requires p.Valid() && i < |p.chunks|
  {
    ChunkAt(p, i).(purpose := Some(purpose))
  }

  /** A snapshot within the host's limits, cut as the extension cuts it. */
  predicate Admissible(p: Prepare) {
    && p.Valid() && |p.chunks| <= MAX_CHUNKS && |Flatten(p.chunks)| <= MAX_SNAPSHOT_COOKIES
    && Chunks.Sum(p.sizes) <= MAX_SNAPSHOT_BYTES
    && forall i :: 0 <= i < |p.chunks| - 1 ==> p.chunks[i] != []
  }

  /** The pending operation waits for the first chunk under this reference. */
  predicate Waiting(q: Pending, b: Reference) {
    && q.operationId == b.operationId && q.operationSequence == b.sequence && q.leaseId == b.leaseId
    && q.attemptId == Some(b.attempt)
    && Emptied(q)
  }

  /** What the host remembers of the first n chunks to recognise repetitions. */
  function Digests(p: Prepare, n: nat): map<nat, seq<CookieRecord>>
    requires n <= |p.chunks|
  {
    map i | 0 <= i < n :: p.chunks[i]
  }

  /** The buffer after the first n chunks. */
  function Half(q: Pending, p: Prepare, n: nat): Pending
    requires p.Valid() && n <= |p.chunks|
  {
    q.(nextChunk := n, cookies := Flatten(p.chunks[..n]), bytes := Chunks.Sum(p.sizes[..n]),
       chunkCount := if n == 0 then None else Some(|p.chunks|),
       chunkDigests := Digests(p, n))
  }

  lemma HalfStart(q: Pending, p: Prepare)
    requires p.Valid() && Waiting(q, p.binding)
    ensures Half(q, p, 0) == q
  {
    assert p.chunks[..0] == [] && p.sizes[..0] == [];
    assert Digests(p, 0) == map[];
  }

  lemma HalfSums(p: Prepare, n: nat)
    requires Admissible(p) && n < |p.chunks|
    ensures Flatten(p.chunks[..n + 1]) == Flatten(p.chunks[..n]) + p.chunks[n]
    ensures |Flatten(p.chunks[..n + 1])| <= |Flatten(p.chunks)|
    ensures Chunks.Sum(p.sizes[..n + 1]) == Chunks.Sum(p.sizes[..n]) + p.sizes[n] <= MAX_SNAPSHOT_BYTES
    ensures n + 1 == |p.chunks| ==> Flatten(p.chunks[..n + 1]) == Flatten(p.chunks)
  {
    FlattenNext(p.chunks, n);
    FlattenPrefix(p.chunks, n + 1);
    Chunks.SumPrefix(p.sizes, n);
    assert p.chunks[..|p.chunks|] == p.chunks;
  }

  lemma DigestsNext(p: Prepare, n: nat)
    requires p.Valid() && n < |p.chunks|
    ensures Digests(p, n)[n := p.chunks[n]] == Digests(p, n + 1) == Digests(p, n + 1)[n := p.chunks[n]]
    ensures n !in Digests(p, n)
  {
  }

  /** A removal chunk from before the next one is taken again exactly with the same records, and changes
      nothing. */
  lemma RepeatedChunkIff(q: Pending, c: Chunk)
    requires c.chunkIndex < q.nextChunk && 1 <= c.chunkCount <= 65_536 && c.cookieCount <= 100_000
    ensures AppendV7Chunk(q, c).0 == q
    ensures AppendV7Chunk(q, c).1.Ok? <==>
              c.chunkIndex in q.chunkDigests && q.chunkDigests[c.chunkIndex] == c.cookies
  {
  }

  /** Both kinds of append take the next chunk and keep the rest of the pending operation. */
  lemma AppendsTake(q: Pending, p: Prepare, n: nat, purpose: Purpose)
    requires Admissible(p) && n < |p.chunks| && Waiting(q, p.binding)
    ensures var noted := Half(q, p, n).(chunkDigests := Digests(p, n + 1));
            && (!q.confirmed ==>
                  AppendCommitChunk(noted, Sent(p, n, purpose)) == (Half(q, p, n + 1), Ok(n + 1 == |p.chunks|)))
            && AppendV7Chunk(noted, Sent(p, n, purpose)) == (Half(q, p, n + 1), Ok(()))
  {
    HalfSums(p, n);
    DigestsNext(p, n);
  }

  // ---------------------------------------------------------------------------------------------
  // Any chunks at all
  // ---------------------------------------------------------------------------------------------

  function RecordsOf(cs: seq<Chunk>): seq<CookieRecord> {
    if cs == [] then [] else RecordsOf(cs[..|cs| - 1]) + cs[|cs| - 1].cookies
  }

  function BytesOf(cs: seq<Chunk>): nat {
    if cs == [] then 0 else BytesOf(cs[..|cs| - 1]) + cs[|cs| - 1].encodedBytes
  }

  /** Chunk i has its place in the transfer, is announced as the first one was, and what has come with it
      stays within the byte limit and within the announced number of records, which the last one reaches. */
  predicate InPlace(cs: seq<Chunk>, i: nat)
    requires i < |cs|
  {
    && cs[i].chunkIndex == i && cs[i].chunkCount == cs[0].chunkCount && 1 <= cs[0].chunkCount <= 65_536
    && cs[i].cookieCount <= 100_000
    && BytesOf(cs[..i + 1]) <= 33_554_432 && |RecordsOf(cs[..i + 1])| <= cs[i].cookieCount
    && (i + 1 >= cs[0].chunkCount ==> |RecordsOf(cs[..i + 1])| == cs[i].cookieCount)
  }

  /** The chunks of a commit: in place, for this operation, and none empty but the last. */
  predicate CommitChunks(q: Pending, cs: seq<Chunk>) {
    forall i :: 0 <= i < |cs| ==>
      && InPlace(cs, i) && cs[i].operationId == q.operationId && cs[i].leaseId == q.leaseId
      && (i + 1 < cs[0].chunkCount ==> cs[i].cookies != [])
  }

  predicate RemovalChunks(cs: seq<Chunk>) { forall i :: 0 <= i < |cs| ==> InPlace(cs, i) }

  /** The buffer after these chunks, and whether every one was taken. */
  function Fed(q: Pending, cs: seq<Chunk>, commit: bool): (Pending, bool) {
    if cs == [] then (q, true)
    else
      var (p, ok) := Fed(q, cs[..|cs| - 1], commit);
      if !ok then (p, false)
      else if commit then
        var (n, r) := AppendCommitChunk(p, cs[|cs| - 1]);
        (n, r.Ok?)
      else
        var (n, r) := AppendV7Chunk(p, cs[|cs| - 1]);
        (n, r.Ok?)
  }

  /** The buffer that a well-formed transfer leaves. */
  predicate Holds(q: Pending, p: Pending, cs: seq<Chunk>) {
    && p == q.(nextChunk := |cs|, cookies := RecordsOf(cs), bytes := BytesOf(cs), chunkCount := p.chunkCount,
               chunkDigests := p.chunkDigests)
    && p.chunkCount == if cs == [] then q.chunkCount else Some(cs[0].chunkCount)
  }

  lemma InPlacePrefix(cs: seq<Chunk>, i: nat)
    requires i < |cs| - 1
    ensures InPlace(cs, i) <==> InPlace(cs[..|cs| - 1], i)
  {
    assert cs[..|cs| - 1][..i + 1] == cs[..i + 1];
  }

  lemma ChunksSnoc(q: Pending, cs: seq<Chunk>)
    requires cs != []
    ensures var before, c := cs[..|cs| - 1], cs[|cs| - 1];
            && (CommitChunks(q, cs) <==>
                  CommitChunks(q, before) && InPlace(cs, |cs| - 1) && c.operationId == q.operationId
                  && c.leaseId == q.leaseId && (|cs| < cs[0].chunkCount ==> c.cookies != []))
            && (RemovalChunks(cs) <==> RemovalChunks(before) && InPlace(cs, |cs| - 1))
  {
    forall i: nat | i < |cs| - 1
      ensures InPlace(cs, i) <==> InPlace(cs[..|cs| - 1], i)
    {
      InPlacePrefix(cs, i);
    }
  }

  lemma CommitStep(q: Pending, p: Pending, cs: seq<Chunk>)
    requires cs != [] && !q.confirmed && Emptied(q) && Holds(q, p, cs[..|cs| - 1]) && CommitChunks(q, cs[..|cs| - 1])
    ensures var (n, r) := AppendCommitChunk(p, cs[|cs| - 1]);
            && (r.Ok? <==> CommitChunks(q, cs)) && (r.Ok? ==> Holds(q, n, cs))
            && (r.Ok? ==> (r.value <==> |cs| >= cs[0].chunkCount))
  {
    ChunksSnoc(q, cs);
    assert cs[..|cs|] == cs;
  }

  lemma RemovalStep(q: Pending, p: Pending, cs: seq<Chunk>)
    requires cs != [] && Emptied(q) && Holds(q, p, cs[..|cs| - 1]) && RemovalChunks(cs[..|cs| - 1])
    requires cs[|cs| - 1].chunkIndex >= |cs| - 1
    requires |cs| > 1 ==> |cs| <= cs[0].chunkCount
    ensures var (n, r) := AppendV7Chunk(p, cs[|cs| - 1]);
            (r.Ok? <==> RemovalChunks(cs)) && (r.Ok? ==> Holds(q, n, cs))
  {
    ChunksSnoc(q, cs);
    assert cs[..|cs|] == cs;
  }

  /** Whatever chunks arrive for a fresh commit, all of them are taken if and only if they are the beginning
      of one well-formed transfer, and the buffer then holds exactly their records in order. */
  lemma {:induction false} CommitTakesIff(q: Pending, cs: seq<Chunk>)
    requires Emptied(q) && !q.confirmed
    ensures var (p, ok) := Fed(q, cs, true);
            (ok <==> CommitChunks(q, cs)) && (ok ==> Holds(q, p, cs))
  {
    if cs != [] {
      var before := cs[..|cs| - 1];
      CommitTakesIff(q, before);
      ChunksSnoc(q, cs);
      if Fed(q, before, true).1 { CommitStep(q, Fed(q, before, true).0, cs); }
    }
  }

  /** The same for a removal snapshot of new chunks, in which a chunk may be empty. */
  lemma {:induction false} RemovalTakesIff(q: Pending, cs: seq<Chunk>)
    requires Emptied(q) && (forall i :: 0 <= i < |cs| ==> cs[i].chunkIndex >= i)
    requires |cs| > 1 ==> |cs| <= cs[0].chunkCount
    ensures var (p, ok) := Fed(q, cs, false);
            (ok <==> RemovalChunks(cs)) && (ok ==> Holds(q, p, cs))
  {
    if cs != [] {
      var before := cs[..|cs| - 1];
      RemovalTakesIff(q, before);
      ChunksSnoc(q, cs);
      if Fed(q, before, false).1 { RemovalStep(q, Fed(q, before, false).0, cs); }
    }
  }

  // ---------------------------------------------------------------------------------------------
  // Commit
  // ---------------------------------------------------------------------------------------------

  predicate MayCommit(st: St, p: Prepare) {
    && HostInv(st) && st.log == [] && st.connected && st.v7 && Admissible(p)
    && Active(st.journal) && Last(st.journal).snapshot.None?
    && st.pending.Some? && !st.pending.value.confirmed && Waiting(st.pending.value, p.binding)
  }

  function AtHalf(st: St, p: Prepare, n: nat): St
    requires p.Valid() && n <= |p.chunks| && st.pending.Some?
  {
    st.(pending := Some(Half(st.pending.value, p, n)))
  }

  /** Chunk n reaches the commit handler with its digest noted. */
  lemma CommitArrives(st: St, p: Prepare, n: nat, env: Env)
    requires MayCommit(st, p) && n < |p.chunks|
    ensures var c := Sent(p, n, CommitPurpose);
            var m := st.(pending := Some(Half(st.pending.value, p, n).(chunkDigests := Digests(p, n + 1))));
            && Fresh(AtHalf(st, p, n), c) && Noted(AtHalf(st, p, n), c) == m
            && HandleSnapshotChunkV7(AtHalf(st, p, n), c, env).0 == HandleSnapshotChunk(m, c, env).0
            && (HandleSnapshotChunkV7(AtHalf(st, p, n), c, env).1.Ok? <==> HandleSnapshotChunk(m, c, env).1.Ok?)
  {
    DigestsNext(p, n);
    SnapshotChunkV7Shape(AtHalf(st, p, n), Sent(p, n, CommitPurpose), env);
  }

  /** Every chunk but the last is only buffered. */
  lemma CommitBuffers(st: St, p: Prepare, n: nat, env: Env)
    requires MayCommit(st, p) && n + 1 < |p.chunks|
    ensures Handle(AtHalf(st, p, n), SnapshotChunk(Sent(p, n, CommitPurpose)), env).0 == AtHalf(st, p, n + 1)
    ensures Handle(AtHalf(st, p, n), SnapshotChunk(Sent(p, n, CommitPurpose)), env).1 == Ok([])
  {
    CommitArrives(st, p, n, env);
    AppendsTake(st.pending.value, p, n, CommitPurpose);
  }

  /** The host after the first n chunks of a commit. */
  function CommitRun(st: St, p: Prepare, n: nat, env: Env): St
    requires p.Valid() && n <= |p.chunks|
  {
    if n == 0 then st else Handle(CommitRun(st, p, n - 1, env), SnapshotChunk(Sent(p, n - 1, CommitPurpose)), env).0
  }

  lemma CommitOneMore(st: St, p: Prepare, n: nat, env: Env)
    requires MayCommit(st, p) && n + 1 < |p.chunks| && CommitRun(st, p, n, env) == AtHalf(st, p, n)
    ensures CommitRun(st, p, n + 1, env) == AtHalf(st, p, n + 1)
  {
    var half := AtHalf(st, p, n);
    CommitBuffers(st, p, n, env);
    assert CommitRun(st, p, n + 1, env) == Handle(half, SnapshotChunk(Sent(p, n, CommitPurpose)), env).0;
  }

  lemma CommitNone(st: St, p: Prepare, env: Env)
    requires MayCommit(st, p)
    ensures CommitRun(st, p, 0, env) == AtHalf(st, p, 0)
  {
    HalfStart(st.pending.value, p);
  }

  /** The buffer is where it should be after n chunks. */
  predicate CommitAt(st: St, p: Prepare, n: nat, env: Env) {
    p.Valid() && n <= |p.chunks| && st.pending.Some? && CommitRun(st, p, n, env) == AtHalf(st, p, n)
  }

  lemma CommitAtNext(st: St, p: Prepare, n: nat, env: Env)
    requires MayCommit(st, p) && n + 1 < |p.chunks|
    ensures CommitAt(st, p, n, env) ==> CommitAt(st, p, n + 1, env)
  {
    if CommitAt(st, p, n, env) { CommitOneMore(st, p, n, env); }
  }

  lemma CommitHalfway(st: St, p: Prepare, n: nat, env: Env)
    requires MayCommit(st, p) && n < |p.chunks|
    ensures CommitRun(st, p, n, env) == AtHalf(st, p, n)
  {
    CommitNone(st, p, env);
    CommitClimbs(st, p, n, env);
  }

  lemma CommitClimbs(st: St, p: Prepare, n: nat, env: Env)
    requires MayCommit(st, p) && n < |p.chunks| && CommitAt(st, p, 0, env)
    ensures CommitAt(st, p, n, env)
  {
    forall i: nat | i < n
      ensures CommitAt(st, p, i, env) ==> CommitAt(st, p, i + 1, env)
    {
      CommitAtNext(st, p, i, env);
    }
    Climb((i: nat) => CommitAt(st, p, i, env), n);
  }

  lemma {:induction false} Climb(holds: nat -> bool, n: nat)
    requires holds(0) && forall i: nat :: i < n && holds(i) ==> holds(i + 1)
    ensures holds(n)
  {
    if n > 0 { Climb(holds, n - 1); }
  }

  /** The last chunk starts the commit of the whole snapshot, unless an enrollment found nothing. */
  lemma CommitEnds(st: St, p: Prepare, env: Env)
    requires MayCommit(st, p) && (st.pending.value.kind.Enrollment? ==> Flatten(p.chunks) != [])
    ensures var q := Half(st.pending.value, p, |p.chunks|);
            CommitRun(st, p, |p.chunks|, env) ==
              CommitBuffered(st.(pending := Some(q)), Sent(p, |p.chunks| - 1, CommitPurpose), Flatten(p.chunks),
                             q.(cookies := []), env).0
  {
    var n := |p.chunks| - 1;
    CommitHalfway(st, p, n, env);
    CommitArrives(st, p, n, env);
    AppendsTake(st.pending.value, p, n, CommitPurpose);
    HalfSums(p, n);
  }

  /** The binding of a committed snapshot: the context it was taken in, the vault before and after. */
  function WholeBinding(st: St, records: seq<CookieRecord>, vault: VaultFile): Binding
    requires st.profileId.Some? && st.journal.operations != [] && vault.Record?
  {
    var u := Last(st.journal);
    Binding(Tag(st.profileId.value, st.groupId, u.operationId, u.sequence, u.baseVaultSequence, records),
            if st.disk.vault.Some? then Some(Digest(st.disk.vault.value)) else None, Digest(vault),
            vault.vaultSequence, |records|)
  }

  /** What a commit leaves, whole: the operation with its binding, waiting for the removal, in an otherwise
      unchanged journal, and a lease that differs in the vault's sequence alone. */
  lemma CommittedWhole(st: St, p: Prepare, env: Env)
    requires MayCommit(st, p) && (st.pending.value.kind.Enrollment? ==> Flatten(p.chunks) != [])
    requires PrepareAfterSnapshot(st.disk.vault, Flatten(p.chunks), env.nonce, env.fits).Ok?
    ensures var n := CommitRun(st, p, |p.chunks|, env);
            && n.disk.vault.Some? && n.disk.vault.value.Record?
            && n.journal == WithLast(st.journal, Last(st.journal).(
                                       phase := BrowserRemovalPending,
                                       snapshot := Some(WholeBinding(st, Flatten(p.chunks), n.disk.vault.value))))
            && n.lease == st.lease.(vaultSequence := n.disk.vault.value.vaultSequence)
  {
    CommitEnds(st, p, env);
    var q := Half(st.pending.value, p, |p.chunks|).(cookies := []);
    PendingEdit(st, q);
    CommittedFrom(st.(pending := Some(Half(st.pending.value, p, |p.chunks|))), Sent(p, |p.chunks| - 1, CommitPurpose),
                  Flatten(p.chunks), q, env);
  }

  lemma CommittedFrom(st: St, c: Chunk, records: seq<CookieRecord>, q: Pending, env: Env)
    requires HostInv(st.(pending := Some(q))) && st.log == [] && CanCommit(st, c.operationId)
    requires q.operationId == c.operationId
    requires PrepareAfterSnapshot(st.disk.vault, records, env.nonce, env.fits).Ok?
    ensures var n := CommitBuffered(st, c, records, q, env).0;
            && n.disk.vault.Some? && n.disk.vault.value.Record?
            && n.journal == WithLast(st.journal, Last(st.journal).(
                                       phase := BrowserRemovalPending,
                                       snapshot := Some(WholeBinding(st, records, n.disk.vault.value))))
            && n.lease == st.lease.(vaultSequence := n.disk.vault.value.vaultSequence)
  {
    var prepared := PrepareAfterSnapshot(st.disk.vault, records, env.nonce, env.fits).value;
    UnboundIsOpen(st.(pending := Some(q)));
    CommitBufferedShape(st, c, records, q, env);
    CommittedSnapshotWhole(st, c.operationId, records, env);
    ConfirmedWhole(CommitSnapshot(st, c.operationId, records, prepared).0, prepared.vaultSequence,
                   q.(confirmed := true, cookieCount := Some(|records|)));
  }

  lemma CommittedSnapshotWhole(st: St, id: Uuid, records: seq<CookieRecord>, env: Env)
    requires WellFormed(st.journal, st.groupId) && CanCommit(st, id) && Last(st.journal).phase.NotCommitted?
    requires st.disk.vault.Some? ==> st.disk.vault.value.Record?
    requires PrepareAfterSnapshot(st.disk.vault, records, env.nonce, env.fits).Ok?
    ensures var prepared := PrepareAfterSnapshot(st.disk.vault, records, env.nonce, env.fits).value;
            var m := CommitSnapshot(st, id, records, prepared).0;
            && prepared.bytes.Record? && prepared.bytes.vaultSequence == prepared.vaultSequence
            && m.disk.vault == Some(prepared.bytes) && m.lease == st.lease && m.groupId == st.groupId
            && m.journal == WithLast(st.journal, Last(st.journal).(
                                       phase := JournalModel.Committed,
                                       snapshot := Some(WholeBinding(st, records, prepared.bytes))))
            && WellFormed(m.journal, m.groupId)
  {
    var prepared := PrepareAfterSnapshot(st.disk.vault, records, env.nonce, env.fits).value;
    PreparedTrue(st.disk.vault, records, env.nonce, env.fits);
    VaultAfter(st, records, prepared, env);
    CommitShape(st, id, records, prepared);
    CommittedChain(st, prepared, BindingFor(st, records, prepared));
    ChainFrame(st, prepared, BindingFor(st, records, prepared));
  }

  lemma ConfirmedWhole(st: St, sequence: nat, q: Pending)
    requires WellFormed(st.journal, st.groupId) && Active(st.journal) && Last(st.journal).phase.Committed?
    requires Last(st.journal).snapshot.Some? && q.operationId == Last(st.journal).operationId
    ensures var n := ConfirmCommitted(st, q.operationId, sequence, q).0;
            && n.disk.vault == st.disk.vault
            && n.journal == WithLast(st.journal, Last(st.journal).(phase := BrowserRemovalPending))
            && n.lease == st.lease.(vaultSequence := sequence, pendingOperationId := Some(q.operationId))
  {
    ConfirmShape(st, sequence, q);
  }

  lemma CommittedChain(st: St, prepared: Prepared, b: Binding)
    requires st.journal.operations != []
    requires !prepared.commitRequired ==> st.disk.vault == Some(prepared.bytes)
    ensures var n := AfterVault(AfterBind(st, b), prepared);
            && n.journal == WithLast(st.journal,
                                     Last(st.journal).(phase := JournalModel.Committed, snapshot := Some(b)))
            && n.disk.vault == Some(prepared.bytes) && n.lease == st.lease
  {
  }

  /** A snapshot that cannot be sealed is refused with its last chunk: nothing is written, and what was
      buffered of it is gone. */
  lemma UnsealableIsRefused(st: St, p: Prepare, env: Env)
    requires MayCommit(st, p) && (st.pending.value.kind.Enrollment? ==> Flatten(p.chunks) != [])
    requires PrepareAfterSnapshot(st.disk.vault, Flatten(p.chunks), env.nonce, env.fits).Err?
    ensures CommitRun(st, p, |p.chunks|, env) ==
              st.(pending := Some(Half(st.pending.value, p, |p.chunks|).(cookies := [])))
    ensures CommitAnswer(st, p, |p.chunks| - 1, env).Err?
  {
    CommitEnds(st, p, env);
    CommitHalfway(st, p, |p.chunks| - 1, env);
    LastChunkRefused(st, p, env);
  }

  lemma LastChunkRefused(st: St, p: Prepare, env: Env)
    requires MayCommit(st, p) && (st.pending.value.kind.Enrollment? ==> Flatten(p.chunks) != [])
    requires LastCommit(st, p, env).1.Err?
    ensures Handle(AtHalf(st, p, |p.chunks| - 1), SnapshotChunk(Sent(p, |p.chunks| - 1, CommitPurpose)), env).1.Err?
  {
    var k := |p.chunks| - 1;
    CommitArrives(st, p, k, env);
    AppendsTake(st.pending.value, p, k, CommitPurpose);
    HalfSums(p, k);
    ChunkAnswer(AtHalf(st, p, k), Sent(p, k, CommitPurpose), env);
  }

  /** An enrollment whose scope is empty ends without a vault: aborted, nothing pending, no lease. */
  lemma EmptyEnrollmentAborts(st: St, p: Prepare, env: Env)
    requires MayCommit(st, p) && st.pending.value.kind.Enrollment? && Flatten(p.chunks) == []
    ensures var n := CommitRun(st, p, |p.chunks|, env);
            && n.journal == WithLast(st.journal, Last(st.journal).(phase := Aborted)) && n.pending.None?
            && n.disk.vault.None?
            && n.lease == st.lease.(state := Uninitialized, leaseId := None, grantedAt := None, expiresAt := None,
                                    pendingOperationId := None,
                                    transitionSequence := st.lease.transitionSequence + 1)
    ensures CommitAnswer(st, p, |p.chunks| - 1, env) == Ok([SessionInvalidated])
  {
    CommitHalfway(st, p, |p.chunks| - 1, env);
    EmptyLastChunk(st, p, env);
    AbortedEmpty(st.(pending := None));
    assert BindReplies([SessionInvalidated], p.binding.sequence, p.binding.attempt) == [SessionInvalidated];
  }

  lemma EmptyLastChunk(st: St, p: Prepare, env: Env)
    requires MayCommit(st, p) && st.pending.value.kind.Enrollment? && Flatten(p.chunks) == []
    ensures var c := Sent(p, |p.chunks| - 1, CommitPurpose);
            var (n, r) := AbortEmpty(st.(pending := None), p.binding.operationId);
            Handle(AtHalf(st, p, |p.chunks| - 1), SnapshotChunk(c), env) ==
              (n, if r.Err? then r else Ok(BindReplies(r.value, p.binding.sequence, p.binding.attempt)))
  {
    var k := |p.chunks| - 1;
    CommitArrives(st, p, k, env);
    AppendsTake(st.pending.value, p, k, CommitPurpose);
    HalfSums(p, k);
    ChunkAnswer(AtHalf(st, p, k), Sent(p, k, CommitPurpose), env);
  }

  lemma AbortedEmpty(st: St)
    requires WellFormed(st.journal, st.groupId) && Active(st.journal) && Last(st.journal).phase.NotCommitted?
    ensures var (n, r) := AbortEmpty(st, Last(st.journal).operationId);
            && r == Ok([SessionInvalidated]) && n.disk.vault == st.disk.vault && n.pending == st.pending
            && n.journal == WithLast(st.journal, Last(st.journal).(phase := Aborted))
            && n.lease == st.lease.(state := Uninitialized, leaseId := None, grantedAt := None, expiresAt := None,
                                    pendingOperationId := None,
                                    transitionSequence := st.lease.transitionSequence + 1)
  {
    TransitLast(st, Aborted);
  }

  /** The records a committed operation has in the vault, as the journal states them. */
  predicate SealedAs(st: St, records: seq<CookieRecord>) {
    && RemovalHost.Committed(st.journal) && Last(st.journal).phase.BrowserRemovalPending?
    && Last(st.journal).snapshot.value.tag.snapshot == records
    && VaultDigest(st.disk.vault) == Some(Last(st.journal).snapshot.value.targetDigest)
    && (records != [] ==> st.disk.vault.value.Record? && st.disk.vault.value.cookies == records)
  }

  /** The same right after the commit, before the lease and the phase are written. */
  predicate CommittedAs(st: St, records: seq<CookieRecord>, sequence: nat) {
    && RemovalHost.Committed(st.journal) && Last(st.journal).phase.Committed?
    && Last(st.journal).snapshot.value.tag.snapshot == records
    && Last(st.journal).snapshot.value.targetVaultSequence == sequence
    && VaultDigest(st.disk.vault) == Some(Last(st.journal).snapshot.value.targetDigest)
    && (records != [] ==> st.disk.vault.value.Record? && st.disk.vault.value.cookies == records)
  }

  lemma ChainVault(st: St, prepared: Prepared, b: Binding)
    requires st.journal.operations != []
    ensures AfterVault(AfterBind(st, b),
                       prepared).disk.vault == if prepared.commitRequired then Some(prepared.bytes) else st.disk.vault
  {
  }

  lemma SnapshotCommits(st: St, id: Uuid, records: seq<CookieRecord>, prepared: Prepared, env: Env)
    requires WellFormed(st.journal, st.groupId) && CanCommit(st, id) && Last(st.journal).phase.NotCommitted?
    requires st.disk.vault.Some? ==> st.disk.vault.value.Record?
    requires PrepareAfterSnapshot(st.disk.vault, records, env.nonce, env.fits) == Ok(prepared)
    ensures var m := CommitSnapshot(st, id, records, prepared).0;
            && CommittedAs(m, records, prepared.vaultSequence) && (records == [] ==> m.disk.vault == st.disk.vault)
            && WellFormed(m.journal, st.groupId) && m.groupId == st.groupId && Last(m.journal).operationId == id
  {
    var b := BindingFor(st, records, prepared);
    CommitShape(st, id, records, prepared);
    ChainVault(st, prepared, b);
    ChainFrame(st, prepared, b);
    PreparedTrue(st.disk.vault, records, env.nonce, env.fits);
    VaultAfter(st, records, prepared, env);
  }

  lemma ConfirmSeals(st: St, records: seq<CookieRecord>, sequence: nat, q: Pending)
    requires CommittedAs(st, records, sequence) && WellFormed(st.journal, st.groupId)
    requires q.operationId == Last(st.journal).operationId
    ensures var n := ConfirmCommitted(st, q.operationId, sequence, q).0;
            SealedAs(n, records)
            && n.lease.vaultSequence == sequence == Last(n.journal).snapshot.value.targetVaultSequence
  {
    var l := st.lease.(vaultSequence := sequence, pendingOperationId := Some(q.operationId));
    PhaseShape(PersistLease(st, l), BrowserRemovalPending);
  }

  lemma BufferedSeals(st: St, c: Chunk, records: seq<CookieRecord>, q: Pending, env: Env)
    requires HostInv(st.(pending := Some(q))) && st.log == [] && CanCommit(st, c.operationId)
    requires q.operationId == c.operationId
    requires PrepareAfterSnapshot(st.disk.vault, records, env.nonce, env.fits).Ok?
    ensures var n := CommitBuffered(st, c, records, q, env).0;
            && SealedAs(n, records)
            && (records == [] ==> n.disk.vault == st.disk.vault)
            && n.pending == Some(q.(confirmed := true, cookieCount := Some(|records|)))
            && n.lease.vaultSequence == Last(n.journal).snapshot.value.targetVaultSequence
  {
    var host := st.(pending := Some(q));
    var prepared := PrepareAfterSnapshot(st.disk.vault, records, env.nonce, env.fits).value;
    UnboundIsOpen(host);
    CommitBufferedShape(st, c, records, q, env);
    SnapshotCommits(st, c.operationId, records, prepared, env);
    var m := CommitSnapshot(st, c.operationId, records, prepared).0;
    var q' := q.(confirmed := true, cookieCount := Some(|records|));
    ConfirmSeals(m, records, prepared.vaultSequence, q');
    ConfirmFrame(m, c.operationId, prepared.vaultSequence, q');
  }

  lemma UnboundIsOpen(st: St)
    requires HostInv(st)
    ensures Active(st.journal) ==>
              if Last(st.journal).snapshot.Some? then Last(st.journal).phase.IsCommitted()
              else Last(st.journal).phase.NotCommitted?
  {
    if Active(st.journal) { assert OperationValid(Last(st.journal), st.groupId); }
  }

  lemma ConfirmFrame(st: St, id: Uuid, sequence: nat, q: Pending)
    ensures var n := ConfirmCommitted(st, id, sequence, q).0;
            n.disk.vault == st.disk.vault && n.pending == Some(q) && n.lease.vaultSequence == sequence
  {
  }

  lemma VaultAfter(st: St, records: seq<CookieRecord>, prepared: Prepared, env: Env)
    requires PrepareAfterSnapshot(st.disk.vault, records, env.nonce, env.fits) == Ok(prepared)
    ensures records != [] ==> prepared.commitRequired && prepared.bytes.Record? && prepared.bytes.cookies == records
    ensures records == [] ==> !prepared.commitRequired && st.disk.vault == Some(prepared.bytes)
  {
  }

  /** What the host tells the extension when a commit ends: the operation, the vault's sequence, and whether
      the browser keeps its cookies, which is so exactly for an enrollment. */
  function Confirmation(operationId: Uuid, vaultSequence: nat, kind: Kind, sequence: Option<nat>,
                        attempt: Option<Uuid>): Reply
  {
    EvictConfirmed(operationId, vaultSequence, if kind == Enrollment then RetainLeased else Remove, sequence, attempt)
  }

  lemma BufferedAnswer(st: St, c: Chunk, records: seq<CookieRecord>, q: Pending, env: Env)
    requires HostInv(st.(pending := Some(q))) && st.log == [] && CanCommit(st, c.operationId)
    requires q.operationId == c.operationId
    requires PrepareAfterSnapshot(st.disk.vault, records, env.nonce, env.fits).Ok?
    ensures var (n, r) := CommitBuffered(st, c, records, q, env);
            r == Ok([Confirmation(c.operationId, n.lease.vaultSequence, q.kind, None, None)])
  {
    var prepared := PrepareAfterSnapshot(st.disk.vault, records, env.nonce, env.fits).value;
    UnboundIsOpen(st.(pending := Some(q)));
    CommitShape(st, c.operationId, records, prepared);
    SnapshotCommits(st, c.operationId, records, prepared, env);
    var m := CommitSnapshot(st, c.operationId, records, prepared).0;
    var q' := q.(confirmed := true, cookieCount := Some(|records|));
    ConfirmShape(m, prepared.vaultSequence, q');
    ConfirmFrame(m, c.operationId, prepared.vaultSequence, q');
  }

  /** The commit that the last chunk starts. */
  function LastCommit(st: St, p: Prepare, env: Env): Reaction
    requires p.Valid() && st.pending.Some?
  {
    var q := Half(st.pending.value, p, |p.chunks|);
    CommitBuffered(st.(pending := Some(q)), Sent(p, |p.chunks| - 1, CommitPurpose), Flatten(p.chunks),
                   q.(cookies := []),
                   env)
  }

  lemma LastCommitAnswer(st: St, p: Prepare, env: Env)
    requires MayCommit(st, p) && (st.pending.value.kind.Enrollment? ==> Flatten(p.chunks) != [])
    requires PrepareAfterSnapshot(st.disk.vault, Flatten(p.chunks), env.nonce, env.fits).Ok?
    ensures var (n, r) := LastCommit(st, p, env);
            && n == CommitRun(st, p, |p.chunks|, env)
            && r == Ok([Confirmation(p.binding.operationId, n.lease.vaultSequence, st.pending.value.kind, None, None)])
  {
    CommitEnds(st, p, env);
    var q := Half(st.pending.value, p, |p.chunks|);
    PendingEdit(st, q.(cookies := []));
    BufferedAnswer(st.(pending := Some(q)), Sent(p, |p.chunks| - 1, CommitPurpose), Flatten(p.chunks),
                   q.(cookies := []), env);
  }

  /** The last chunk's answer under protocol 7 is the commit's own, with the binding filled in. */
  lemma LastChunkAnswer(st: St, p: Prepare, env: Env)
    requires MayCommit(st, p) && (st.pending.value.kind.Enrollment? ==> Flatten(p.chunks) != [])
    ensures var r := LastCommit(st, p, env).1;
            r.Ok? ==> Handle(AtHalf(st, p, |p.chunks| - 1),
                             SnapshotChunk(Sent(p, |p.chunks| - 1, CommitPurpose)), env).1 ==
                        Ok(BindReplies(r.value, p.binding.sequence, p.binding.attempt))
  {
    var k := |p.chunks| - 1;
    CommitArrives(st, p, k, env);
    AppendsTake(st.pending.value, p, k, CommitPurpose);
    HalfSums(p, k);
    ChunkAnswer(AtHalf(st, p, k), Sent(p, k, CommitPurpose), env);
  }

  lemma BoundConfirmation(id: Uuid, vaultSequence: nat, kind: Kind, sequence: nat, attempt: Uuid)
    ensures BindReplies([Confirmation(id, vaultSequence, kind, None, None)], sequence, attempt) ==
              [Confirmation(id, vaultSequence, kind, Some(sequence), Some(attempt))]
  {
  }

  lemma ChunkAnswer(st: St, c: Chunk, env: Env)
    requires st.connected && st.v7 && Fresh(st, c) && c.purpose == Some(CommitPurpose)
    ensures var r := HandleSnapshotChunk(Noted(st, c), c, env).1;
            Handle(st, SnapshotChunk(c), env).1 ==
              if r.Err? then r else Ok(BindReplies(r.value, c.operationSequence.value, c.attemptId.value))
  {
  }

  /** Conservation: after its chunks have been delivered, a snapshot is in the vault record for record,
      the journal's tag covers exactly it, and the lease carries the vault's sequence. The last chunk is
      answered with the operation's own binding and that sequence: keep the cookies for an enrollment,
      remove them otherwise; every other chunk is answered with nothing. */
  lemma CommittedIsSent(st: St, p: Prepare, env: Env)
    requires MayCommit(st, p) && (st.pending.value.kind.Enrollment? ==> Flatten(p.chunks) != [])
    requires PrepareAfterSnapshot(st.disk.vault, Flatten(p.chunks), env.nonce, env.fits).Ok?
    ensures var n := CommitRun(st, p, |p.chunks|, env);
            && SealedAs(n, Flatten(p.chunks))
            && (Flatten(p.chunks) == [] ==> n.disk.vault == st.disk.vault)
            && Ready(n, p.binding) && n.pending.value.cookieCount == Some(|Flatten(p.chunks)|)
            && n.lease.vaultSequence == Last(n.journal).snapshot.value.targetVaultSequence
            && CommitAnswer(st, p, |p.chunks| - 1, env) ==
                 Ok([EvictConfirmed(p.binding.operationId, n.lease.vaultSequence,
                                    if Last(st.journal).kind.Enrollment? then RetainLeased else Remove,
                                    Some(p.binding.sequence), Some(p.binding.attempt))])
            && forall i: nat :: i < |p.chunks| - 1 ==> CommitAnswer(st, p, i, env) == Ok([])
  {
    CommittedState(st, p, env);
    CommittedAnswer(st, p, env);
    forall i: nat | i < |p.chunks| - 1
      ensures CommitAnswer(st, p, i, env) == Ok([])
    {
      EarlierAnswer(st, p, i, env);
    }
  }

  /** The answer to chunk i of a commit. */
  function CommitAnswer(st: St, p: Prepare, i: nat, env: Env): Result<seq<Reply>>
    requires p.Valid() && i < |p.chunks|
  {
    Handle(CommitRun(st, p, i, env), SnapshotChunk(Sent(p, i, CommitPurpose)), env).1
  }

  lemma EarlierAnswer(st: St, p: Prepare, i: nat, env: Env)
    requires MayCommit(st, p) && i < |p.chunks| - 1
    ensures CommitAnswer(st, p, i, env) == Ok([])
  {
    CommitHalfway(st, p, i, env);
    CommitBuffers(st, p, i, env);
  }

  lemma CommittedAnswer(st: St, p: Prepare, env: Env)
    requires MayCommit(st, p) && (st.pending.value.kind.Enrollment? ==> Flatten(p.chunks) != [])
    requires PrepareAfterSnapshot(st.disk.vault, Flatten(p.chunks), env.nonce, env.fits).Ok?
    ensures CommitAnswer(st, p, |p.chunks| - 1, env) ==
              Ok([Confirmation(p.binding.operationId, CommitRun(st, p, |p.chunks|, env).lease.vaultSequence,
                               st.pending.value.kind, Some(p.binding.sequence), Some(p.binding.attempt))])
  {
    LastCommitAnswer(st, p, env);
    CommitHalfway(st, p, |p.chunks| - 1, env);
    LastChunkAnswer(st, p, env);
    BoundConfirmation(p.binding.operationId, CommitRun(st, p, |p.chunks|, env).lease.vaultSequence,
                      st.pending.value.kind, p.binding.sequence, p.binding.attempt);
  }

  lemma CommittedState(st: St, p: Prepare, env: Env)
    requires MayCommit(st, p) && (st.pending.value.kind.Enrollment? ==> Flatten(p.chunks) != [])
    requires PrepareAfterSnapshot(st.disk.vault, Flatten(p.chunks), env.nonce, env.fits).Ok?
    ensures var n := CommitRun(st, p, |p.chunks|, env);
            && SealedAs(n, Flatten(p.chunks))
            && (Flatten(p.chunks) == [] ==> n.disk.vault == st.disk.vault)
            && Ready(n, p.binding) && n.pending.value.cookieCount == Some(|Flatten(p.chunks)|)
            && n.lease.vaultSequence == Last(n.journal).snapshot.value.targetVaultSequence
  {
    CommitEnds(st, p, env);
    var q := Half(st.pending.value, p, |p.chunks|);
    var c := Sent(p, |p.chunks| - 1, CommitPurpose);
    var st1 := st.(pending := Some(q));
    PendingEdit(st, q.(cookies := []));
    BufferedSeals(st1, c, Flatten(p.chunks), q.(cookies := []), env);
    BufferedConnection(st1, c, Flatten(p.chunks), q.(cookies := []), env);
  }

  // ---------------------------------------------------------------------------------------------
  // Removal
  // ---------------------------------------------------------------------------------------------

  /** The snapshot the unresolved operation committed. */
  function CommittedSnapshot(st: St): seq<CookieRecord>
    requires RemovalHost.Committed(st.journal)
  {
    Last(st.journal).snapshot.value.tag.snapshot
  }

  predicate MayRemove(st: St, p: Prepare) {
    && HostInv(st) && st.log == [] && Ready(st, p.binding) && Admissible(p)
    && RemovalHost.Committed(st.journal) && st.profileId.Some?
    && Last(st.journal).snapshot.value.tag.profileId == st.profileId.value
    && Last(st.journal).attemptId == Some(p.binding.attempt) && Last(st.journal).sequence == p.binding.sequence
  }

  /** For the profile that committed, the tag comparison decides equality with the committed snapshot. */
  lemma VerdictIff(st: St, p: Prepare, cookies: seq<CookieRecord>)
    requires MayRemove(st, p)
    ensures VerifySnapshot(st, p.binding.operationId, p.binding.sequence, p.binding.attempt,
                           cookies) == Ok(cookies == CommittedSnapshot(st))
  {
    ReadyIsCommitted(st, p.binding);
    assert BindingTrue(Last(st.journal), st.groupId);
  }

  /** A tag is compared only for an operation that the journal has under this sequence and attempt, with a
      snapshot, on a connection with a profile. */
  lemma VerdictGivenIff(st: St, id: Uuid, sequence: nat, attempt: Uuid, cookies: seq<CookieRecord>)
    ensures VerifySnapshot(st, id, sequence, attempt, cookies).Ok? <==>
              && Has(st.journal, id) && Get(st.journal, id).sequence == sequence
              && Get(st.journal, id).attemptId == Some(attempt)
              && Get(st.journal, id).snapshot.Some? && st.profileId.Some?
  {
  }

  function Prepared0(st: St, p: Prepare, env: Env): St { Handle(st, PrepareMessage(p.binding), env).0 }

  lemma PrepareResets(st: St, p: Prepare, env: Env)
    requires MayRemove(st, p)
    ensures var n := Prepared0(st, p, env);
            && MayRemove(n, p) && n == st.(pending := n.pending) && Waiting(n.pending.value, p.binding)
            && n.pending.value.confirmed
  {
    PreparedReady(st, p.binding, env);
    var n := Prepared0(st, p, env);
    PendingEdit(st, n.pending.value);
  }

  /** A host whose removal buffer waits for the first chunk. */
  predicate Prechecking(st: St, p: Prepare) {
    MayRemove(st, p) && Waiting(st.pending.value, p.binding) && st.pending.value.confirmed
  }

  lemma HalfMayRemove(st: St, p: Prepare, n: nat)
    requires Prechecking(st, p) && n <= |p.chunks|
    ensures MayRemove(AtHalf(st, p, n), p)
  {
    PendingEdit(st, Half(st.pending.value, p, n));
  }

  /** The host after the prepare and the first n chunks. */
  function RemovalRun(st: St, p: Prepare, n: nat, env: Env): St
    requires p.Valid() && n <= |p.chunks|
  {
    if n == 0 then Prepared0(st, p, env)
    else Handle(RemovalRun(st, p, n - 1, env), SnapshotChunk(ChunkAt(p, n - 1)), env).0
  }

  lemma RemovalArrives(st: St, p: Prepare, n: nat, env: Env)
    requires Prechecking(st, p) && n < |p.chunks|
    ensures var c := ChunkAt(p, n);
            var m := st.(pending := Some(Half(st.pending.value, p, n).(chunkDigests := Digests(p, n + 1))));
            && Handle(AtHalf(st, p, n), SnapshotChunk(c), env) == HandleRemovalChunk(m, c)
            && AppendV7Chunk(m.pending.value, c) == (Half(st.pending.value, p, n + 1), Ok(()))
  {
    DigestsNext(p, n);
    assert Sent(p, n, RemovalPrecheck) == ChunkAt(p, n);
    AppendsTake(st.pending.value, p, n, RemovalPrecheck);
  }

  lemma RemovalBuffers(st: St, p: Prepare, n: nat, env: Env)
    requires Prechecking(st, p) && n + 1 < |p.chunks|
    ensures Handle(AtHalf(st, p, n), SnapshotChunk(ChunkAt(p, n)), env) == (AtHalf(st, p, n + 1), Ok([]))
  {
    RemovalArrives(st, p, n, env);
  }

  lemma RemovalOneMore(st: St, p: Prepare, n: nat, env: Env)
    requires Prechecking(Prepared0(st, p, env), p) && n + 1 < |p.chunks|
    requires RemovalRun(st, p, n, env) == AtHalf(Prepared0(st, p, env), p, n)
    ensures RemovalRun(st, p, n + 1, env) == AtHalf(Prepared0(st, p, env), p, n + 1)
  {
    RemovalBuffers(Prepared0(st, p, env), p, n, env);
    assert RemovalRun(st, p, n + 1, env) ==
             Handle(AtHalf(Prepared0(st, p, env), p, n), SnapshotChunk(ChunkAt(p, n)), env).0;
  }

  lemma RemovalNone(st: St, p: Prepare, env: Env)
    requires MayRemove(st, p)
    ensures Prechecking(Prepared0(st, p, env), p) && RemovalRun(st, p, 0, env) == AtHalf(Prepared0(st, p, env), p, 0)
  {
    PrepareResets(st, p, env);
    HalfStart(Prepared0(st, p, env).pending.value, p);
  }

  predicate RemovalAt(st: St, p: Prepare, n: nat, env: Env) {
    p.Valid() && n <= |p.chunks| && Prepared0(st, p, env).pending.Some?
    && RemovalRun(st, p, n, env) == AtHalf(Prepared0(st, p, env), p, n)
  }

  lemma RemovalAtNext(st: St, p: Prepare, n: nat, env: Env)
    requires Prechecking(Prepared0(st, p, env), p) && n + 1 < |p.chunks|
    ensures RemovalAt(st, p, n, env) ==> RemovalAt(st, p, n + 1, env)
  {
    if RemovalAt(st, p, n, env) { RemovalOneMore(st, p, n, env); }
  }

  lemma RemovalClimbs(st: St, p: Prepare, n: nat, env: Env)
    requires Prechecking(Prepared0(st, p, env), p) && n < |p.chunks| && RemovalAt(st, p, 0, env)
    ensures RemovalAt(st, p, n, env)
  {
    forall i: nat | i < n
      ensures RemovalAt(st, p, i, env) ==> RemovalAt(st, p, i + 1, env)
    {
      RemovalAtNext(st, p, i, env);
    }
    Climb((i: nat) => RemovalAt(st, p, i, env), n);
  }

  lemma RemovalHalfway(st: St, p: Prepare, n: nat, env: Env)
    requires MayRemove(st, p) && n < |p.chunks|
    ensures Prechecking(Prepared0(st, p, env), p) && RemovalRun(st, p, n, env) == AtHalf(Prepared0(st, p, env), p, n)
  {
    RemovalNone(st, p, env);
    RemovalClimbs(st, p, n, env);
  }

  /** The verdict on the last chunk, given what the whole buffer verifies to. */
  lemma VerdictTaken(st: St, c: Chunk, q: Pending)
    requires HostInv(st) && st.pending.Some? && AppendV7Chunk(st.pending.value, c) == (q, Ok(()))
    requires q.nextChunk == c.chunkCount
    requires c.operationSequence.Some? && c.attemptId.Some? && Active(st.journal)
    requires Last(st.journal).operationId == c.operationId
    requires Last(st.journal).phase.IsCommitted()
    requires VerifySnapshot(st.(pending := Some(q)), c.operationId, c.operationSequence.value, c.attemptId.value,
                            q.cookies).Ok?
    ensures var same := VerifySnapshot(st.(pending := Some(q)), c.operationId, c.operationSequence.value,
                                       c.attemptId.value, q.cookies).value;
            var (n, r) := HandleRemovalChunk(st, c);
            if same then
              && n == st.(pending := Some(q)) && Authorizes(r)
              && r == Ok([RemoveAuthorized(c.operationId, c.operationSequence.value, c.leaseId, c.attemptId.value)])
            else !Authorizes(r) && n.pending.None?
                 && r == Ok([OperationCompleted(c.operationId, c.operationSequence.value, c.leaseId, false)])
                 && n.disk.vault == st.disk.vault
                 && n.journal == WithLast(st.journal, Last(st.journal).(phase := ReconciliationRequired))
                 && n.lease == st.lease.(state := Degraded, transitionSequence := st.lease.transitionSequence + 1)
  {
    var st1 := st.(pending := Some(q));
    var same := VerifySnapshot(st1, c.operationId, c.operationSequence.value, c.attemptId.value, q.cookies).value;
    if same {
      assert HandleRemovalChunk(st, c).1.value[0].RemoveAuthorized?;
    } else {
      TransitLast(st1, ReconciliationRequired);
    }
  }

  /** Completeness: the fresh snapshot is authorised if and only if it is the committed one. Otherwise
      the operation is given up for reconciliation and the vault stays. */
  lemma AuthorizedIffCommitted(st: St, p: Prepare, env: Env)
    requires MayRemove(st, p)
    ensures var before := RemovalRun(st, p, |p.chunks| - 1, env);
            var (n, r) := Handle(before, SnapshotChunk(ChunkAt(p, |p.chunks| - 1)), env);
            && (Authorizes(r) <==> Flatten(p.chunks) == CommittedSnapshot(st))
            && r == Ok([if Flatten(p.chunks) == CommittedSnapshot(st)
                        then RemoveAuthorized(p.binding.operationId, p.binding.sequence, p.binding.leaseId,
                                              p.binding.attempt)
                        else OperationCompleted(p.binding.operationId, p.binding.sequence, p.binding.leaseId, false)])
            && n.disk.vault == st.disk.vault
            && (!Authorizes(r) ==>
                  n.pending.None?
                  && n.journal == WithLast(st.journal, Last(st.journal).(phase := ReconciliationRequired))
                  && n.lease == st.lease.(state := Degraded, transitionSequence := st.lease.transitionSequence + 1))
  {
    var k := |p.chunks| - 1;
    RemovalHalfway(st, p, k, env);
    var st0 := Prepared0(st, p, env);
    PrepareResets(st, p, env);
    RemovalArrives(st0, p, k, env);
    HalfSums(p, k);
    var q := Half(st0.pending.value, p, |p.chunks|);
    HalfMayRemove(st0, p, |p.chunks|);
    VerdictIff(AtHalf(st0, p, |p.chunks|), p, Flatten(p.chunks));
    ReadyIsCommitted(st0, p.binding);
    var m := st0.(pending := Some(Half(st0.pending.value, p, k).(chunkDigests := Digests(p, k + 1))));
    PendingEdit(st0, m.pending.value);
    VerdictTaken(m, ChunkAt(p, k), q);
  }

  // ---------------------------------------------------------------------------------------------
  // Both together
  // ---------------------------------------------------------------------------------------------

  /** The operation is the same and was committed for the profile of this connection. */
  predicate SameOperation(st: St, n: St) {
    && Active(st.journal) && RemovalHost.Committed(n.journal) && st.profileId.Some? && n.profileId == st.profileId
    && Last(n.journal).attemptId == Last(st.journal).attemptId && Last(n.journal).sequence == Last(st.journal).sequence
    && Last(n.journal).snapshot.value.tag.profileId == st.profileId.value
  }

  lemma CommitKeepsOperation(st: St, id: Uuid, records: seq<CookieRecord>, prepared: Prepared)
    requires WellFormed(st.journal, st.groupId) && CanCommit(st, id) && Last(st.journal).phase.NotCommitted?
    ensures SameOperation(st, CommitSnapshot(st, id, records, prepared).0)
  {
    CommitShape(st, id, records, prepared);
    ChainFrame(st, prepared, BindingFor(st, records, prepared));
  }

  lemma ConfirmKeepsOperation(st0: St, st: St, sequence: nat, q: Pending)
    requires SameOperation(st0, st) && WellFormed(st.journal, st.groupId) && Last(st.journal).phase.Committed?
    requires q.operationId == Last(st.journal).operationId
    ensures SameOperation(st0, ConfirmCommitted(st, q.operationId, sequence, q).0)
  {
    PhaseShape(PersistLease(st, st.lease.(vaultSequence := sequence, pendingOperationId := Some(q.operationId))),
               BrowserRemovalPending);
  }

  lemma BufferedKeepsOperation(st: St, c: Chunk, records: seq<CookieRecord>, q: Pending, env: Env)
    requires HostInv(st.(pending := Some(q))) && st.log == [] && CanCommit(st, c.operationId)
    requires q.operationId == c.operationId
    requires PrepareAfterSnapshot(st.disk.vault, records, env.nonce, env.fits).Ok?
    ensures SameOperation(st, CommitBuffered(st, c, records, q, env).0)
  {
    var prepared := PrepareAfterSnapshot(st.disk.vault, records, env.nonce, env.fits).value;
    UnboundIsOpen(st.(pending := Some(q)));
    CommitBufferedShape(st, c, records, q, env);
    CommitKeepsOperation(st, c.operationId, records, prepared);
    SnapshotCommits(st, c.operationId, records, prepared, env);
    ConfirmKeepsOperation(st, CommitSnapshot(st, c.operationId, records, prepared).0, prepared.vaultSequence,
                          q.(confirmed := true, cookieCount := Some(|records|)));
  }

  /** A host that committed a snapshot is ready for its removal. */
  lemma CommittedMayRemove(st: St, p: Prepare, again: Prepare, env: Env)
    requires MayCommit(st, p) && (st.pending.value.kind.Enrollment? ==> Flatten(p.chunks) != [])
    requires PrepareAfterSnapshot(st.disk.vault, Flatten(p.chunks), env.nonce, env.fits).Ok?
    requires Last(st.journal).attemptId == Some(p.binding.attempt) && Last(st.journal).sequence == p.binding.sequence
    requires Admissible(again) && again.binding == p.binding
    ensures MayRemove(CommitRun(st, p, |p.chunks|, env).(log := []), again)
  {
    var n := CommitRun(st, p, |p.chunks|, env);
    CommittedIsSent(st, p, env);
    CommitEnds(st, p, env);
    var q := Half(st.pending.value, p, |p.chunks|);
    var c := Sent(p, |p.chunks| - 1, CommitPurpose);
    var st1 := st.(pending := Some(q));
    PendingEdit(st, q.(cookies := []));
    CommitBufferedSafe(st, st1, c, Flatten(p.chunks), q.(cookies := []), env);
    BufferedKeepsOperation(st1, c, Flatten(p.chunks), q.(cookies := []), env);
  }

  /** Right after a commit, sending the same records again is authorised and nothing else is. */
  lemma CommitThenRemove(st: St, p: Prepare, again: Prepare, env: Env)
    requires MayCommit(st, p) && (st.pending.value.kind.Enrollment? ==> Flatten(p.chunks) != [])
    requires PrepareAfterSnapshot(st.disk.vault, Flatten(p.chunks), env.nonce, env.fits).Ok?
    requires Last(st.journal).attemptId == Some(p.binding.attempt) && Last(st.journal).sequence == p.binding.sequence
    requires Admissible(again) && again.binding == p.binding
    ensures var n := CommitRun(st, p, |p.chunks|, env).(log := []);
            var before := RemovalRun(n, again, |again.chunks| - 1, env);
            Authorizes(Handle(before, SnapshotChunk(ChunkAt(again, |again.chunks| - 1)), env).1) <==>
              Flatten(again.chunks) == Flatten(p.chunks)
  {
    CommittedIsSent(st, p, env);
    CommittedMayRemove(st, p, again, env);
    AuthorizedIffCommitted(CommitRun(st, p, |p.chunks|, env).(log := []), again, env);
  }
}
