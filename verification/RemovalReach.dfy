/** That a guarded removal goes through: a prepare of the committed snapshot brings the loop to its work,
    every record of it can then be the one deleted, and a run from the empty disk leads there
    (extension/src/background.ts, native-host/src/dispatcher.rs). */
module RemovalReach {
  import opened Base
  import opened JournalModel
  import opened EngineSpec
  import opened EngineInvariant
  import opened EngineSafety
  import opened EngineRuns
  import opened RemovalHost
  import opened GuardedRemoval
  import opened Removal
  import opened CommitTransfer

  // ---------------------------------------------------------------------------------------------
  // Runs one after the other
  // ---------------------------------------------------------------------------------------------

  lemma RunSnoc(id: Identity, s: Sys, actions: seq<Action>, a: Action)
    ensures RunFrom(id, s, actions + [a]) == Removal.Step(id, RunFrom(id, s, actions), a)
    ensures Mindful(id, s, actions + [a]) <==> Mindful(id, s, actions) && Allowed(RunFrom(id, s, actions), a)
  {
    assert (actions + [a])[..|actions|] == actions;
  }

  lemma {:induction false} RunConcat(id: Identity, s: Sys, first: seq<Action>, second: seq<Action>)
    ensures RunFrom(id, s, first + second) == RunFrom(id, RunFrom(id, s, first), second)
    ensures Mindful(id, s, first) && Mindful(id, RunFrom(id, s, first), second) ==> Mindful(id, s, first + second)
    decreases |second|
  {
    if second == [] {
      assert first + second == first;
    } else {
      var begin, a := second[..|second| - 1], second[|second| - 1];
      RunConcat(id, s, first, begin);
      RunSnoc(id, s, first + begin, a);
      assert first + second == first + begin + [a];
    }
  }

  // ---------------------------------------------------------------------------------------------
  // From a resting system to the loop
  // ---------------------------------------------------------------------------------------------

  /** Nothing is under way. */
  predicate AtRest(s: Sys) { s.toHost == [] && s.toExt == [] && s.loop.Idle? && s.flight.NoFlight? }

  ghost predicate MayStart(id: Identity, s: Sys, p: Prepare, read: seq<CookieRecord>) {
    AtRest(s) && MayRemove(s.host, p) && IsReading(id, s.browser, read) && Flatten(p.chunks) == read
  }

  /** The prepare and the host's first k steps. */
  function Turns(p: Prepare, read: seq<CookieRecord>, env: Env, k: nat): seq<Action> {
    if k == 0 then [Action.PrepareRemoval(p, read)] else Turns(p, read, env, k - 1) + [HostStep(env)]
  }

  /** The system after k of them: the prepare and k - 1 chunks are with the host. */
  function Delivered(s: Sys, p: Prepare, read: seq<CookieRecord>, env: Env, k: nat): Sys
    requires p.Valid() && 1 <= k <= |p.chunks| && Prepared0(s.host, p, env).pending.Some?
  {
    s.(held := Some(read), host := AtHalf(Prepared0(s.host, p, env), p, k - 1), toHost := Batch(p)[k..],
       flight := Sending(p, k - 1))
  }

  lemma PreparedAnswer(st: St, p: Prepare, env: Env)
    requires MayRemove(st, p)
    ensures Handle(st, PrepareMessage(p.binding), env) == (Prepared0(st, p, env), Ok([]))
    ensures Prechecking(Prepared0(st, p, env), p) && Prepared0(st, p, env).log == []
    ensures AtHalf(Prepared0(st, p, env), p, 0) == Prepared0(st, p, env)
  {
    PrepareResets(st, p, env);
    HalfStart(Prepared0(st, p, env).pending.value, p);
  }

  lemma FirstTurn(id: Identity, s: Sys, p: Prepare, read: seq<CookieRecord>, env: Env)
    requires MayStart(id, s, p, read)
    ensures Reached(id, s, p, read, env, 1)
  {
    PreparedAnswer(s.host, p, env);
    var start := Turns(p, read, env, 0);
    var queued := s.(held := Some(read), toHost := Batch(p), flight := Queued(p, 0));
    assert start == [] + [Action.PrepareRemoval(p, read)];
    RunSnoc(id, s, [], Action.PrepareRemoval(p, read));
    assert s.toHost + Batch(p) == Batch(p);
    assert RunFrom(id, s, start) == queued;
    RunSnoc(id, s, start, HostStep(env));
    assert queued.toExt + [] == s.toExt;
  }

  lemma NextMessage(p: Prepare, k: nat)
    requires p.Valid() && 1 <= k <= |p.chunks|
    ensures Batch(p)[k..] != [] && Batch(p)[k..][0] == SnapshotChunk(ChunkAt(p, k - 1))
    ensures Batch(p)[k..][1..] == Batch(p)[k + 1..]
  {
  }

  lemma NextTurn(id: Identity, s: Sys, p: Prepare, read: seq<CookieRecord>, env: Env, k: nat)
    requires Prechecking(Prepared0(s.host, p, env), p) && Prepared0(s.host, p, env).log == [] && 1 <= k < |p.chunks|
    ensures var d := Delivered(s, p, read, env, k);
            Removal.Step(id, d, HostStep(env)) == Delivered(s, p, read, env, k + 1) && Allowed(d, HostStep(env))
  {
    var d := Delivered(s, p, read, env, k);
    NextMessage(p, k);
    RemovalBuffers(Prepared0(s.host, p, env), p, k - 1, env);
    SilentStep(d, AtHalf(Prepared0(s.host, p, env), p, k), env);
  }

  /** A host step that is answered with nothing. */
  lemma SilentStep(d: Sys, h: St, env: Env)
    requires d.toHost != [] && Handle(d.host, d.toHost[0], env) == (h, Ok([])) && h.log == []
    ensures AfterHost(d, env) == d.(host := h, toHost := d.toHost[1..], flight := NextFlight(d.flight))
  {
    assert d.toExt + [] == d.toExt;
  }

  /** The system has got as far as k turns. */
  ghost predicate Reached(id: Identity, s: Sys, p: Prepare, read: seq<CookieRecord>, env: Env, k: nat) {
    && 1 <= k <= |p.chunks| && p.Valid()
    && Prechecking(Prepared0(s.host, p, env), p) && Prepared0(s.host, p, env).log == []
    && RunFrom(id, s, Turns(p, read, env, k)) == Delivered(s, p, read, env, k)
    && Mindful(id, s, Turns(p, read, env, k))
  }

  lemma ReachedNext(id: Identity, s: Sys, p: Prepare, read: seq<CookieRecord>, env: Env, k: nat)
    requires Reached(id, s, p, read, env, k) && k < |p.chunks|
    ensures Reached(id, s, p, read, env, k + 1)
  {
    NextTurn(id, s, p, read, env, k);
    RunSnoc(id, s, Turns(p, read, env, k), HostStep(env));
  }

  lemma {:induction false} TurnsDeliver(id: Identity, s: Sys, p: Prepare, read: seq<CookieRecord>, env: Env, k: nat)
    requires k <= |p.chunks| && Reached(id, s, p, read, env, k)
    ensures Reached(id, s, p, read, env, |p.chunks|)
    decreases |p.chunks| - k
  {
    if k < |p.chunks| {
      ReachedNext(id, s, p, read, env, k);
      TurnsDeliver(id, s, p, read, env, k + 1);
    }
  }

  lemma OneReply(st: St, c: Chunk)
    requires c.operationSequence.Some? && c.attemptId.Some?
    ensures HandleRemovalChunk(st, c).1.Ok? ==> |HandleRemovalChunk(st, c).1.value| <= 1
  {
  }

  /** The whole prepare with the extension's receipt of the answer. */
  function Removing(p: Prepare, read: seq<CookieRecord>, env: Env): seq<Action> {
    Turns(p, read, env, |p.chunks| + 1) + [Receive]
  }

  lemma LastAnswer(st: St, p: Prepare, env: Env)
    requires MayRemove(st, p)
    ensures Prechecking(Prepared0(st, p, env), p)
    ensures var k := |p.chunks| - 1;
            var r := Handle(AtHalf(Prepared0(st, p, env), p, k), SnapshotChunk(ChunkAt(p, k)), env).1;
            && (Authorizes(r) <==> Flatten(p.chunks) == CommittedSnapshot(st))
            && (r.Ok? ==> |r.value| <= 1)
  {
    var k := |p.chunks| - 1;
    var st0 := Prepared0(st, p, env);
    RemovalHalfway(st, p, k, env);
    AuthorizedIffCommitted(st, p, env);
    RemovalArrives(st0, p, k, env);
    OneReply(st0.(pending := Some(Half(st0.pending.value, p, k).(chunkDigests := Digests(p, k + 1)))), ChunkAt(p, k));
  }

  /** The system when the host has answered the last chunk. */
  predicate LastAnswered(s: Sys, t: Sys, read: seq<CookieRecord>) {
    && RemovalHost.Committed(s.host.journal) && t.held == Some(read) && t.loop.Idle? && |t.toExt| <= 1
    && t.browser == s.browser
    && (Answered(t.toExt) <==> read == CommittedSnapshot(s.host))
  }

  lemma LastTurn(id: Identity, s: Sys, p: Prepare, read: seq<CookieRecord>, env: Env)
    requires MayStart(id, s, p, read) && Prechecking(Prepared0(s.host, p, env), p)
    ensures var d := Delivered(s, p, read, env, |p.chunks|);
            Allowed(d, HostStep(env)) && LastAnswered(s, Removal.Step(id, d, HostStep(env)), read)
  {
    var d := Delivered(s, p, read, env, |p.chunks|);
    LastAnswer(s.host, p, env);
    NextMessage(p, |p.chunks|);
    AnsweredAfter(d, env);
    LastStep(d, env);
  }

  lemma LastStep(d: Sys, env: Env)
    requires d.toHost != [] && d.toExt == []
    requires var r := Handle(d.host, d.toHost[0], env).1; r.Ok? ==> |r.value| <= 1
    ensures var t := AfterHost(d, env);
            t.held == d.held && t.loop == d.loop && |t.toExt| <= 1 && t.browser == d.browser
  {
  }

  lemma AnswerTaken(id: Identity, s: Sys, t: Sys, read: seq<CookieRecord>)
    requires LastAnswered(s, t, read)
    ensures var n := Removal.Step(id, t, Receive);
            && n.browser == s.browser
            && n.loop == if read == CommittedSnapshot(s.host) then Deciding(read, 0) else Idle
  {
  }

  /** A prepare from a resting system brings the loop to work on its reading if and only if the reading is
      the committed snapshot; otherwise the loop stays idle. */
  lemma RemovalStartsIff(id: Identity, s: Sys, p: Prepare, read: seq<CookieRecord>, env: Env)
    requires MayStart(id, s, p, read)
    ensures var n := RunFrom(id, s, Removing(p, read, env));
            && Mindful(id, s, Removing(p, read, env)) && n.browser == s.browser
            && n.loop == if read == CommittedSnapshot(s.host) then Deciding(read, 0) else Idle
  {
    FirstTurn(id, s, p, read, env);
    TurnsDeliver(id, s, p, read, env, 1);
    LastTurn(id, s, p, read, env);
    LastTurnRuns(id, s, p, read, env);
    AnswerTaken(id, s, RunFrom(id, s, Turns(p, read, env, |p.chunks| + 1)), read);
  }

  lemma LastTurnRuns(id: Identity, s: Sys, p: Prepare, read: seq<CookieRecord>, env: Env)
    requires p.Valid()
    ensures var k := |p.chunks|;
            var d := RunFrom(id, s, Turns(p, read, env, k));
            var t := RunFrom(id, s, Turns(p, read, env, k + 1));
            && t == Removal.Step(id, d, HostStep(env))
            && RunFrom(id, s, Removing(p, read, env)) == Removal.Step(id, t, Receive)
            && (Mindful(id, s, Removing(p, read, env)) <==>
                  Mindful(id, s, Turns(p, read, env, k)) && Allowed(d, HostStep(env)))
  {
    RunSnoc(id, s, Turns(p, read, env, |p.chunks|), HostStep(env));
    RunSnoc(id, s, Turns(p, read, env, |p.chunks| + 1), Receive);
  }

  /** Each record of the committed snapshot can then be the one the loop deletes, unless it is persistent
      without an expiry. */
  lemma EveryRecordIsReached(id: Identity, s: Sys, p: Prepare, read: seq<CookieRecord>, env: Env, c: CookieRecord)
    requires MayStart(id, s, p, read) && read == CommittedSnapshot(s.host) && c in read
    ensures var actions := Removing(p, read, env) + SingleOut(c);
            && Mindful(id, s, actions)
            && (RunFrom(id, s, actions).loop.Deleting? <==> Removable(c))
            && (RunFrom(id, s, actions).loop.Deleting? ==> RunFrom(id, s, actions).loop.record == c)
  {
    RemovalStartsIff(id, s, p, read, env);
    var t := RunFrom(id, s, Removing(p, read, env));
    SingleOutDeletes(id, t, read, c);
    SingleOutMindful(id, t, c);
    RunConcat(id, s, Removing(p, read, env), SingleOut(c));
  }

  lemma SingleOutMindful(id: Identity, t: Sys, c: CookieRecord)
    ensures Mindful(id, t, SingleOut(c))
  {
    RunSnoc(id, t, [], BrowserChange([c]));
    RunSnoc(id, t, [BrowserChange([c])], Decide([c]));
    assert [] + [BrowserChange([c])] == [BrowserChange([c])];
    assert SingleOut(c) == [BrowserChange([c])] + [Decide([c])];
  }

  // ---------------------------------------------------------------------------------------------
  // From the empty disk
  // ---------------------------------------------------------------------------------------------

  const FIRST_ENV: Env := Env(0, 0, 1, 1, 1, true, false)

  const HELLO: Message := Handshake(1, true, Accepted)

  const ENROLL: Message := OperationBegin(1, Enrollment, None, "initial_enrollment")

  /** One cookie in one chunk of the first operation. */
  function Single(c: CookieRecord): Prepare { Prepare(Reference(1, 1, None, 1), [[c]], [0]) }

  function Store(c: CookieRecord): Message { SnapshotChunk(Sent(Single(c), 0, CommitPurpose)) }

  /** A message to the host, its answer, and the extension's receipt of it. */
  function Exchange(m: Message): seq<Action> { [Send(m), HostStep(FIRST_ENV), Receive] }

  lemma ExchangeSteps(id: Identity, s: Sys, m: Message)
    ensures var s1 := Removal.Step(id, s, Send(m));
            var s2 := Removal.Step(id, s1, HostStep(FIRST_ENV));
            && RunFrom(id, s, Exchange(m)) == Removal.Step(id, s2, Receive)
            && (Mindful(id, s, Exchange(m)) <==> Allowed(s1, HostStep(FIRST_ENV)))
  {
    var one, two := [Send(m)], [Send(m), HostStep(FIRST_ENV)];
    RunSnoc(id, s, [], Send(m));
    RunSnoc(id, s, one, HostStep(FIRST_ENV));
    RunSnoc(id, s, two, Receive);
    assert [] + one == one && one + [HostStep(FIRST_ENV)] == two && two + [Receive] == Exchange(m);
  }

  lemma ExchangeRun(id: Identity, s: Sys, m: Message)
    requires AtRest(s) && s.held.None? && MaySend(s, m) && !m.SessionInvalidate?
    requires var r := Handle(s.host, m, FIRST_ENV).1; r.Ok? ==> |r.value| <= 1
    ensures RunFrom(id, s, Exchange(m)) == s.(host := Handle(s.host, m, FIRST_ENV).0.(log := []))
    ensures Mindful(id, s, Exchange(m))
  {
    ExchangeSteps(id, s, m);
    SentAlone(id, s, m);
    AnsweredBy(s.(toHost := [m]), m);
    ReceivedAlone(id, AfterHost(s.(toHost := [m]), FIRST_ENV));
  }

  lemma SentAlone(id: Identity, s: Sys, m: Message)
    requires AtRest(s) && MaySend(s, m)
    ensures Removal.Step(id, s, Send(m)) == s.(toHost := [m])
  {
    assert s.toHost + [m] == [m];
  }

  lemma ReceivedAlone(id: Identity, s: Sys)
    requires s.loop.Idle? && s.held.None? && |s.toExt| <= 1
    ensures Removal.Step(id, s, Receive) == s.(toExt := [])
  {
  }

  /** The host takes the one message that is there. */
  lemma AnsweredBy(s: Sys, m: Message)
    requires s.toHost == [m] && s.toExt == [] && s.flight.NoFlight?
    requires var r := Handle(s.host, m, FIRST_ENV).1; r.Ok? ==> |r.value| <= 1
    ensures var t := AfterHost(s, FIRST_ENV);
            && |t.toExt| <= 1
            && t == s.(host := Handle(s.host, m, FIRST_ENV).0.(log := []), toHost := [], toExt := t.toExt)
  {
  }

  function Hello(h: St): St { Handle(h, HELLO, FIRST_ENV).0.(log := []) }

  function Enrolling(h: St): St { Handle(Hello(h), ENROLL, FIRST_ENV).0.(log := []) }

  function Storing(h: St, c: CookieRecord): St { Handle(Enrolling(h), Store(c), FIRST_ENV).0.(log := []) }

  predicate FirstHost(h: St) {
    && h.journal == JournalModel.Empty(h.groupId) && h.disk.vault.None? && h.lease == InitialLease(h.groupId, false)
    && h.pending.None? && h.profileId.None? && !h.connected && !h.monitoringOnly && h.log == [] && HostInv(h)
  }

  lemma OpensFirst(groupId: Uuid)
    ensures FirstHost(Open(groupId, false, EmptyDisk(groupId)).0.(log := []))
  {
    EmptyDiskInv(groupId);
    OpenSafe(groupId, false, EmptyDisk(groupId));
  }

  lemma HelloConnects(h: St)
    requires FirstHost(h)
    ensures Handle(h, HELLO, FIRST_ENV).1 == Ok([])
    ensures var n := Hello(h);
            && n.journal == h.journal && n.connected && n.v7 && n.profileId == Some(1) && n.lease.state.Uninitialized?
            && n.pending.None? && n.log == [] && n.groupId == h.groupId && n.disk.vault.None? && HostInv(n)
  {
    HandleSafe(h, HELLO, FIRST_ENV);
  }

  lemma EnrollBegins(h: St, c: CookieRecord)
    requires FirstHost(h)
    ensures var r := Handle(Hello(h), ENROLL, FIRST_ENV).1; r.Ok? && |r.value| == 1
    ensures var n := Enrolling(h);
            && MayCommit(n, Single(c)) && n.disk.vault.None?
            && Last(n.journal).attemptId == Some(1) && Last(n.journal).sequence == 1
  {
    HelloConnects(h);
    var q := Request(1, Some(1), Enrollment, None, "initial_enrollment", Hello(h).lease.vaultSequence);
    assert q.Valid();
    assert IssueV7(Hello(h), q).1.Ok?;
    HandleSafe(Hello(h), ENROLL, FIRST_ENV);
    SingleFlattens(c);
  }

  lemma SingleFlattens(c: CookieRecord)
    ensures Flatten(Single(c).chunks) == [c] && Admissible(Single(c))
  {
    assert [[c]][..0] == [];
  }

  lemma BufferedOneReply(st: St, c: Chunk, cookies: seq<CookieRecord>, p: Pending, env: Env)
    ensures var r := CommitBuffered(st, c, cookies, p, env).1; r.Ok? ==> |r.value| <= 1
  {
    var prepared := PrepareAfterSnapshot(st.disk.vault, cookies, env.nonce, env.fits);
    if prepared.Ok? {
      var (st2, committed) := CommitSnapshot(st, c.operationId, cookies, prepared.value);
      if committed.Ok? {
        ConfirmOneReply(st2, c.operationId, committed.value, p.(confirmed := true, cookieCount := Some(|cookies|)));
      }
    }
  }

  lemma ConfirmOneReply(st: St, id: Uuid, sequence: nat, p: Pending)
    ensures var r := ConfirmCommitted(st, id, sequence, p).1; r.Ok? ==> |r.value| <= 1
  {
  }

  lemma CommitOneReply(st: St, c: Chunk, env: Env)
    ensures var r := HandleSnapshotChunk(st, c, env).1; r.Ok? ==> |r.value| <= 1
  {
    if st.pending.Some? {
      var p := AppendCommitChunk(st.pending.value, c).0;
      BufferedOneReply(st.(pending := Some(p)), c, p.cookies, p.(cookies := []), env);
      AbortOneReply(st.(pending := None), c.operationId);
    }
  }

  lemma AbortOneReply(st: St, id: Uuid)
    ensures var r := AbortEmpty(st, id).1; r.Ok? ==> |r.value| <= 1
  {
  }

  lemma StoreOneReply(st: St, c: CookieRecord)
    ensures var r := Handle(st, Store(c), FIRST_ENV).1; r.Ok? ==> |r.value| <= 1
  {
    var chunk := Sent(Single(c), 0, CommitPurpose);
    CommitOneReply(st, chunk, FIRST_ENV);
    if Fresh(st, chunk) {
      SnapshotChunkV7Shape(st, chunk, FIRST_ENV);
      CommitOneReply(Noted(st, chunk), chunk, FIRST_ENV);
    }
  }

  lemma StoreIsRun(n: St, c: CookieRecord)
    ensures Handle(n, Store(c), FIRST_ENV).0 == CommitRun(n, Single(c), 1, FIRST_ENV)
  {
    assert CommitRun(n, Single(c), 0, FIRST_ENV) == n;
  }

  lemma StoreCommits(h: St, c: CookieRecord)
    requires FirstHost(h)
    ensures var r := Handle(Enrolling(h), Store(c), FIRST_ENV).1; r.Ok? ==> |r.value| <= 1
    ensures MayRemove(Storing(h, c), Single(c)) && CommittedSnapshot(Storing(h, c)) == [c]
  {
    EnrollBegins(h, c);
    StoredFrom(Enrolling(h), c);
    StoreIsRun(Enrolling(h), c);
    StoreOneReply(Enrolling(h), c);
  }

  lemma StoredFrom(n: St, c: CookieRecord)
    requires MayCommit(n, Single(c)) && n.disk.vault.None?
    requires Last(n.journal).attemptId == Some(1) && Last(n.journal).sequence == 1
    ensures var m := CommitRun(n, Single(c), 1, FIRST_ENV).(log := []);
            MayRemove(m, Single(c)) && CommittedSnapshot(m) == [c]
  {
    var p := Single(c);
    SingleFlattens(c);
    assert PrepareAfterSnapshot(n.disk.vault, [c], FIRST_ENV.nonce, FIRST_ENV.fits).Ok?;
    CommittedMayRemove(n, p, p, FIRST_ENV);
    CommittedIsSent(n, p, FIRST_ENV);
  }

  /** Connect, begin the first operation and store the cookie. */
  function Opening(c: CookieRecord): seq<Action> {
    Exchange(HELLO) + Exchange(ENROLL) + Exchange(Store(c)) + [BrowserChange([c])]
  }

  lemma OpeningRun(id: Identity, s0: Sys, groupId: Uuid, c: CookieRecord)
    requires Initial(s0, groupId, false)
    ensures RunFrom(id, s0, Opening(c)) == s0.(host := Storing(s0.host, c), browser := [c])
    ensures Mindful(id, s0, Opening(c))
  {
    OpensFirst(groupId);
    HelloConnects(s0.host);
    EnrollBegins(s0.host, c);
    StoreCommits(s0.host, c);
    ExchangeRun(id, s0, HELLO);
    var s1 := s0.(host := Hello(s0.host));
    ExchangeRun(id, s1, ENROLL);
    var s2 := s0.(host := Enrolling(s0.host));
    ExchangeRun(id, s2, Store(c));
    RunConcat(id, s0, Exchange(HELLO), Exchange(ENROLL));
    RunConcat(id, s0, Exchange(HELLO) + Exchange(ENROLL), Exchange(Store(c)));
    RunSnoc(id, s0, Exchange(HELLO) + Exchange(ENROLL) + Exchange(Store(c)), BrowserChange([c]));
  }

  /** A run from the empty disk that stores the cookie and comes to delete it. */
  function FirstDeletion(c: CookieRecord): seq<Action> {
    Opening(c) + (Removing(Single(c), [c], FIRST_ENV) + SingleOut(c))
  }

  /** Any cookie at all that the extension can delete is stored and then chosen for deletion in some run
      from the empty disk, so the theorems about deletion speak of runs that exist. */
  lemma DeletionIsReached(id: Identity, s0: Sys, groupId: Uuid, c: CookieRecord)
    requires Initial(s0, groupId, false)
    ensures Mindful(id, s0, FirstDeletion(c))
    ensures var n := RunFrom(id, s0, FirstDeletion(c));
            (n.loop.Deleting? <==> Removable(c)) && (n.loop.Deleting? ==> n.loop.record == c)
  {
    OpensFirst(groupId);
    StoreCommits(s0.host, c);
    OpeningRun(id, s0, groupId, c);
    var s := RunFrom(id, s0, Opening(c));
    assert [c][0] == c;
    OnlyOne(id, [c], c);
    SingleFlattens(c);
    EveryRecordIsReached(id, s, Single(c), [c], FIRST_ENV, c);
    RunConcat(id, s0, Opening(c), Removing(Single(c), [c], FIRST_ENV) + SingleOut(c));
  }
}
