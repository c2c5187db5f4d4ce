/** Guarded removal as one transition system: host, extension, browser and the two message channels
    between them, with crashes of the host and restarts of the extension's worker
    (extension/src/background.ts, native-host/src/dispatcher.rs).

    The extension runs its handlers one after another, so while a removal loop runs it sends nothing
    but handshakes and status queries, and it reports a result only when no prepare is outstanding.
    At most one prepare is outstanding at a time. Everything else is free: any other message in any
    order, any change of the browser's cookies at any moment, any crash. */
module Removal {
  import opened Base
  import opened JournalModel
  import opened EngineSpec
  import opened EngineInvariant
  import opened EngineSafety
  import opened EngineRuns
  import opened RemovalHost
  import opened GuardedRemoval

  datatype Loop =
    | Idle
    | Deciding(authorized: seq<CookieRecord>, index: nat)
    | Deleting(authorized: seq<CookieRecord>, index: nat, record: CookieRecord, reading: seq<CookieRecord>)

  /** Where the one outstanding prepare is: behind `ahead` other messages, or with `done` of its
      chunks delivered. */
  datatype Flight = NoFlight | Queued(prepare: Prepare, ahead: nat) | Sending(prepare: Prepare, done: nat)

  datatype Sys = Sys(
    host: St,
    held: Option<seq<CookieRecord>>,
    loop: Loop,
    browser: seq<CookieRecord>,
    toHost: seq<Message>,
    toExt: seq<Reply>,
    flight: Flight)

  datatype Action =
    | BrowserChange(cookies: seq<CookieRecord>)
    | PrepareRemoval(prepare: Prepare, read: seq<CookieRecord>)
    | Send(message: Message)
    | HostStep(env: Env)
    | Restart(worker: bool, env: Env, writes: nat, again: seq<nat>)
    | Receive
    | Decide(current: seq<CookieRecord>)
    | DeleteNow(left: seq<CookieRecord>)
    | Finish(result: Message)

  // ---------------------------------------------------------------------------------------------
  // Steps
  // ---------------------------------------------------------------------------------------------

  predicate Answered(replies: seq<Reply>) { exists i :: 0 <= i < |replies| && replies[i].RemoveAuthorized? }

  /** No prepare is on its way to the host and no authorisation on its way back. */
  predicate NoneOutstanding(s: Sys) { s.flight.NoFlight? && !Answered(s.toExt) }

  function Batch(p: Prepare): seq<Message>
    requires p.Valid()
  {
    [PrepareMessage(p.binding)] + seq(|p.chunks|, i requires 0 <= i < |p.chunks| => SnapshotChunk(ChunkAt(p, i)))
  }

  predicate MaySend(s: Sys, m: Message) {
    && !m.RemovePrepare? && !IsPrecheck(m)
    && (m.EvictResult? ==> NoneOutstanding(s) && s.loop.Idle?)
    && (!s.loop.Idle? ==> Quiet(m))
  }

  function NextFlight(f: Flight): Flight {
    match f
    case NoFlight => NoFlight
    case Queued(p, ahead) => if ahead > 0 then Queued(p, ahead - 1) else Sending(p, 0)
    case Sending(p, done) => if done + 1 < |p.chunks| then Sending(p, done + 1) else NoFlight
  }

  /** Startup attempts that crash after the given numbers of writes. */
  function Reboot(groupId: Uuid, monitoringOnly: bool, d: Disk, again: seq<nat>): Disk
    decreases |again|
  {
    if again == [] then d
    else Reboot(groupId, monitoringOnly, CrashDisk(d, Open(groupId, monitoringOnly, d).0.log, again[0]), again[1..])
  }

  function Reopened(st: St, d: Disk, again: seq<nat>): St {
    Open(st.groupId, st.monitoringOnly, Reboot(st.groupId, st.monitoringOnly, d, again)).0.(log := [])
  }

  /** The disk when the host dies, possibly in the middle of its next message. */
  function DiskAtCrash(s: Sys, env: Env, writes: nat): Disk {
    if s.toHost == [] then s.host.disk
    else CrashDisk(s.host.disk, Handle(s.host, s.toHost[0], env).0.log, writes)
  }

  function AfterHost(s: Sys, env: Env): Sys
    requires s.toHost != []
  {
    var (h, r) := Handle(s.host, s.toHost[0], env);
    s.(host := h.(log := []), toHost := s.toHost[1..], toExt := if r.Ok? then s.toExt + r.value else s.toExt,
       flight := NextFlight(s.flight))
  }

  function AfterRestart(s: Sys, worker: bool, d: Disk, again: seq<nat>): Sys {
    s.(host := Reopened(s.host, d, again), toHost := [], toExt := [], flight := NoFlight,
       held := if worker then None else s.held, loop := if worker then Idle else s.loop)
  }

  /** The loop after a decision. The cookie found for a chosen record is the record itself
      (`GuardedRemoval.DeleteIsExact`); it is deleted if it passes the round-trip test. Where the loop
      breaks off instead, `Finish` follows; that it may also decide again here only adds runs. */
  function AfterDecision(id: Identity, loop: Loop, current: seq<CookieRecord>): Loop
    requires loop.Deciding? && loop.index <= |loop.authorized|
  {
    var (i, v) := NextStep(id, loop.authorized, loop.index, current);
    if v.Delete? && RoundTripMatches(id, v.record, v.record) then Deleting(loop.authorized, i, v.record, current)
    else Deciding(loop.authorized, i)
  }

  /** One step; an action that is not enabled changes nothing. */
  ghost function Step(id: Identity, s: Sys, a: Action): Sys {
    match a
    case BrowserChange(cookies) => s.(browser := cookies)
    case PrepareRemoval(p, read) =>
      if NoneOutstanding(s) && s.loop.Idle? && IsReading(id, s.browser, read) && p.Valid()
         && Flatten(p.chunks) == read then
        s.(held := Some(read), toHost := s.toHost + Batch(p), flight := Queued(p, |s.toHost|))
      else s
    case Send(m) => if MaySend(s, m) then s.(toHost := s.toHost + [m]) else s
    case HostStep(env) => if s.toHost != [] then AfterHost(s, env) else s
    case Restart(worker, env, writes, again) => AfterRestart(s, worker, DiskAtCrash(s, env, writes), again)
    case Receive =>
      if s.toExt == [] || !s.loop.Idle? then s
      else
        var rest := s.(toExt := s.toExt[1..]);
        if s.toExt[0].RemoveAuthorized? && s.held.Some? then rest.(loop := Deciding(s.held.value, 0)) else rest
    case Decide(current) =>
      if s.loop.Deciding? && s.loop.index <= |s.loop.authorized| && IsReading(id, s.browser, current) then
        s.(loop := AfterDecision(id, s.loop, current)) else s
    case DeleteNow(left) =>
      if s.loop.Deleting? && (forall c :: c in left ==> c in s.browser) then
        s.(browser := left, loop := Deciding(s.loop.authorized, s.loop.index))
      else s
    case Finish(m) =>
      if !s.loop.Idle? && m.EvictResult? then s.(loop := Idle, held := None, toHost := s.toHost + [m]) else s
  }

  ghost predicate Initial(s: Sys, groupId: Uuid, monitoringOnly: bool) {
    && s.host == Open(groupId, monitoringOnly, EmptyDisk(groupId)).0.(log := [])
    && s.held.None? && s.loop.Idle? && s.toHost == [] && s.toExt == [] && s.flight.NoFlight?
  }

  ghost function RunFrom(id: Identity, s: Sys, actions: seq<Action>): Sys {
    if actions == [] then s
    else Step(id, RunFrom(id, s, actions[..|actions| - 1]), actions[|actions| - 1])
  }

  /** The host accepts no invalidation while an operation is unresolved and nothing is pending. */
  ghost predicate Mindful(id: Identity, s: Sys, actions: seq<Action>) {
    actions != [] ==>
      && Mindful(id, s, actions[..|actions| - 1])
      && Allowed(RunFrom(id, s, actions[..|actions| - 1]), actions[|actions| - 1])
  }

  predicate Allowed(s: Sys, a: Action) {
    a.HostStep? && s.toHost != [] ==> !Careless(s.host, s.toHost[0])
  }

  // ---------------------------------------------------------------------------------------------
  // The invariant
  // ---------------------------------------------------------------------------------------------

  predicate AllPlain(ms: seq<Message>) { forall i :: 0 <= i < |ms| ==> Plain(ms[i]) }

  predicate AllQuiet(ms: seq<Message>) { forall i :: 0 <= i < |ms| ==> Quiet(ms[i]) }

  predicate NoPrepare(ms: seq<Message>) { forall i :: 0 <= i < |ms| ==> !ms[i].RemovePrepare? && !IsPrecheck(ms[i]) }

  predicate QueuedAs(ms: seq<Message>, p: Prepare, ahead: nat) {
    && p.Valid() && ahead + 1 + |p.chunks| <= |ms|
    && NoPrepare(ms[..ahead])
    && ms[ahead] == PrepareMessage(p.binding)
    && SendingAs(ms[ahead + 1..], p, 0)
  }

  predicate SendingAs(ms: seq<Message>, p: Prepare, done: nat) {
    && p.Valid() && done < |p.chunks| <= done + |ms|
    && (forall i :: 0 <= i < |p.chunks| - done ==> ms[i] == SnapshotChunk(ChunkAt(p, done + i)))
    && AllPlain(ms[|p.chunks| - done..])
  }

  predicate FlightInv(s: Sys) {
    match s.flight
    case NoFlight => NoPrepare(s.toHost)
    case Queued(p, ahead) =>
      s.loop.Idle? && !Answered(s.toExt) && s.held == Some(Flatten(p.chunks)) && QueuedAs(s.toHost, p, ahead)
    case Sending(p, done) =>
      s.loop.Idle? && !Answered(s.toExt) && s.held == Some(Flatten(p.chunks)) && SendingAs(s.toHost, p, done)
      && Tracks(s.host, p, done)
  }

  predicate AnswerInv(s: Sys) {
    Answered(s.toExt) && s.held.Some? ==>
      s.flight.NoFlight? && Locked(s.host) && Covered(s.held.value, s.host.disk.vault) && AllPlain(s.toHost)
  }

  predicate LoopInv(id: Identity, s: Sys) {
    !s.loop.Idle? ==>
      && s.flight.NoFlight?
      && Unique(id, s.loop.authorized) && s.loop.index <= |s.loop.authorized|
      && Covered(s.loop.authorized, s.host.disk.vault)
      && (s.loop.Deleting? ==>
            s.loop.record in s.loop.reading && forall c :: c in s.loop.reading ==> c in s.loop.authorized)
      && ((Locked(s.host) && AllPlain(s.toHost)) || AllQuiet(s.toHost))
  }

  predicate Inv(id: Identity, s: Sys) {
    && HostInv(s.host) && s.host.log == [] && VaultKept(s.host)
    && (s.held.Some? ==> Unique(id, s.held.value))
    && FlightInv(s) && AnswerInv(s) && LoopInv(id, s)
  }

  // ---------------------------------------------------------------------------------------------
  // Host steps
  // ---------------------------------------------------------------------------------------------

  lemma HostFacts(s: Sys, env: Env)
    requires HostInv(s.host) && s.host.log == [] && VaultKept(s.host) && s.toHost != []
    requires !Careless(s.host, s.toHost[0])
    ensures var t := AfterHost(s, env);
            HostInv(t.host) && t.host.log == [] && VaultKept(t.host)
  {
    HandleSafe(s.host, s.toHost[0], env);
    HandleKept(s.host, s.toHost[0], env);
  }

  lemma AnsweredAppend(a: seq<Reply>, b: seq<Reply>)
    ensures Answered(a + b) <==> Answered(a) || Answered(b)
  {
    if Answered(a) {
      var i :| 0 <= i < |a| && a[i].RemoveAuthorized?;
      assert (a + b)[i].RemoveAuthorized?;
    }
    if Answered(b) {
      var i :| 0 <= i < |b| && b[i].RemoveAuthorized?;
      assert (a + b)[|a| + i].RemoveAuthorized?;
    }
  }

  lemma AnsweredAfter(s: Sys, env: Env)
    requires s.toHost != []
    ensures Answered(AfterHost(s, env).toExt) <==> Answered(s.toExt) || Authorizes(Handle(s.host, s.toHost[0], env).1)
  {
    var r := Handle(s.host, s.toHost[0], env).1;
    if r.Ok? { AnsweredAppend(s.toExt, r.value); }
  }

  /** A host that is locked, or that gets a quiet message, leaves the vault alone. */
  lemma GuardedStep(h: St, m: Message, env: Env)
    requires HostInv(h) && h.log == [] && ((Locked(h) && Plain(m)) || Quiet(m))
    ensures var n := Handle(h, m, env).0;
            VaultUntouched(h, n) && (Locked(h) && Plain(m) ==> Locked(n))
  {
    if Locked(h) && Plain(m) { LockedKeeps(h, m, env); } else { QuietFiles(h, m, env); }
  }

  lemma HostStepFree(id: Identity, s: Sys, env: Env)
    requires Inv(id, s) && s.toHost != [] && s.flight.NoFlight?
    ensures var t := AfterHost(s, env);
            FlightInv(t) && AnswerInv(t) && LoopInv(id, t)
  {
    var m, t := s.toHost[0], AfterHost(s, env);
    OnlyPrecheckAuthorizes(s.host, m, env);
    AnsweredAfter(s, env);
    assert forall i :: 0 <= i < |t.toHost| ==> t.toHost[i] == s.toHost[i + 1];
    if !s.loop.Idle? || (Answered(s.toExt) && s.held.Some?) {
      GuardedStep(s.host, m, env);
    }
  }

  lemma HostStepQueued(id: Identity, s: Sys, env: Env)
    requires Inv(id, s) && s.toHost != [] && s.flight.Queued?
    ensures var t := AfterHost(s, env);
            FlightInv(t) && AnswerInv(t) && LoopInv(id, t)
  {
    var p, k, m, t := s.flight.prepare, s.flight.ahead, s.toHost[0], AfterHost(s, env);
    AnsweredAfter(s, env);
    if k == 0 {
      PrepareTracks(s.host, p, env);
    } else {
      assert m == s.toHost[..k][0];
      OnlyPrecheckAuthorizes(s.host, m, env);
      assert t.toHost[..k - 1] == s.toHost[..k][1..];
      assert t.toHost[k..] == s.toHost[k + 1..];
    }
  }

  lemma HostStepSending(id: Identity, s: Sys, env: Env)
    requires Inv(id, s) && s.toHost != [] && s.flight.Sending?
    ensures var t := AfterHost(s, env);
            FlightInv(t) && AnswerInv(t) && LoopInv(id, t)
  {
    var p, n, t := s.flight.prepare, s.flight.done, AfterHost(s, env);
    AnsweredAfter(s, env);
    ChunkTracks(s.host, p, n, env);
    assert t.toHost[|p.chunks| - n - 1..] == s.toHost[|p.chunks| - n..];
  }

  lemma HostStepInv(id: Identity, s: Sys, env: Env)
    requires Inv(id, s) && s.toHost != [] && !Careless(s.host, s.toHost[0])
    ensures Inv(id, AfterHost(s, env))
  {
    HostFacts(s, env);
    match s.flight
    case NoFlight => HostStepFree(id, s, env);
    case Queued(_, _) => HostStepQueued(id, s, env);
    case Sending(_, _) => HostStepSending(id, s, env);
  }

  // ---------------------------------------------------------------------------------------------
  // Crashes
  // ---------------------------------------------------------------------------------------------

  predicate AlwaysVault(st: St, v: Option<VaultFile>) {
    st.disk.vault == v && forall i :: 0 <= i < |st.log| ==> st.log[i].vault == v
  }

  lemma ResumedVault(st: St, v: Option<VaultFile>)
    requires AlwaysVault(st, v)
    ensures AlwaysVault(Resumed(st), v)
  {
  }

  lemma RepairVault(st: St, r: Recovery, vaultExists: bool, v: Option<VaultFile>)
    requires AlwaysVault(st, v)
    ensures AlwaysVault(RepairLease(st, r, vaultExists), v)
  {
  }

  lemma OpenKeepsVault(groupId: Uuid, monitoringOnly: bool, d: Disk, writes: nat)
    requires DiskInv(d, groupId)
    ensures CrashDisk(d, Open(groupId, monitoringOnly, d).0.log, writes).vault == d.vault
  {
    OpenShape(groupId, monitoringOnly, d);
    var st1 := LoadLease(Boot(groupId, monitoringOnly, d)).0;
    assert AlwaysVault(st1, d.vault);
    ResumedVault(st1, d.vault);
    RepairVault(Resumed(st1), ResumedRecovery(st1), d.vault.Some?, d.vault);
  }

  lemma {:induction false} RebootGood(groupId: Uuid, monitoringOnly: bool, d: Disk, again: seq<nat>)
    requires DiskInv(d, groupId)
    ensures DiskInv(Reboot(groupId, monitoringOnly, d, again), groupId)
    ensures Reboot(groupId, monitoringOnly, d, again).vault == d.vault
    decreases |again|
  {
    if again != [] {
      OpenSafe(groupId, monitoringOnly, d);
      CrashDiskGood(d, Open(groupId, monitoringOnly, d).0, again[0]);
      OpenKeepsVault(groupId, monitoringOnly, d, again[0]);
      RebootGood(groupId, monitoringOnly, CrashDisk(d, Open(groupId, monitoringOnly, d).0.log, again[0]), again[1..]);
    }
  }

  lemma ReopenedGood(st: St, d: Disk, again: seq<nat>)
    requires DiskInv(d, st.groupId)
    ensures var n := Reopened(st, d, again);
            HostInv(n) && n.log == [] && VaultKept(n) && n.disk.vault == d.vault
  {
    RebootGood(st.groupId, st.monitoringOnly, d, again);
    OpenSafe(st.groupId, st.monitoringOnly, Reboot(st.groupId, st.monitoringOnly, d, again));
  }

  lemma CrashedDisk(st: St, n: St, writes: nat)
    requires HostInv(st) && Safe(st.disk, n)
    ensures DiskInv(CrashDisk(st.disk, n.log, writes), st.groupId)
    ensures VaultUntouched(st, n) ==> CrashDisk(st.disk, n.log, writes).vault == st.disk.vault
  {
    HandledSafe(st.groupId, st, n, writes);
  }

  lemma CrashGood(id: Identity, s: Sys, env: Env, writes: nat)
    requires Inv(id, s)
    ensures DiskInv(DiskAtCrash(s, env, writes), s.host.groupId)
    ensures !s.loop.Idle? ==> DiskAtCrash(s, env, writes).vault == s.host.disk.vault
  {
    if s.toHost != [] {
      HandleSafe(s.host, s.toHost[0], env);
      CrashedDisk(s.host, Handle(s.host, s.toHost[0], env).0, writes);
      if !s.loop.Idle? { GuardedStep(s.host, s.toHost[0], env); }
    }
  }

  lemma RestartInv(id: Identity, s: Sys, worker: bool, env: Env, writes: nat, again: seq<nat>)
    requires Inv(id, s)
    ensures Inv(id, AfterRestart(s, worker, DiskAtCrash(s, env, writes), again))
  {
    CrashGood(id, s, env, writes);
    ReopenedGood(s.host, DiskAtCrash(s, env, writes), again);
  }

  // ---------------------------------------------------------------------------------------------
  // Extension steps
  // ---------------------------------------------------------------------------------------------

  lemma PrepareInv(id: Identity, s: Sys, p: Prepare, read: seq<CookieRecord>)
    requires Inv(id, s) && NoneOutstanding(s) && s.loop.Idle? && IsReading(id, s.browser, read) && p.Valid()
    requires Flatten(p.chunks) == read
    ensures Inv(id, s.(held := Some(read), toHost := s.toHost + Batch(p), flight := Queued(p, |s.toHost|)))
  {
    var all, k := s.toHost + Batch(p), |s.toHost|;
    assert all[..k] == s.toHost;
    assert all[k + 1..] == Batch(p)[1..];
    assert all[k] == Batch(p)[0];
  }

  lemma SendInv(id: Identity, s: Sys, m: Message)
    requires Inv(id, s) && MaySend(s, m)
    ensures Inv(id, s.(toHost := s.toHost + [m]))
  {
    var all := s.toHost + [m];
    match s.flight
    case NoFlight =>
    case Queued(p, k) =>
      assert all[..k] == s.toHost[..k];
      assert all[k + 1..] == s.toHost[k + 1..] + [m];
      SendingLonger(s.toHost[k + 1..], p, 0, m);
    case Sending(p, n) => SendingLonger(s.toHost, p, n, m);
  }

  lemma SendingLonger(ms: seq<Message>, p: Prepare, n: nat, m: Message)
    requires SendingAs(ms, p, n) && Plain(m)
    ensures SendingAs(ms + [m], p, n)
  {
    var k := |p.chunks| - n;
    assert (ms + [m])[k..] == ms[k..] + [m];
  }

  lemma ReceiveInv(id: Identity, s: Sys)
    requires Inv(id, s)
    ensures Inv(id, Step(id, s, Receive))
  {
    if s.toExt != [] && s.loop.Idle? {
      AnsweredAppend([s.toExt[0]], s.toExt[1..]);
      assert s.toExt == [s.toExt[0]] + s.toExt[1..];
      if s.toExt[0].RemoveAuthorized? { assert Answered(s.toExt); }
    }
  }

  lemma DecideInv(id: Identity, s: Sys, current: seq<CookieRecord>)
    requires Inv(id, s) && s.loop.Deciding?
    ensures Inv(id, s.(loop := AfterDecision(id, s.loop, current)))
  {
    DeleteIsExact(id, s.loop.authorized, s.loop.index, current);
    if NextStep(id, s.loop.authorized, s.loop.index, current).1.Delete? {
      ExpectedAreAuthorized(id, s.loop.authorized, s.loop.index, current);
    }
  }

  lemma LocalStepInv(id: Identity, s: Sys, a: Action)
    requires Inv(id, s) && (a.BrowserChange? || a.DeleteNow? || a.Decide?)
    ensures Inv(id, Step(id, s, a))
  {
    if a.Decide? && s.loop.Deciding? { DecideInv(id, s, a.current); }
  }

  lemma PrepareStepInv(id: Identity, s: Sys, p: Prepare, read: seq<CookieRecord>)
    requires Inv(id, s)
    ensures Inv(id, Step(id, s, Action.PrepareRemoval(p, read)))
  {
    if NoneOutstanding(s) && s.loop.Idle? && IsReading(id, s.browser, read) && p.Valid() && Flatten(p.chunks) == read {
      PrepareInv(id, s, p, read);
    }
  }

  lemma SendStepInv(id: Identity, s: Sys, m: Message)
    requires Inv(id, s)
    ensures Inv(id, Step(id, s, Send(m)))
  {
    if MaySend(s, m) { SendInv(id, s, m); }
  }

  lemma HostActionInv(id: Identity, s: Sys, env: Env)
    requires Inv(id, s) && Allowed(s, HostStep(env))
    ensures Inv(id, Step(id, s, HostStep(env)))
  {
    if s.toHost != [] { HostStepInv(id, s, env); }
  }

  lemma StepInv(id: Identity, s: Sys, a: Action)
    requires Inv(id, s) && Allowed(s, a)
    ensures Inv(id, Step(id, s, a))
  {
    match a
    case PrepareRemoval(p, read) => PrepareStepInv(id, s, p, read);
    case Send(m) => SendStepInv(id, s, m);
    case HostStep(env) => HostActionInv(id, s, env);
    case Restart(worker, env, writes, again) => RestartInv(id, s, worker, env, writes, again);
    case Receive => ReceiveInv(id, s);
    case Finish(m) => FinishInv(id, s, m);
    case BrowserChange(_) => LocalStepInv(id, s, a);
    case DeleteNow(_) => LocalStepInv(id, s, a);
    case Decide(_) => LocalStepInv(id, s, a);
  }

  lemma FinishInv(id: Identity, s: Sys, m: Message)
    requires Inv(id, s)
    ensures Inv(id, Step(id, s, Finish(m)))
  {
  }

  lemma InitialInv(id: Identity, s: Sys, groupId: Uuid, monitoringOnly: bool)
    requires Initial(s, groupId, monitoringOnly)
    ensures Inv(id, s)
  {
    EmptyDiskInv(groupId);
    OpenSafe(groupId, monitoringOnly, EmptyDisk(groupId));
  }

  lemma {:induction false} RunInv(id: Identity, s: Sys, groupId: Uuid, monitoringOnly: bool, actions: seq<Action>)
    requires Initial(s, groupId, monitoringOnly) && Mindful(id, s, actions)
    ensures Inv(id, RunFrom(id, s, actions))
    decreases |actions|
  {
    if actions == [] {
      InitialInv(id, s, groupId, monitoringOnly);
    } else {
      RunInv(id, s, groupId, monitoringOnly, actions[..|actions| - 1]);
      StepInv(id, RunFrom(id, s, actions[..|actions| - 1]), actions[|actions| - 1]);
    }
  }

  // ---------------------------------------------------------------------------------------------
  // Theorems
  // ---------------------------------------------------------------------------------------------

  /** The records sealed in the vault at this moment. */
  function Sealed(s: Sys): seq<CookieRecord> {
    if s.host.disk.vault.Some? && s.host.disk.vault.value.Record? then s.host.disk.vault.value.cookies else []
  }

  /** In every run, whenever the removal loop calls the browser's delete: the record it decided on is in
      the vault, and so is every cookie of the reading it decided by. Whatever the call removes, the
      cookie asked for or any other as a side effect, is in the vault if it was in that reading; a cookie
      of an identity the reading showed is in the vault if and only if it is the one shown, that is, if
      and only if the site has not replaced it since. */
  lemma DeletedIsSealed(id: Identity, s0: Sys, groupId: Uuid, monitoringOnly: bool, actions: seq<Action>,
                        left: seq<CookieRecord>)
    requires Initial(s0, groupId, monitoringOnly) && Mindful(id, s0, actions)
    requires RunFrom(id, s0, actions).loop.Deleting?
    ensures var s := RunFrom(id, s0, actions);
            var t := Step(id, s, DeleteNow(left));
            && s.loop.record in s.loop.reading && s.loop.record in Sealed(s)
            && (forall c :: c in s.browser && c !in t.browser && c in s.loop.reading ==> c in Sealed(t))
            && (forall c :: c in s.browser && c !in t.browser && HasIdentity(id, s.loop.reading, id(c)) ==>
                  (c in Sealed(t) <==> c in s.loop.reading))
  {
    RunInv(id, s0, groupId, monitoringOnly, actions);
    ReadingIsSealed(id, RunFrom(id, s0, actions));
  }

  lemma ReadingIsSealed(id: Identity, s: Sys)
    requires Inv(id, s) && s.loop.Deleting?
    ensures s.loop.record in Sealed(s)
    ensures forall c :: c in s.loop.reading ==> c in Sealed(s)
    ensures forall c :: HasIdentity(id, s.loop.reading, id(c)) ==> (c in Sealed(s) <==> c in s.loop.reading)
  {
    assert Sealed(s) == s.loop.authorized;
    forall c | HasIdentity(id, s.loop.reading, id(c)) && c in s.loop.authorized
      ensures c in s.loop.reading
    {
      var j :| 0 <= j < |s.loop.reading| && id(s.loop.reading[j]) == id(c);
      SameIdentitySameRecord(id, s.loop.authorized, s.loop.reading[j], c);
    }
  }

  lemma SameIdentitySameRecord(id: Identity, s: seq<CookieRecord>, a: CookieRecord, b: CookieRecord)
    requires Unique(id, s) && a in s && b in s && id(a) == id(b)
    ensures a == b
  {
    var i :| 0 <= i < |s| && s[i] == a;
    var j :| 0 <= j < |s| && s[j] == b;
    assert i == j;
  }

  /** If the browser does not change between the reading and the call, each of its cookies is in the vault
      if and only if the reading shows it. So when no two cookies share an identity the call removes, with
      all its side effects, nothing that is not sealed. */
  lemma UndisturbedDeletion(id: Identity, s0: Sys, groupId: Uuid, monitoringOnly: bool, actions: seq<Action>,
                            current: seq<CookieRecord>, left: seq<CookieRecord>)
    requires Initial(s0, groupId, monitoringOnly) && Mindful(id, s0, actions)
    requires RunFrom(id, s0, actions).loop.Deciding? && IsReading(id, RunFrom(id, s0, actions).browser, current)
    ensures var s := RunFrom(id, s0, actions);
            var t := Step(id, s, Decide(current));
            var n := Step(id, t, DeleteNow(left));
            t.loop.Deleting? ==>
              && t.loop.record in s.browser && t.loop.record in Sealed(n)
              && (forall c :: c in s.browser ==> (c in Sealed(n) <==> c in current))
              && ((forall a, b :: a in s.browser && b in s.browser && id(a) == id(b) ==> a == b) ==>
                    forall c :: c in s.browser && c !in n.browser ==> c in Sealed(n))
  {
    RunInv(id, s0, groupId, monitoringOnly, actions);
    UndisturbedSteps(id, RunFrom(id, s0, actions), current, left);
  }

  lemma UndisturbedSteps(id: Identity, s: Sys, current: seq<CookieRecord>, left: seq<CookieRecord>)
    requires Inv(id, s) && s.loop.Deciding? && IsReading(id, s.browser, current)
    ensures var t := Step(id, s, Decide(current));
            var n := Step(id, t, DeleteNow(left));
            t.loop.Deleting? ==>
              && t.loop.record in s.browser && t.loop.record in Sealed(n)
              && (forall c :: c in s.browser ==> (c in Sealed(n) <==> c in current))
              && ((forall a, b :: a in s.browser && b in s.browser && id(a) == id(b) ==> a == b) ==>
                    forall c :: c in s.browser && c !in n.browser ==> c in Sealed(n))
  {
    UndisturbedFrom(id, s, current);
    var t := Step(id, s, Decide(current));
    assert t == s.(loop := AfterDecision(id, s.loop, current));
    assert Sealed(Step(id, t, DeleteNow(left))) == Sealed(s);
  }

  lemma UndisturbedFrom(id: Identity, s: Sys, current: seq<CookieRecord>)
    requires Inv(id, s) && s.loop.Deciding? && IsReading(id, s.browser, current)
    ensures var t := s.(loop := AfterDecision(id, s.loop, current));
            t.loop.Deleting? ==>
              && t.loop.record in s.browser && t.loop.record in Sealed(s)
              && (forall c :: c in s.browser ==> (c in Sealed(s) <==> c in current))
              && ((forall a, b :: a in s.browser && b in s.browser && id(a) == id(b) ==> a == b) ==>
                    forall c :: c in s.browser ==> c in Sealed(s))
  {
    var t := s.(loop := AfterDecision(id, s.loop, current));
    if t.loop.Deleting? {
      DecideInv(id, s, current);
      ReadingIsSealed(id, t);
      ReadingShowsAllIff(id, s.browser, current);
    }
  }

  /** A report or a restart of the worker forgets the snapshot: until the next prepare no authorisation makes
      the loop delete anything. */
  lemma NothingHeld(id: Identity, s: Sys, m: Message, env: Env, writes: nat, again: seq<nat>)
    requires m.EvictResult? && !s.loop.Idle?
    ensures var f := Step(id, s, Finish(m));
            f.loop.Idle? && Step(id, f, Receive).loop.Idle? && f.toHost == s.toHost + [m]
    ensures var r := Step(id, s, Restart(true, env, writes, again));
            r.loop.Idle? && r.held.None? && r.toHost == [] && r.toExt == []
    ensures forall t: Sys :: t.held.None? && t.loop.Idle? ==> Step(id, t, Receive).loop.Idle?
  {
  }

  // ---------------------------------------------------------------------------------------------
  // Why one outstanding prepare is needed
  // ---------------------------------------------------------------------------------------------

  /** A prepare that does not wait for the answer to the one before. */
  function PrepareAnyway(s: Sys, p: Prepare, read: seq<CookieRecord>): Sys
    requires p.Valid()
  {
    s.(held := Some(read), toHost := s.toHost + Batch(p))
  }

  /** A second prepare before the first authorisation is taken replaces the held snapshot, and the loop
      then works from the second reading. Its list is still what the host compared if and only if it is
      empty or equal to the first; and the loop deletes its first record next, whatever it is, unless that
      is persistent without an expiry. */
  lemma SecondPrepareIff(id: Identity, s: Sys, p: Prepare, read: seq<CookieRecord>)
    requires Inv(id, s) && s.loop.Idle? && s.toExt != [] && s.toExt[0].RemoveAuthorized?
    requires s.held.Some? && s.held.value != []
    requires p.Valid() && IsReading(id, s.browser, read) && Flatten(p.chunks) == read
    ensures var t := Step(id, PrepareAnyway(s, p, read), Receive);
            && t.loop == Deciding(read, 0)
            && (Covered(t.loop.authorized, t.host.disk.vault) <==> read == [] || read == s.held.value)
            && (read != [] ==>
                  Step(id, t, Decide(read)).loop ==
                    if Removable(read[0]) then Deleting(read, 1, read[0], read) else Deciding(read, 1))
            && (forall c :: c in Sealed(t) <==> c in s.held.value)
  {
    assert Answered(s.toExt);
    if read != [] { FirstDecision(id, read); }
  }

  lemma FirstDecision(id: Identity, read: seq<CookieRecord>)
    requires Unique(id, read) && read != []
    ensures NextStep(id, read, 0, read) == (1, Delete(read[0]))
  {
    forall c
      ensures c in read <==> LastOf(id, read, c)
    {
      UniqueLast(id, read, c);
    }
    assert read[0..] == read;
    assert HasIdentity(id, read, id(read[0]));
  }

  /** What needs neither a message nor a restart: the loop's own steps and the browser's. */
  predicate Local(a: Action) { a.BrowserChange? || a.Decide? || a.DeleteNow? }

  predicate AllLocal(actions: seq<Action>) { forall i :: 0 <= i < |actions| ==> Local(actions[i]) }

  /** The loop works from this list. */
  predicate WorksFrom(s: Sys, list: seq<CookieRecord>) {
    && !s.loop.Idle? && s.loop.authorized == list && s.loop.index <= |list|
    && (s.loop.Deleting? ==> s.loop.record in list && Removable(s.loop.record))
  }

  lemma LocalStep(id: Identity, s: Sys, list: seq<CookieRecord>, a: Action)
    requires Unique(id, list) && WorksFrom(s, list) && Local(a)
    ensures WorksFrom(Step(id, s, a), list) && Step(id, s, a).host == s.host
  {
    if a.Decide? && s.loop.Deciding? { DeleteIsExact(id, list, s.loop.index, a.current); }
  }

  lemma {:induction false} LocalRun(id: Identity, s: Sys, list: seq<CookieRecord>, actions: seq<Action>)
    requires Unique(id, list) && WorksFrom(s, list) && AllLocal(actions)
    ensures WorksFrom(RunFrom(id, s, actions), list) && RunFrom(id, s, actions).host == s.host
    decreases |actions|
  {
    if actions != [] {
      LocalRun(id, s, list, actions[..|actions| - 1]);
      LocalStep(id, RunFrom(id, s, actions[..|actions| - 1]), list, actions[|actions| - 1]);
    }
  }

  /** The browser comes down to c alone and the loop decides on it. */
  function SingleOut(c: CookieRecord): seq<Action> { [BrowserChange([c]), Decide([c])] }

  lemma OnlyOne(id: Identity, list: seq<CookieRecord>, c: CookieRecord)
    requires Unique(id, list) && c in list
    ensures IsReading(id, [c], [c])
    ensures NextStep(id, list, 0, [c]).1 == Delete(c)
  {
    forall d
      ensures d in [c] <==> LastOf(id, [c], d)
    {
      UniqueLast(id, [c], d);
    }
    UniqueLast(id, list, c);
    assert list[0..] == list;
    NextStepMeaning(id, list, 0, [c]);
    DeleteIsExact(id, list, 0, [c]);
  }

  lemma SingleOutDeletes(id: Identity, s: Sys, list: seq<CookieRecord>, c: CookieRecord)
    requires s.loop == Deciding(list, 0) && Unique(id, list) && c in list
    ensures AllLocal(SingleOut(c))
    ensures var n := RunFrom(id, s, SingleOut(c));
            (n.loop.Deleting? <==> Removable(c)) && (n.loop.Deleting? ==> n.loop.record == c) && n.host == s.host
  {
    OnlyOne(id, list, c);
    var first, all := BrowserChange([c]), SingleOut(c);
    assert all[..1] == [first] && [first][..0] == [];
    assert RunFrom(id, s, [first]) == s.(browser := [c]);
  }

  /** In every continuation of t without messages, whatever the loop deletes is sealed. */
  ghost predicate DeletesSealed(id: Identity, t: Sys) {
    forall actions :: AllLocal(actions) ==>
      var n := RunFrom(id, t, actions);
      n.loop.Deleting? ==> n.loop.record in Sealed(n)
  }

  /** A second prepare is safe if and only if its reading shows nothing to delete that the first did not. */
  lemma SecondPrepareSafeIff(id: Identity, s: Sys, p: Prepare, read: seq<CookieRecord>)
    requires Inv(id, s) && s.loop.Idle? && s.toExt != [] && s.toExt[0].RemoveAuthorized?
    requires s.held.Some? && s.held.value != []
    requires p.Valid() && IsReading(id, s.browser, read) && Flatten(p.chunks) == read
    ensures DeletesSealed(id, Step(id, PrepareAnyway(s, p, read), Receive)) <==>
              forall c :: c in read && Removable(c) ==> c in s.held.value
  {
    SecondPrepareIff(id, s, p, read);
    var t := Step(id, PrepareAnyway(s, p, read), Receive);
    forall actions | AllLocal(actions)
      ensures WorksFrom(RunFrom(id, t, actions), read) && RunFrom(id, t, actions).host == t.host
    {
      LocalRun(id, t, read, actions);
    }
    forall c | c in read
      ensures AllLocal(SingleOut(c))
      ensures var n := RunFrom(id, t, SingleOut(c));
              (n.loop.Deleting? <==> Removable(c)) && (n.loop.Deleting? ==> n.loop.record == c)
    {
      SingleOutDeletes(id, t, read, c);
    }
    if DeletesSealed(id, t) {
      forall c | c in read && Removable(c)
        ensures c in s.held.value
      {
        assert c in Sealed(RunFrom(id, t, SingleOut(c)));
      }
    }
  }

  /** So a site that adds a cookie between the two prepares loses it: a record the vault does not hold is
      deleted with the host's authorisation. */
  lemma SecondPrepareEscapes(id: Identity, s: Sys, p: Prepare, read: seq<CookieRecord>)
    requires Inv(id, s) && s.loop.Idle? && s.toExt != [] && s.toExt[0].RemoveAuthorized?
    requires s.held.Some? && s.held.value != []
    requires p.Valid() && IsReading(id, s.browser, read) && Flatten(p.chunks) == read
    requires read != [] && read[0] !in s.held.value && Removable(read[0])
    ensures var t := Step(id, Step(id, PrepareAnyway(s, p, read), Receive), Decide(read));
            t.loop.Deleting? && t.loop.record in t.browser && t.loop.record !in Sealed(t)
  {
    SecondPrepareIff(id, s, p, read);
    ReadingShowsAllIff(id, s.browser, read);
  }
}
