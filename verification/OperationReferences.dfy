/** The extension's durable references to operations, one for each group, and how they meet the host's
    journal (extension/src/operation-coordinator.ts, native-host/src/dispatcher.rs). */
module OperationReferences {
  import opened Base
  import J = JournalModel
  import S = EngineSpec
  import I = EngineInvariant

  const MAX_SAFE_INTEGER: nat := 9_007_199_254_740_991

  datatype Progress =
    | BeginPending
    | SnapshotRequired
    | Committed
    | RemovalPrecheck
    | RemovalAuthorized
    | Completed
    | ReconciliationRequired

  datatype Reference = Reference(
    groupId: Uuid,
    operationId: Option<Uuid>,
    sequence: Option<nat>,
    leaseId: Option<Uuid>,
    attemptId: Uuid,
    kind: J.Kind,
    phase: Progress)
  {
    predicate Ended() { phase.Completed? || phase.ReconciliationRequired? }

    /** The host has issued it an identity. */
    predicate Issued() { operationId.Some? && sequence.Some? }
  }

  datatype Query = Query(groupId: Uuid, operationId: Uuid, sequence: nat, leaseId: Option<Uuid>)

  /** A host message's binding; the attempt is optional on the wire. */
  datatype Payload = Payload(groupId: Uuid, operationId: Option<Uuid>, sequence: Option<nat>, leaseId: Option<Uuid>,
                             attemptId: Option<Uuid>)

  /** The reference after a begin, or the refusal to replace an issued operation. */
  function Begun(current: Option<Reference>, groupId: Uuid, leaseId: Option<Uuid>, kind: J.Kind,
                 freshAttempt: Uuid): Result<Reference>
  {
    if current.Some? && !current.value.Ended() && current.value.leaseId == leaseId && current.value.kind == kind then
      Ok(current.value)
    else if current.Some? && !current.value.Ended() && !current.value.phase.BeginPending? then Err(Protocol)
    else Ok(Reference(groupId, None, None, leaseId, freshAttempt, kind, BeginPending))
  }

  /** The query that resumes an operation after a restart. */
  function Recovery(active: Option<Reference>): Option<Query> {
    if active.Some? && active.value.Issued() && !active.value.Ended() then
      Some(Query(active.value.groupId, active.value.operationId.value, active.value.sequence.value,
                 active.value.leaseId))
    else None
  }

  class OperationCoordinator {
    var active: map<Uuid, Reference>
    var stored: map<Uuid, Reference>

    /** Every reference is filed under its own group, and until it ends it has a host identity exactly
        when it is past begin_pending. */
    ghost predicate Valid() reads this {
      forall g :: g in active ==>
        active[g].groupId == g && (!active[g].Ended() ==> (active[g].Issued() <==> !active[g].phase.BeginPending?))
    }

    function Current(g: Uuid): Option<Reference> reads this { if g in active then Some(active[g]) else None }

    constructor ()
      ensures Valid() && active == map[] && stored == map[]
    {
      active, stored := map[], map[];
    }

    method Begin(g: Uuid, leaseId: Option<Uuid>, kind: J.Kind, freshAttempt: Uuid) returns (r: Result<Reference>)
      requires Valid()
      modifies this
      ensures Valid()
      ensures r == Begun(old(Current(g)), g, leaseId, kind, freshAttempt)
      ensures var live := g in old(active) && !old(active[g]).phase.Completed?
              && !old(active[g]).phase.ReconciliationRequired?;
              var same := live && old(active[g]).leaseId == leaseId && old(active[g]).kind == kind;
              && (r.Err? <==> live && !same && !old(active[g]).phase.BeginPending?)
              && (same ==> r == Ok(old(active[g])))
              && (r.Ok? && !same ==> r.value == Reference(g, None, None, leaseId, freshAttempt, kind, BeginPending))
      ensures r.Ok? ==> Current(g) == Some(r.value)
      ensures r.Err? ==> active == old(active)
      ensures forall h :: h != g ==> Current(h) == old(Current(h))
      ensures active != old(active) ==> stored == active
    {
      if g in active && !active[g].phase.Completed? && !active[g].phase.ReconciliationRequired? {
        if active[g].leaseId == leaseId && active[g].kind == kind { return Ok(active[g]); }
        if !active[g].phase.BeginPending? { return Err(Protocol); }
      }
      var created := Reference(g, None, None, leaseId, freshAttempt, kind, BeginPending);
      active := active[g := created];
      stored := active;
      return Ok(created);
    }

    /** `wellFormed` is the test of the identifier's text form. */
    method BindIssued(g: Uuid, operationId: Uuid, sequence: nat, leaseId: Option<Uuid>, attemptId: Uuid,
                      wellFormed: Uuid -> bool) returns (r: Result<Reference>)
      requires Valid()
      modifies this
      ensures Valid()
      ensures r.Ok? <==> g in old(active) && old(active[g]).attemptId == attemptId && old(active[g]).leaseId == leaseId
                           && wellFormed(operationId) && 1 <= sequence <= 9_007_199_254_740_991
      ensures r.Ok? ==>
                r.value == old(active[g]).(operationId := Some(operationId), sequence := Some(sequence),
                                           phase := SnapshotRequired)
      ensures active == if r.Ok? then old(active)[g := r.value] else old(active)
      ensures r.Ok? ==> stored == active
    {
      if g !in active { return Err(Protocol); }
      if active[g].attemptId != attemptId || active[g].leaseId != leaseId ||
         !wellFormed(operationId) { return Err(Protocol); }
      if sequence > MAX_SAFE_INTEGER || sequence < 1 { return Err(Protocol); }
      var issued := active[g].(operationId := Some(operationId), sequence := Some(sequence), phase := SnapshotRequired);
      active := active[g := issued];
      stored := active;
      return Ok(issued);
    }

    method AssertBinding(p: Payload) returns (r: Result<Reference>)
      ensures r.Ok? <==>
                && p.groupId in active && p.operationId == active[p.groupId].operationId
                && p.sequence == active[p.groupId].sequence && p.leaseId == active[p.groupId].leaseId
                && (p.attemptId.Some? ==> p.attemptId.value == active[p.groupId].attemptId)
      ensures r.Ok? ==> r.value == active[p.groupId]
    {
      if p.groupId !in active { return Err(Protocol); }
      var a := active[p.groupId];
      if p.operationId != a.operationId || p.sequence != a.sequence { return Err(Protocol); }
      if p.leaseId != a.leaseId || (p.attemptId.Some? && p.attemptId.value != a.attemptId) { return Err(Protocol); }
      return Ok(a);
    }

    method RecoveryQuery(g: Uuid) returns (q: Option<Query>)
      requires Valid()
      ensures q == Recovery(Current(g))
      ensures q.Some? <==> g in active && !active[g].phase.BeginPending? && !active[g].Ended()
      ensures q.Some? ==>
                && q.value.groupId == g && Some(q.value.operationId) == active[g].operationId
                && Some(q.value.sequence) == active[g].sequence && q.value.leaseId == active[g].leaseId
    {
      if g !in active { return None; }
      var a := active[g];
      if a.phase.Completed? || a.phase.ReconciliationRequired? { return None; }
      if a.operationId.None? || a.sequence.None? { return None; }
      return Some(Query(a.groupId, a.operationId.value, a.sequence.value, a.leaseId));
    }

    /** Any phase is accepted for any reference, so whether the references stay in order is up to the
        caller: exactly when the phase is an end, or is past begin_pending for a reference the host has
        issued and begin_pending for one it has not. */
    method SetPhase(g: Uuid, phase: Progress) returns (ok: bool)
      requires Valid()
      modifies this
      ensures ok <==> g in old(active)
      ensures Valid() <==>
                g in old(active) ==>
                  phase.Completed? || phase.ReconciliationRequired?
                  || (old(active[g]).Issued() <==> !phase.BeginPending?)
      ensures active == if ok then old(active)[g := old(active)[g].(phase := phase)] else old(active)
      ensures ok ==> stored == active
    {
      if g !in active { return false; }
      ghost var before := active;
      active := active[g := active[g].(phase := phase)];
      stored := active;
      assert forall h :: h in active && h != g ==> active[h] == before[h];
      assert active[g] == before[g].(phase := phase);
      return true;
    }

    method Complete(g: Uuid) returns (ok: bool)
      requires Valid()
      modifies this
      ensures Valid() && (ok <==> g in old(active)) && active == old(active) - {g}
    {
      ok := g in active;
      active := active - {g};
      if ok { stored := active; }
    }
  }

  // ---------------------------------------------------------------------------------------------
  // Steps of one reference
  // ---------------------------------------------------------------------------------------------

  datatype Move =
    | DoBegin(leaseId: Option<Uuid>, kind: J.Kind, freshAttempt: Uuid)
    | DoBind(operationId: Uuid, sequence: nat, bindLeaseId: Option<Uuid>, attemptId: Uuid)
    | DoPhase(phase: Progress)

  function Moved(r: Reference, m: Move): Reference {
    match m
    case DoBegin(leaseId, kind, freshAttempt) =>
      var b := Begun(Some(r), r.groupId, leaseId, kind, freshAttempt);
      if b.Ok? then b.value else r
    case DoBind(operationId, sequence, leaseId, attemptId) =>
      if r.attemptId != attemptId || r.leaseId != leaseId then r
      else r.(operationId := Some(operationId), sequence := Some(sequence), phase := SnapshotRequired)
    case DoPhase(phase) => r.(phase := phase)
  }

  function MovedAll(r: Reference, ms: seq<Move>): Reference {
    if ms == [] then r else Moved(MovedAll(r, ms[..|ms| - 1]), ms[|ms| - 1])
  }

  /** A phase that only a begin or the end of an operation sets. */
  predicate Outside(p: Progress) { p.BeginPending? || p.Completed? || p.ReconciliationRequired? }

  /** The extension moves a bound reference only forward. */
  predicate Forward(ms: seq<Move>) { forall i :: 0 <= i < |ms| ==> !(ms[i].DoPhase? && Outside(ms[i].phase)) }

  /** Once the host has issued an operation, no trigger replaces it: until it ends, every begin
      returns it or is refused, and its attempt, lease and kind stay. */
  lemma {:induction false} IssuedIsNeverReplaced(r: Reference, ms: seq<Move>)
    requires r.Issued() && !r.Ended() && !r.phase.BeginPending? && Forward(ms)
    ensures var n := MovedAll(r, ms);
            n.Issued() && !n.Ended() && !n.phase.BeginPending? && n.attemptId == r.attemptId && n.leaseId == r.leaseId
            && n.kind == r.kind && n.groupId == r.groupId
  {
    if ms != [] {
      assert Forward(ms[..|ms| - 1]);
      IssuedIsNeverReplaced(r, ms[..|ms| - 1]);
      assert !(ms[|ms| - 1].DoPhase? && Outside(ms[|ms| - 1].phase));
    }
  }

  // ---------------------------------------------------------------------------------------------
  // Meeting the host
  // ---------------------------------------------------------------------------------------------

  /** The host's journal knows the operation under exactly these names. */
  predicate Known(j: J.Journal, id: Uuid, sequence: nat, leaseId: Option<Uuid>) {
    exists i :: 0 <= i < |j.operations| && Named(j.operations[i], id, sequence, leaseId)
  }

  predicate Named(o: J.Operation, id: Uuid, sequence: nat, leaseId: Option<Uuid>) {
    o.operationId == id && o.sequence == sequence && o.leaseId == leaseId
  }

  lemma KnownIsFound(j: J.Journal, groupId: Uuid, id: Uuid, sequence: nat, leaseId: Option<Uuid>)
    requires J.WellFormed(j, groupId) && Known(j, id, sequence, leaseId)
    ensures J.Has(j, id) && J.Get(j, id).sequence == sequence && J.Get(j, id).leaseId == leaseId
  {
    var i :| 0 <= i < |j.operations| && Named(j.operations[i], id, sequence, leaseId);
    var k := J.IndexOf(j.operations, id);
    assert J.OperationsValid(j.operations, j.highWater, groupId);
    assert k <= i;
  }

  lemma KnownStays(j: J.Journal, n: J.Journal, id: Uuid, sequence: nat, leaseId: Option<Uuid>)
    requires J.Evolves(j, n) && Known(j, id, sequence, leaseId)
    ensures Known(n, id, sequence, leaseId)
  {
    var i :| 0 <= i < |j.operations| && Named(j.operations[i], id, sequence, leaseId);
    assert J.OperationEvolves(j.operations[i], n.operations[i]);
    assert j.operations[i].AsRequest() == n.operations[i].AsRequest();
    assert j.operations[i].AsRequest().operationId == id && j.operations[i].AsRequest().leaseId == leaseId;
  }

  lemma AnsweredBeginIsKnown(st: S.St, attempt: Uuid, kind: J.Kind, leaseId: Option<Uuid>, reason: string, env: S.Env)
    requires I.HostInv(st)
    ensures var (n, r) := S.HandleOperationBegin(st, attempt, kind, leaseId, reason, env);
            r.Ok? && r.value[0].SnapshotRequired? ==>
              && r.value[0].attemptId == Some(attempt) && r.value[0].snapshotLeaseId == leaseId
              && Known(n.journal, r.value[0].operationId, r.value[0].operationSequence, leaseId)
  {
    var k := J.IndexOfAttempt(st.journal.operations, attempt);
    if attempt != NIL && k == |st.journal.operations| {
      var q := J.Request(env.freshOperationId, Some(attempt), kind, leaseId, reason, st.lease.vaultSequence);
      var n := S.IssueV7(st, q).0;
      if S.IssueV7(st, q).1.Ok? {
        var j := n.journal;
        assert j.operations[|j.operations| - 1] == S.IssueV7(st, q).1.value;
      }
    }
  }

  lemma KnownIsAnswered(st: S.St, id: Uuid, sequence: nat, leaseId: Option<Uuid>)
    requires J.WellFormed(st.journal, st.groupId) && Known(st.journal, id, sequence, leaseId)
    ensures S.HandleOperationStatus(st, id, sequence, leaseId).1.Ok?
  {
    KnownIsFound(st.journal, st.groupId, id, sequence, leaseId);
  }

  /** The reference once the host's answer to its begin is bound. */
  function BoundBy(r: Reference, reply: S.Reply): Reference
    requires reply.SnapshotRequired? && reply.attemptId.Some?
  {
    Moved(r, DoBind(reply.operationId, reply.operationSequence, reply.snapshotLeaseId, reply.attemptId.value))
  }

  lemma BoundQuery(r: Reference, reply: S.Reply)
    requires reply.SnapshotRequired? && reply.attemptId == Some(r.attemptId) && reply.snapshotLeaseId == r.leaseId
    ensures Recovery(Some(BoundBy(r, reply))) ==
              Some(Query(r.groupId, reply.operationId, reply.operationSequence, r.leaseId))
  {
  }

  /** A reference bound from the host's answer to a begin resumes the operation at every later time:
      the host never refuses its recovery query, whatever happened to the journal in between. */
  lemma RecoveryQueryIsAnswered(st: S.St, r: Reference, reason: string, env: S.Env, n: S.St, reply: S.Reply,
                                later: S.St)
    requires I.HostInv(st) && J.WellFormed(later.journal, later.groupId) && J.Evolves(n.journal, later.journal)
    requires S.HandleOperationBegin(st, r.attemptId, r.kind, r.leaseId, reason, env) == (n, Ok([reply]))
    requires reply.SnapshotRequired?
    ensures reply.attemptId.Some? && Recovery(Some(BoundBy(r, reply))).Some?
    ensures var q := Recovery(Some(BoundBy(r, reply))).value;
            S.HandleOperationStatus(later, q.operationId, q.sequence, q.leaseId).1.Ok?
  {
    AnsweredBeginIsKnown(st, r.attemptId, r.kind, r.leaseId, reason, env);
    assert [reply][0] == reply;
    BoundQuery(r, reply);
    KnownStays(n.journal, later.journal, reply.operationId, reply.operationSequence, r.leaseId);
    KnownIsAnswered(later, reply.operationId, reply.operationSequence, r.leaseId);
  }
}
