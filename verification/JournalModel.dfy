/** The operation journal: phases, requests, bindings, and the pure edits that the journal store
    persists (native-host/src/operation/model.rs and the pure part of journal.rs).

    SHA-256 and the keyed snapshot tag are modelled as free constructors over what they digest, so
    equality of two digests is equality of the digested objects (collision freedom). */
module JournalModel {
  import opened Base

  const JOURNAL_VERSION: nat := 1

  /** The bytes of a vault file: an authentic sealed record, or bytes that do not decode. */
  datatype VaultFile =
    | Record(vaultSequence: nat, cookies: seq<CookieRecord>, nonce: nat)
    | Foreign(raw: seq<nat>)

  datatype Digest = Digest(content: VaultFile)

  datatype Tag = Tag(
    profileId: Uuid,
    groupId: Uuid,
    operationId: Uuid,
    operationSequence: nat,
    baseVaultSequence: nat,
    snapshot: seq<CookieRecord>)

  datatype Kind = Enrollment | Eviction | Reconciliation

  datatype Phase =
    | NotCommitted
    | DurabilityUnknown
    | Committed
    | BrowserRemovalPending
    | Completed
    | Aborted
    | ReconciliationRequired
  {
    predicate CanTransitionTo(next: Phase) {
      match this
      case NotCommitted =>
        next.DurabilityUnknown? || next.Committed? || next.Aborted? || next.ReconciliationRequired?
      case DurabilityUnknown => next.NotCommitted? || next.Committed? || next.ReconciliationRequired?
      case Committed => next.BrowserRemovalPending? || next.ReconciliationRequired?
      case BrowserRemovalPending => next.Completed? || next.ReconciliationRequired?
      case _ => false
    }

    predicate IsTerminal() { Completed? || Aborted? || ReconciliationRequired? }

    predicate IsPrecommit() { NotCommitted? || DurabilityUnknown? }

    predicate IsCommitted() { Committed? || BrowserRemovalPending? }
  }

  datatype Request = Request(
    operationId: Uuid,
    attemptId: Option<Uuid>,
    kind: Kind,
    leaseId: Option<Uuid>,
    reason: string,
    baseVaultSequence: nat)
  {
    predicate Valid() {
      && operationId != NIL
      && attemptId != Some(NIL)
      && 0 < |reason| <= 64
      && forall i :: 0 <= i < |reason| ==> 'a' <= reason[i] <= 'z' || '0' <= reason[i] <= '9' || reason[i] == '_'
    }
  }

  datatype Fingerprint = Fingerprint(groupId: Uuid, request: Request)

  datatype Binding = Binding(
    tag: Tag,
    previousDigest: Option<Digest>,
    targetDigest: Digest,
    targetVaultSequence: nat,
    cookieCount: nat)

  datatype Operation = Operation(
    operationId: Uuid,
    attemptId: Option<Uuid>,
    sequence: nat,
    fingerprint: Fingerprint,
    kind: Kind,
    leaseId: Option<Uuid>,
    reason: string,
    baseVaultSequence: nat,
    phase: Phase,
    snapshot: Option<Binding>)
  {
    function AsRequest(): Request {
      Request(operationId, attemptId, kind, leaseId, reason, baseVaultSequence)
    }
  }

  datatype Journal = Journal(version: nat, groupId: Uuid, highWater: nat, operations: seq<Operation>)

  function Empty(groupId: Uuid): Journal { Journal(JOURNAL_VERSION, groupId, 0, []) }

  // ---------------------------------------------------------------------------------------------
  // Validation of a journal read from disk
  // ---------------------------------------------------------------------------------------------

  predicate OperationValid(o: Operation, groupId: Uuid) {
    && o.operationId != NIL
    && o.AsRequest().Valid()
    && o.fingerprint == Fingerprint(groupId, o.AsRequest())
    && (o.phase.IsCommitted() || o.phase.Completed? ==> o.snapshot.Some?)
  }

  predicate OperationsValid(ops: seq<Operation>, highWater: nat, groupId: Uuid) {
    && (forall i :: 0 <= i < |ops| ==> 0 < ops[i].sequence <= highWater && OperationValid(ops[i], groupId))
    && (forall a, b :: 0 <= a < b < |ops| ==> ops[a].sequence < ops[b].sequence)
    && (forall a, b :: 0 <= a < b < |ops| ==> ops[a].operationId != ops[b].operationId)
  }

  function LastSequence(ops: seq<Operation>): nat { if ops == [] then 0 else ops[|ops| - 1].sequence }

  function Ids(ops: seq<Operation>): set<Uuid> { set i | 0 <= i < |ops| :: ops[i].operationId }

  /** What the loader accepts: increasing sequences that end at the high-water mark, distinct ids,
      matching fingerprints, and a snapshot binding wherever a commit is claimed. */
  predicate Valid(j: Journal, groupId: Uuid) {
    && j.version == JOURNAL_VERSION
    && j.groupId == groupId
    && OperationsValid(j.operations, j.highWater, groupId)
    && j.highWater == LastSequence(j.operations)
  }

  lemma OperationsValidStep(ops: seq<Operation>, o: Operation, highWater: nat, groupId: Uuid)
    ensures OperationsValid(ops + [o], highWater, groupId) <==>
              && OperationsValid(ops, highWater, groupId)
              && LastSequence(ops) < o.sequence <= highWater
              && o.operationId !in Ids(ops)
              && OperationValid(o, groupId)
  {
    var all := ops + [o];
    if OperationsValid(all, highWater, groupId) {
      forall i | 0 <= i < |ops|
        ensures ops[i].operationId != o.operationId && ops[i] == all[i]
      {
        assert all[i].operationId != all[|ops|].operationId;
      }
      assert ops != [] ==> all[|ops| - 1].sequence < all[|ops|].sequence;
      assert all[|ops|] == o;
    }
    if OperationsValid(ops, highWater, groupId) && LastSequence(ops) < o.sequence <= highWater &&
       o.operationId !in Ids(ops) && OperationValid(o, groupId) {
      forall a | 0 <= a < |ops|
        ensures all[a].sequence < o.sequence && all[a].operationId != o.operationId
      {
        assert ops[a].operationId in Ids(ops);
        assert a < |ops| - 1 ==> ops[a].sequence < ops[|ops| - 1].sequence;
      }
    }
  }

  lemma InvalidPrefix(j: Journal, groupId: Uuid, n: nat)
    requires n <= |j.operations|
    ensures !OperationsValid(j.operations[..n], j.highWater, groupId) ==> !Valid(j, groupId)
  {
  }

  lemma IdsSnoc(ops: seq<Operation>, o: Operation)
    ensures Ids(ops + [o]) == Ids(ops) + {o.operationId}
  {
    var all := ops + [o];
    assert all[|ops|] == o;
    forall id | id in Ids(ops)
      ensures id in Ids(all)
    {
      var k :| 0 <= k < |ops| && ops[k].operationId == id;
      assert all[k].operationId == id;
    }
  }

  /** An operation that a file may hold: identified, with a short lower-case reason, under the fingerprint of
      what was asked for, and with a snapshot from its commit on. */
  predicate Sound(o: Operation, groupId: Uuid) {
    && o.operationId != 0 && o.attemptId != Some(0) && 1 <= |o.reason| <= 64
    && (forall c :: c in o.reason ==> 'a' <= c <= 'z' || '0' <= c <= '9' || c == '_')
    && o.fingerprint == Fingerprint(groupId, Request(o.operationId, o.attemptId, o.kind, o.leaseId, o.reason,
                                                     o.baseVaultSequence))
    && (o.phase == Committed || o.phase == BrowserRemovalPending || o.phase == Completed ==> o.snapshot.Some?)
  }

  lemma SoundIff(o: Operation, groupId: Uuid)
    ensures Sound(o, groupId) <==> OperationValid(o, groupId)
  {
    if Sound(o, groupId) {
      assert forall i :: 0 <= i < |o.reason| ==> o.reason[i] in o.reason;
    }
    if OperationValid(o, groupId) {
      forall c | c in o.reason
        ensures 'a' <= c <= 'z' || '0' <= c <= '9' || c == '_'
      {
        var i :| 0 <= i < |o.reason| && o.reason[i] == c;
      }
    }
  }

  /** A journal file of this version and group: sound operations in increasing sequence up to the high-water
      mark, no id twice. */
  predicate Loadable(j: Journal, groupId: Uuid) {
    && j.version == 1 && j.groupId == groupId
    && (forall i :: 0 <= i < |j.operations| ==> j.operations[i].sequence > 0 && Sound(j.operations[i], groupId))
    && (forall a, b :: 0 <= a < b < |j.operations| ==>
          j.operations[a].sequence < j.operations[b].sequence
          && j.operations[a].operationId != j.operations[b].operationId)
    && j.highWater == if j.operations == [] then 0 else j.operations[|j.operations| - 1].sequence
  }

  lemma LoadableIff(j: Journal, groupId: Uuid)
    ensures Loadable(j, groupId) <==> Valid(j, groupId)
  {
    forall o
      ensures Sound(o, groupId) <==> OperationValid(o, groupId)
    {
      SoundIff(o, groupId);
    }
    var ops := j.operations;
    if Loadable(j, groupId) && ops != [] {
      assert forall i :: 0 <= i < |ops| - 1 ==> ops[i].sequence < ops[|ops| - 1].sequence;
    }
  }

  /** The loader's loop, with the running previous sequence and the set of ids already seen. */
  method Validate(j: Journal, groupId: Uuid) returns (r: Result<()>)
    ensures r.Ok? <==> Valid(j, groupId)
    ensures r.Ok? <==> Loadable(j, groupId)
    ensures r.Err? ==> r.error == Format || r.error == Protocol
  {
    LoadableIff(j, groupId);
    if j.version != JOURNAL_VERSION || j.groupId != groupId {
      return Err(Format);
    }
    var previous := 0;
    var seen: set<Uuid> := {};
    var ops := j.operations;
    for i := 0 to |ops|
      invariant previous == LastSequence(ops[..i])
      invariant seen == Ids(ops[..i])
      invariant OperationsValid(ops[..i], j.highWater, groupId)
    {
      var o := ops[i];
      assert ops[..i + 1] == ops[..i] + [o];
      OperationsValidStep(ops[..i], o, j.highWater, groupId);
      InvalidPrefix(j, groupId, i + 1);
      IdsSnoc(ops[..i], o);
      if o.sequence <= previous || o.sequence > j.highWater || o.operationId == NIL || o.operationId in seen {
        return Err(Format);
      }
      seen := seen + {o.operationId};
      if !o.AsRequest().Valid() {
        return Err(Protocol);
      }
      if Fingerprint(groupId, o.AsRequest()) != o.fingerprint {
        return Err(Format);
      }
      if (o.phase.IsCommitted() || o.phase.Completed?) && o.snapshot.None? {
        return Err(Format);
      }
      previous := o.sequence;
    }
    assert ops[..|ops|] == ops;
    if previous != j.highWater {
      return Err(Format);
    }
    return Ok(());
  }

  // ---------------------------------------------------------------------------------------------
  // Lookup
  // ---------------------------------------------------------------------------------------------

  /** Index of the first operation with this id, or |ops| when there is none. */
  function IndexOf(ops: seq<Operation>, id: Uuid): (k: nat)
    ensures k <= |ops|
    ensures k < |ops| ==> ops[k].operationId == id
    ensures forall i :: 0 <= i < k ==> ops[i].operationId != id
  {
    if ops == [] then 0
    else if ops[0].operationId == id then 0
    else
      var k := IndexOf(ops[1..], id);
      assert forall i :: 1 <= i < k + 1 ==> ops[i] == ops[1..][i - 1];
      k + 1
  }

  predicate Has(j: Journal, id: Uuid) { IndexOf(j.operations, id) < |j.operations| }

  function Get(j: Journal, id: Uuid): (o: Operation)
    requires Has(j, id)
    ensures o.operationId == id && o in j.operations
  {
    j.operations[IndexOf(j.operations, id)]
  }

  /** Index of the first operation issued for this attempt, or |ops| when there is none. */
  function IndexOfAttempt(ops: seq<Operation>, attempt: Uuid): (k: nat)
    ensures k <= |ops|
    ensures k < |ops| ==> ops[k].attemptId == Some(attempt)
    ensures forall i :: 0 <= i < k ==> ops[i].attemptId != Some(attempt)
  {
    if ops == [] then 0
    else if ops[0].attemptId == Some(attempt) then 0
    else
      var k := IndexOfAttempt(ops[1..], attempt);
      assert forall i :: 1 <= i < k + 1 ==> ops[i] == ops[1..][i - 1];
      k + 1
  }

  predicate HasUnresolved(j: Journal) {
    exists i :: 0 <= i < |j.operations| && !j.operations[i].phase.IsTerminal()
  }

  // ---------------------------------------------------------------------------------------------
  // Edits, as functions from the journal in memory to the journal that is to be persisted
  // ---------------------------------------------------------------------------------------------

  datatype BeginEdit = Created(journal: Journal, operation: Operation) | Duplicate(operation: Operation)

  function Begin(j: Journal, q: Request): Result<BeginEdit> {
    if !q.Valid() then Err(Protocol)
    else if Has(j, q.operationId) then
      if Get(j, q.operationId).fingerprint == Fingerprint(j.groupId, q) then Ok(Duplicate(Get(j, q.operationId)))
      else Err(Protocol)
    else if j.highWater >= U64_MAX then Err(Format)
    else
      var o := Operation(q.operationId, q.attemptId, j.highWater + 1, Fingerprint(j.groupId, q), q.kind,
                         q.leaseId, q.reason, q.baseVaultSequence, NotCommitted, None);
      Ok(Created(j.(highWater := j.highWater + 1, operations := j.operations + [o]), o))
  }

  function WithOperation(j: Journal, k: nat, o: Operation): Journal
    requires k < |j.operations|
  {
    j.(operations := j.operations[k := o])
  }

  /** Binding a snapshot: Ok(None) when the same binding is already durable. */
  function BindSnapshot(j: Journal, id: Uuid, b: Binding): Result<Option<Journal>> {
    if !Has(j, id) then Err(Protocol)
    else
      var k := IndexOf(j.operations, id);
      var o := j.operations[k];
      if !o.phase.IsPrecommit() then Err(Protocol)
      else if o.snapshot.Some? then (if o.snapshot == Some(b) then Ok(None) else Err(Protocol))
      else Ok(Some(WithOperation(j, k, o.(snapshot := Some(b)))))
  }

  /** A phase change: Ok(None) when the operation is already in the requested phase. */
  function Transition(j: Journal, id: Uuid, next: Phase): Result<Option<Journal>> {
    if !Has(j, id) then Err(Protocol)
    else
      var k := IndexOf(j.operations, id);
      var o := j.operations[k];
      if o.phase == next then Ok(None)
      else if !o.phase.CanTransitionTo(next) then Err(Protocol)
      else if next.Committed? && o.snapshot.None? then Err(Protocol)
      else Ok(Some(WithOperation(j, k, o.(phase := next))))
  }

  /** The phases from which each phase is entered. */
  lemma EnteredFrom(p: Phase)
    ensures p.CanTransitionTo(NotCommitted) <==> p == DurabilityUnknown
    ensures p.CanTransitionTo(DurabilityUnknown) <==> p == NotCommitted
    ensures p.CanTransitionTo(Committed) <==> p == NotCommitted || p == DurabilityUnknown
    ensures p.CanTransitionTo(BrowserRemovalPending) <==> p == Committed
    ensures p.CanTransitionTo(Completed) <==> p == BrowserRemovalPending
    ensures p.CanTransitionTo(Aborted) <==> p == NotCommitted
    ensures p.CanTransitionTo(ReconciliationRequired) <==>
              p == NotCommitted || p == DurabilityUnknown || p == Committed || p == BrowserRemovalPending
  {
  }

  /** Each phase follows the one before it. */
  predicate Path(ps: seq<Phase>) { ps != [] && forall i :: 0 <= i < |ps| - 1 ==> ps[i].CanTransitionTo(ps[i + 1]) }

  /** What an operation can still become: anything before its commit; afterwards never aborted and never
      open again; and nothing once it has ended. */
  predicate CanBecome(p: Phase, q: Phase) {
    || p == q || p == NotCommitted || p == DurabilityUnknown
    || (p == Committed && (q == BrowserRemovalPending || q == Completed || q == ReconciliationRequired))
    || (p == BrowserRemovalPending && (q == Completed || q == ReconciliationRequired))
  }

  lemma {:induction false} PathStays(ps: seq<Phase>)
    requires Path(ps)
    ensures CanBecome(ps[0], ps[|ps| - 1])
  {
    if |ps| > 1 {
      PathStays(ps[..|ps| - 1]);
      EnteredFrom(ps[|ps| - 2]);
      assert ps[|ps| - 2].CanTransitionTo(ps[|ps| - 2 + 1]);
    }
  }

  /** A path from the first to the second phase, where there is one. */
  function PathTo(p: Phase, q: Phase): seq<Phase> {
    if p == q then [p]
    else if p == DurabilityUnknown then
      (if q == NotCommitted then [p, q]
       else if q == Aborted then [p, NotCommitted, q]
       else [p] + FromCommitted(q))
    else if p == NotCommitted then
      (if q == DurabilityUnknown || q == Aborted then [p, q] else [p] + FromCommitted(q))
    else if p == Committed then FromCommitted(q)
    else [p, q]
  }

  function FromCommitted(q: Phase): seq<Phase> {
    if q == Committed then [Committed]
    else if q == Completed then [Committed, BrowserRemovalPending, Completed]
    else [Committed, q]
  }

  /** One phase can follow another, over any number of changes, if and only if it is one of those. */
  lemma BecomesIff(p: Phase, q: Phase)
    ensures (exists ps :: Path(ps) && ps[0] == p && ps[|ps| - 1] == q) <==> CanBecome(p, q)
  {
    if CanBecome(p, q) {
      var ps := PathTo(p, q);
      assert Path(ps) && ps[0] == p && ps[|ps| - 1] == q;
    }
    forall ps | Path(ps) && ps[0] == p && ps[|ps| - 1] == q
      ensures CanBecome(p, q)
    {
      PathStays(ps);
    }
  }

  /** A request under a known id is the same operation again exactly if it repeats the first request in all
      its parts; under a new id it becomes one more operation, not committed and without a snapshot. */
  lemma BeginIff(j: Journal, groupId: Uuid, q: Request)
    requires Valid(j, groupId) && q.Valid() && j.highWater < U64_MAX
    ensures Has(j, q.operationId) && Get(j, q.operationId).AsRequest() == q ==>
              Begin(j, q) == Ok(Duplicate(Get(j, q.operationId)))
    ensures Has(j, q.operationId) && Get(j, q.operationId).AsRequest() != q ==> Begin(j, q).Err?
    ensures !Has(j, q.operationId) ==>
              && Begin(j, q).Ok? && Begin(j, q).value.Created?
              && var n, o := Begin(j, q).value.journal, Begin(j, q).value.operation;
                 && n.operations == j.operations + [o] && n.highWater == o.sequence == j.highWater + 1
                 && n.groupId == j.groupId && o.AsRequest() == q && o.phase == NotCommitted && o.snapshot == None
  {
    if Has(j, q.operationId) { assert OperationValid(Get(j, q.operationId), groupId); }
  }

  /** A snapshot is bound exactly once, to an operation before its commit; binding the same one again
      changes nothing, and nothing but the snapshot of that operation ever changes. */
  lemma BindIff(j: Journal, id: Uuid, b: Binding)
    requires Has(j, id)
    ensures var o := Get(j, id);
            && (BindSnapshot(j, id, b).Ok? <==>
                  (o.phase == NotCommitted || o.phase == DurabilityUnknown)
                  && (o.snapshot == None || o.snapshot == Some(b)))
            && (BindSnapshot(j, id, b).Ok? ==>
                  if o.snapshot == Some(b) then BindSnapshot(j, id, b) == Ok(None)
                  else
                    && BindSnapshot(j, id, b).value.Some?
                    && var n := BindSnapshot(j, id, b).value.value;
                       && n == j.(operations := n.operations) && |n.operations| == |j.operations|
                       && (forall i :: 0 <= i < |j.operations| && i != IndexOf(j.operations, id) ==>
                             n.operations[i] == j.operations[i])
                       && n.operations[IndexOf(j.operations, id)] == o.(snapshot := Some(b)))
  {
  }

  /** A phase change that the graph permits touches that operation's phase alone; a commit needs a snapshot. */
  lemma TransitionIff(j: Journal, id: Uuid, next: Phase)
    requires Has(j, id)
    ensures var o := Get(j, id);
            && (Transition(j, id, next).Ok? <==>
                  o.phase == next || (o.phase.CanTransitionTo(next) && (next == Committed ==> o.snapshot.Some?)))
            && (Transition(j, id, next).Ok? ==>
                  if o.phase == next then Transition(j, id, next) == Ok(None)
                  else
                    && Transition(j, id, next).value.Some?
                    && var n := Transition(j, id, next).value.value;
                       && n == j.(operations := n.operations) && |n.operations| == |j.operations|
                       && (forall i :: 0 <= i < |j.operations| && i != IndexOf(j.operations, id) ==>
                             n.operations[i] == j.operations[i])
                       && n.operations[IndexOf(j.operations, id)] == o.(phase := next))
  {
  }

  lemma WithOperationKeepsValid(j: Journal, groupId: Uuid, k: nat, o: Operation)
    requires Valid(j, groupId) && k < |j.operations|
    requires o.sequence == j.operations[k].sequence && o.AsRequest() == j.operations[k].AsRequest()
    requires OperationValid(o, groupId)
    ensures Valid(WithOperation(j, k, o), groupId)
  {
    var ops, n := j.operations, WithOperation(j, k, o).operations;
    forall i | 0 <= i < |ops|
      ensures n[i].sequence == ops[i].sequence && n[i].operationId == ops[i].operationId
    {
      assert o.AsRequest().operationId == o.operationId;
    }
  }

  lemma BeginKeepsValid(j: Journal, groupId: Uuid, q: Request)
    requires Valid(j, groupId) && Begin(j, q).Ok? && Begin(j, q).value.Created?
    ensures Valid(Begin(j, q).value.journal, groupId)
  {
    var o := Begin(j, q).value.operation;
    assert o.AsRequest() == q;
    assert OperationsValid(j.operations, j.highWater + 1, groupId);
    assert o.operationId !in Ids(j.operations);
    OperationsValidStep(j.operations, o, j.highWater + 1, groupId);
    assert LastSequence(j.operations + [o]) == o.sequence;
  }

  lemma BindKeepsValid(j: Journal, groupId: Uuid, id: Uuid, b: Binding)
    requires Valid(j, groupId) && BindSnapshot(j, id, b).Ok? && BindSnapshot(j, id, b).value.Some?
    ensures Valid(BindSnapshot(j, id, b).value.value, groupId)
  {
    var k := IndexOf(j.operations, id);
    var o := j.operations[k];
    assert OperationValid(o, groupId);
    assert o.(snapshot := Some(b)).AsRequest() == o.AsRequest();
    WithOperationKeepsValid(j, groupId, k, o.(snapshot := Some(b)));
  }

  lemma TransitionKeepsValid(j: Journal, groupId: Uuid, id: Uuid, p: Phase)
    requires Valid(j, groupId) && Transition(j, id, p).Ok? && Transition(j, id, p).value.Some?
    ensures Valid(Transition(j, id, p).value.value, groupId)
  {
    var k := IndexOf(j.operations, id);
    var o := j.operations[k];
    assert OperationValid(o, groupId);
    assert o.(phase := p).AsRequest() == o.AsRequest();
    WithOperationKeepsValid(j, groupId, k, o.(phase := p));
  }

  // ---------------------------------------------------------------------------------------------
  // The invariant of journals the coordinator can reach, and how one journal may evolve
  // ---------------------------------------------------------------------------------------------

  predicate SequencesExact(j: Journal) {
    && j.highWater == |j.operations|
    && forall i :: 0 <= i < |j.operations| ==> j.operations[i].sequence == i + 1
  }

  predicate AttemptsDistinct(ops: seq<Operation>) {
    forall a, b :: 0 <= a < b < |ops| && ops[a].attemptId.Some? ==> ops[a].attemptId != ops[b].attemptId
  }

  predicate OnlyLastUnresolved(ops: seq<Operation>) {
    forall i :: 0 <= i < |ops| - 1 ==> ops[i].phase.IsTerminal()
  }

  predicate UnknownIsBound(ops: seq<Operation>) {
    forall i :: 0 <= i < |ops| && ops[i].phase.DurabilityUnknown? ==> ops[i].snapshot.Some?
  }

  predicate WellFormed(j: Journal, groupId: Uuid) {
    && Valid(j, groupId)
    && SequencesExact(j)
    && AttemptsDistinct(j.operations)
    && OnlyLastUnresolved(j.operations)
    && UnknownIsBound(j.operations)
  }

  /** How one operation may change between two moments at which the host rests: its identity and a
      bound snapshot never change, terminal phases are absorbing, and an operation that rests in
      Committed can only be given up. */
  predicate OperationEvolves(o: Operation, n: Operation) {
    && n.AsRequest() == o.AsRequest()
    && n.sequence == o.sequence
    && n.fingerprint == o.fingerprint
    && (o.snapshot.Some? ==> n.snapshot == o.snapshot)
    && (o.phase.IsTerminal() ==> n == o)
    && (o.phase.Committed? ==> n.phase.Committed? || n.phase.ReconciliationRequired?)
    && (o.phase.BrowserRemovalPending? ==>
          n.phase.BrowserRemovalPending? || n.phase.Completed? || n.phase.ReconciliationRequired?)
  }

  predicate Evolves(j: Journal, n: Journal) {
    && n.groupId == j.groupId
    && |j.operations| <= |n.operations|
    && forall i :: 0 <= i < |j.operations| ==> OperationEvolves(j.operations[i], n.operations[i])
  }

  lemma EvolvesTransitive(a: Journal, b: Journal, c: Journal)
    requires Evolves(a, b) && Evolves(b, c)
    ensures Evolves(a, c)
  {
    forall i | 0 <= i < |a.operations|
      ensures OperationEvolves(a.operations[i], c.operations[i])
    {
      assert OperationEvolves(a.operations[i], b.operations[i]) && OperationEvolves(b.operations[i], c.operations[i]);
    }
  }
}
