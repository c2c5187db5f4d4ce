/** The journal file and its in-memory copy (native-host/src/operation/journal.rs). Writes and reads may
    fail while the process continues; the lemmas say exactly when memory and the readable file agree. */
module JournalStore {
  import opened Base
  import opened JournalModel
  import AF = AtomicFile

  /** The bytes of the journal file: the JSON of a journal, or bytes that do not parse. */
  datatype JournalBytes = Json(journal: Journal) | Garbage(raw: seq<nat>)

  /** What opening the store would load from these contents. */
  function Readable(contents: Option<JournalBytes>, groupId: Uuid): Result<Journal> {
    match contents
    case None => Ok(Empty(groupId))
    case Some(Garbage(_)) => Err(Format)
    case Some(Json(j)) => if JournalModel.Valid(j, groupId) then Ok(j) else Err(Format)
  }

  /** The failures of one persist: of the read before the write, of the write, and of the read that
      settles a write of unknown durability. */
  datatype Faults = Faults(firstReadFails: bool, write: AF.Fault, reReadFails: bool)

  datatype Store = Store(contents: Option<JournalBytes>, stale: bool, journal: Journal)

  /** Memory is what a restart would load. */
  predicate InSync(s: Store, groupId: Uuid) { Readable(s.contents, groupId) == Ok(s.journal) }

  /** Contents, temporary file and memory after a persist, and whether it reports success. */
  function Persisted(s: Store, next: Journal, groupId: Uuid, f: Faults): (Store, bool) {
    if !JournalModel.Valid(next, groupId) || f.firstReadFails then (s, false)
    else
      var (result, contents) := AF.Outcome(s.contents, s.stale, Json(next), true, f.write);
      match result
      case Committed => (Store(contents, false, next), true)
      case NotCommitted => (Store(contents, false, s.journal), false)
      case DurabilityUnknown =>
        match AF.Classified(contents, s.contents, Json(next), f.reReadFails)
        case Ok(Target) => (Store(contents, false, next), true)
        case _ => (Store(contents, false, s.journal), false)
  }

  /** The rename became visible, its sync failed, and so did the read that would have noticed. */
  predicate Unnoticed(s: Store, f: Faults) {
    !f.firstReadFails && !s.stale && f.write.SyncFailed? && f.write.visible && f.reReadFails
  }

  /** Starting in agreement, a persist keeps memory equal to the readable file if and only if the new
      journal was not written unnoticed. */
  lemma InSyncIff(s: Store, next: Journal, groupId: Uuid, f: Faults)
    requires InSync(s, groupId)
    ensures InSync(Persisted(s, next, groupId, f).0, groupId) <==>
              !(Unnoticed(s, f) && JournalModel.Valid(next, groupId) && next != s.journal)
  {
  }

  /** Success means agreement on the new journal, from any state; a failure keeps memory, and the file
      too unless the write went unnoticed. */
  lemma SuccessIsDurable(s: Store, next: Journal, groupId: Uuid, f: Faults)
    ensures var (n, ok) := Persisted(s, next, groupId, f);
            && (ok ==> n.journal == next && n.contents == Some(Json(next)) && InSync(n, groupId))
            && (!ok ==> n.journal == s.journal)
            && (!ok && !(Unnoticed(s, f) && JournalModel.Valid(next, groupId)) ==> n.contents == s.contents)
  {
  }

  /** A persist succeeds if and only if the journal is valid, no temporary file is in the way, the file could
      be read, and the write is durable or is found in the file when it is read again. Every attempt to write
      leaves no temporary file behind. */
  lemma PersistSucceedsIff(s: Store, next: Journal, groupId: Uuid, f: Faults)
    ensures Persisted(s, next, groupId, f).1 <==>
              && JournalModel.Valid(next, groupId) && !f.firstReadFails && !s.stale
              && (f.write.NoFault?
                  || (f.write.SyncFailed? && !f.reReadFails && (f.write.visible || s.contents == Some(Json(next)))))
    ensures var n := Persisted(s, next, groupId, f).0;
            if JournalModel.Valid(next, groupId) && !f.firstReadFails then !n.stale else n == s
  {
  }

  /** The failing input: the first operation of a fresh profile, written with a failed directory sync
      and a failed re-read. The file holds it, memory does not, and the next begin reuses its sequence. */
  lemma UnnoticedFirstBegin(groupId: Uuid, q: Request)
    requires q.Valid() && q.operationId != NIL
    ensures var s := Store(None, false, Empty(groupId));
            var next := JournalModel.Begin(s.journal, q).value.journal;
            var n := Persisted(s, next, groupId, Faults(false, AF.SyncFailed(true), true)).0;
            && InSync(s, groupId) && n.contents == Some(Json(next)) && n.journal == s.journal
            && Readable(n.contents, groupId) == Ok(next) && !InSync(n, groupId)
            && next.highWater == 1 && n.journal.highWater == 0
  {
    BeginKeepsValid(Empty(groupId), groupId, q);
  }

  class JournalStore {
    const file: AF.AtomicFile<JournalBytes>
    const groupId: Uuid
    var journal: Journal

    ghost function State(): Store
      reads this, file
    {
      Store(file.contents, file.temporary.Some?, journal)
    }

    /** The journal in memory is always a valid one. */
    ghost predicate Valid()
      reads this
    {
      JournalModel.Valid(journal, groupId)
    }

    constructor (file: AF.AtomicFile<JournalBytes>, journal: Journal, groupId: Uuid)
      requires Readable(file.contents, groupId) == Ok(journal)
      ensures Valid() && InSync(State(), groupId) && this.file == file && this.groupId == groupId
      ensures this.journal == journal
    {
      this.file, this.journal, this.groupId := file, journal, groupId;
      new;
      assert JournalModel.Valid(Empty(groupId), groupId);
    }

    static method Open(file: AF.AtomicFile<JournalBytes>, groupId: Uuid) returns (r: Result<Journal>)
      ensures r.Ok? <==> Readable(file.contents, groupId).Ok?
      ensures r.Ok? ==> r == Readable(file.contents, groupId)
    {
      var journal := Empty(groupId);
      if file.contents.Some? {
        match file.contents.value
        case Garbage(_) => return Err(Format);
        case Json(j) => journal := j;
      }
      var checked := Validate(journal, groupId);
      if checked.Err? {
        return Err(checked.error);
      }
      return Ok(journal);
    }

    method Persist(next: Journal, f: Faults) returns (r: Result<()>)
      requires Valid()
      modifies this, file
      ensures Valid()
      ensures (State(), r.Ok?) == Persisted(old(State()), next, groupId, f)
      ensures old(InSync(State(), groupId)) ==>
                (InSync(State(), groupId) <==>
                   !(old(Unnoticed(State(), f)) && JournalModel.Valid(next, groupId) && next != old(journal)))
    {
      if InSync(State(), groupId) {
        InSyncIff(State(), next, groupId, f);
      }
      var checked := Validate(next, groupId);
      if checked.Err? {
        return Err(checked.error);
      }
      if f.firstReadFails {
        return Err(Io);
      }
      var previous := file.contents;
      var written := file.WriteVerifiedDurable(Json(next), true, f.write);
      match written
      case Committed =>
        journal := next;
        return Ok(());
      case DurabilityUnknown =>
        var classified := AF.Classified(file.contents, previous, Json(next), f.reReadFails);
        if classified.Err? {
          return Err(classified.error);
        }
        match classified.value {
          case Target =>
            journal := next;
            return Ok(());
          case Previous => return Err(Io);
          case Missing => return Err(Io);
          case Neither => return Err(Format);
        }
      case NotCommitted => return Err(Io);
    }

    method Begin(request: Request, f: Faults) returns (r: Result<BeginEdit>)
      requires Valid()
      modifies this, file
      ensures Valid()
      ensures var edit := JournalModel.Begin(old(journal), request);
              if edit.Err? || edit.value.Duplicate? then r == edit && State() == old(State())
              else
                var (n, ok) := Persisted(old(State()), edit.value.journal, groupId, f);
                State() == n && (r == if ok then edit else Err(Io))
      ensures old(InSync(State(), groupId)) ==>
                (!InSync(State(), groupId) <==>
                   && JournalModel.Begin(old(journal), request).Ok?
                   && JournalModel.Begin(old(journal), request).value.Created? && old(Unnoticed(State(), f)))
    {
      if !request.Valid() {
        return Err(Protocol);
      }
      var fingerprint := Fingerprint(groupId, request);
      if Has(journal, request.operationId) {
        var existing := Get(journal, request.operationId);
        if existing.fingerprint == fingerprint {
          return Ok(Duplicate(existing));
        }
        return Err(Protocol);
      }
      if journal.highWater >= U64_MAX {
        return Err(Format);
      }
      var sequence := journal.highWater + 1;
      var operation := Operation(request.operationId, request.attemptId, sequence, fingerprint, request.kind,
                                 request.leaseId, request.reason, request.baseVaultSequence, NotCommitted, None);
      var next := journal.(highWater := sequence, operations := journal.operations + [operation]);
      BeginKeepsValid(journal, groupId, request);
      var persisted := Persist(next, f);
      if persisted.Err? {
        return Err(Io);
      }
      return Ok(Created(next, operation));
    }

    method BindSnapshot(id: Uuid, binding: Binding, f: Faults) returns (r: Result<()>)
      requires Valid()
      modifies this, file
      ensures Valid()
      ensures var edit := JournalModel.BindSnapshot(old(journal), id, binding);
              if edit.Err? then r == Err(edit.error) && State() == old(State())
              else if edit.value.None? then r.Ok? && State() == old(State())
              else
                var (n, ok) := Persisted(old(State()), edit.value.value, groupId, f);
                State() == n && (r.Ok? <==> ok) && (r.Err? ==> r.error == Io)
      ensures old(InSync(State(), groupId)) ==>
                (!InSync(State(), groupId) <==>
                   && JournalModel.BindSnapshot(old(journal), id, binding).Ok?
                   && JournalModel.BindSnapshot(old(journal), id, binding).value.Some? && old(Unnoticed(State(), f)))
    {
      if !Has(journal, id) {
        return Err(Protocol);
      }
      var k := IndexOf(journal.operations, id);
      var operation := journal.operations[k];
      if operation.phase != NotCommitted && operation.phase != DurabilityUnknown {
        return Err(Protocol);
      }
      if operation.snapshot.Some? {
        if operation.snapshot.value == binding {
          return Ok(());
        }
        return Err(Protocol);
      }
      BindKeepsValid(journal, groupId, id, binding);
      var next := WithOperation(journal, k, operation.(snapshot := Some(binding)));
      assert next.operations[k] != journal.operations[k];
      r := Persist(next, f);
      if r.Err? {
        return Err(Io);
      }
    }

    method Transition(id: Uuid, next: Phase, f: Faults) returns (r: Result<()>)
      requires Valid()
      modifies this, file
      ensures Valid()
      ensures var edit := JournalModel.Transition(old(journal), id, next);
              if edit.Err? then r == Err(edit.error) && State() == old(State())
              else if edit.value.None? then r.Ok? && State() == old(State())
              else
                var (n, ok) := Persisted(old(State()), edit.value.value, groupId, f);
                State() == n && (r.Ok? <==> ok) && (r.Err? ==> r.error == Io)
      ensures old(InSync(State(), groupId)) ==>
                (!InSync(State(), groupId) <==>
                   && JournalModel.Transition(old(journal), id, next).Ok?
                   && JournalModel.Transition(old(journal), id, next).value.Some? && old(Unnoticed(State(), f)))
    {
      if !Has(journal, id) {
        return Err(Protocol);
      }
      var k := IndexOf(journal.operations, id);
      var operation := journal.operations[k];
      if operation.phase == next {
        return Ok(());
      }
      if !operation.phase.CanTransitionTo(next) {
        return Err(Protocol);
      }
      if next == Committed && operation.snapshot.None? {
        return Err(Protocol);
      }
      TransitionKeepsValid(journal, groupId, id, next);
      var edited := WithOperation(journal, k, operation.(phase := next));
      assert edited.operations[k] != journal.operations[k];
      r := Persist(edited, f);
      if r.Err? {
        return Err(Io);
      }
    }
  }
}
