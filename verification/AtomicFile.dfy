/** The write / read back / rename / sync discipline of native-host/src/atomic_file.rs, with every
    point at which it can fail while the process goes on. Equality of digests is equality of the
    digested contents. */
module AtomicFile {
  import opened Base

  datatype DurableWriteResult = NotCommitted | Committed | DurabilityUnknown

  datatype ObjectClassification = Previous | Target | Missing | Neither

  /** Where one write fails. After a failed directory sync the rename may or may not be visible. */
  datatype Fault =
    | NoFault
    | TemporaryFailed
    | ReadBackFailed
    | RenameFailed
    | SyncFailed(visible: bool)

  function ClassifyObject<T(==)>(contents: Option<T>, previous: Option<T>, target: T): ObjectClassification {
    if contents.None? then Missing
    else if contents.value == target then Target
    else if previous == contents then Previous
    else Neither
  }

  /** Classification of the object on disk; the read itself may fail. */
  function Classified<T(==)>(contents: Option<T>, previous: Option<T>, target: T,
                        readFails: bool): Result<ObjectClassification>
  {
    if readFails then Err(Io) else Ok(ClassifyObject(contents, previous, target))
  }

  /** What a write leaves behind: the result, the visible contents, and whether it replaced. */
  function Outcome<T>(contents: Option<T>, staleTemporary: bool, bytes: T, accepted: bool,
                      fault: Fault): (DurableWriteResult, Option<T>)
  {
    if staleTemporary || fault.TemporaryFailed? || fault.ReadBackFailed? || !accepted || fault.RenameFailed? then
      (NotCommitted, contents)
    else
      match fault
      case SyncFailed(visible) => (DurabilityUnknown, if visible then Some(bytes) else contents)
      case _ => (Committed, Some(bytes))
  }

  /** A result of unknown durability is settled by reading the object again, if and only if that read
      succeeds: it is then the target exactly when the target is what a reader sees, otherwise the
      previous object or still missing, never a third one. When the read fails nothing is known: the
      new and the old object are both possible. */
  lemma UnknownIsSettledByDigest<T>(contents: Option<T>, stale: bool, bytes: T, accepted: bool, fault: Fault,
                                    readFails: bool)
    requires Outcome(contents, stale, bytes, accepted, fault).0.DurabilityUnknown?
    ensures var after := Outcome(contents, stale, bytes, accepted, fault).1;
            var c := Classified(after, contents, bytes, readFails);
            && (c.Ok? <==> !readFails)
            && (c.Ok? ==> (c.value.Target? <==> after == Some(bytes)))
            && (c.Ok? && !c.value.Target? ==> after == contents)
            && (c.Ok? && c.value.Missing? ==> contents.None?)
            && (c.Ok? ==> !c.value.Neither?)
            && after == (if fault.visible then Some(bytes) else contents)
  {
  }

  class AtomicFile<T(==)> {
    var contents: Option<T>
    var temporary: Option<T>

    constructor ()
      ensures contents == None && temporary == None
    {
      contents, temporary := None, None;
    }

    /** A crash leaves `temporary` behind; the next write then fails once and removes it. */
    method WriteVerifiedDurable(bytes: T, accepted: bool, fault: Fault) returns (r: DurableWriteResult)
      modifies this
      ensures (r, contents) == old(Outcome(contents, temporary.Some?, bytes, accepted, fault))
      ensures temporary == None
      ensures r.Committed? <==> old(temporary).None? && accepted && fault.NoFault?
      ensures r.DurabilityUnknown? <==> old(temporary).None? && accepted && fault.SyncFailed?
      ensures contents ==
                if r.Committed? || (r.DurabilityUnknown? && fault.visible) then Some(bytes) else old(contents)
    {
      var replaced := false;
      var failed := false;
      if temporary.Some? {
        failed := true;
      } else if fault.TemporaryFailed? {
        failed := true;
      } else {
        temporary := Some(bytes);
        if fault.ReadBackFailed? || !accepted || fault.RenameFailed? {
          failed := true;
        } else {
          var before := contents;
          contents, temporary := temporary, None;
          replaced := true;
          if fault.SyncFailed? {
            failed := true;
            if !fault.visible {
              contents := before;
            }
          }
        }
      }
      if failed && temporary.Some? {
        temporary := None;
      }
      if !failed {
        return Committed;
      }
      r := if replaced then DurabilityUnknown else NotCommitted;
    }
  }
}
