/** The audit logger as it runs: verification, recording, outbox and compaction in place
    (native-host/src/audit.rs). */
module AuditLogger {
  import opened Base
  import opened Audit
  import opened AuditLog
  import AuditRuns

  /** Draining the queue from position i on, the k-th record at time clock(k) and failing as fails(k) says:
      the files, the end of the chain and what could not be recorded. */
  function DrainFrom(f: Files, tail: Point, queue: seq<Queued>, i: nat, remaining: seq<Queued>, clock: nat -> nat,
                     fails: nat -> RecordFault): (Files, Point, seq<Queued>)
    requires i <= |queue|
    decreases |queue| - i
  {
    if i == |queue| then (f, tail, remaining)
    else
      var (f1, tail1, r) := RecordingOnce(f, tail, clock(i), queue[i], fails(i));
      DrainFrom(f1, tail1, queue, i + 1, if r.Err? then remaining + [queue[i]] else remaining, clock, fails)
  }

  /** The queued events without an id, which no record accepts. */
  function NilOnly(queue: seq<Queued>): seq<Queued> {
    if queue == [] then []
    else if queue[0].eventId == NIL then [queue[0]] + NilOnly(queue[1..])
    else NilOnly(queue[1..])
  }

  /** What was logged stays logged. */
  ghost predicate Grows(f: Files, g: Files) { forall id :: HasEvent(Retained(f), id) ==> HasEvent(Retained(g), id) }

  lemma PutKeepsEvents(segs: seq<Segment>, day: nat, e: Entry, id: Uuid)
    requires Whole(segs)
    ensures HasEvent(Entries(Put(segs, day, e)), id) <==> HasEvent(Entries(segs), id) || e.unsigned.eventId == Some(id)
  {
    var a, b := UpTo(segs, day), After(segs, day);
    PutEntries(segs, day, e);
    SplitByDay(segs, day);
    HasEventAppend(a, b, id);
    HasEventAppend(a + [e], b, id);
    HasEventAppend(a, [e], id);
    OneEvent(e, id);
  }

  lemma OneEvent(e: Entry, id: Uuid)
    ensures HasEvent([e], id) <==> e.unsigned.eventId == Some(id)
  {
    assert [e][0] == e;
  }

  /** A record on whole files: they grow, by the event exactly when its line got into a file, and stay
      whole unless the write left part of a line. */
  lemma RecordingLogs(f: Files, tail: Point, now: nat, q: Queued, fault: RecordFault)
    requires Whole(f.segments)
    ensures var g := Recording(f, tail, now, q.body, Some(q.eventId), fault).0;
            && Grows(f, g) && (Appends(fault) ==> HasEvent(Retained(g), q.eventId))
            && (Whole(g.segments) <==> !(fault.WriteFails? && fault.torn)) && g.outbox == f.outbox
  {
    var e := NewEntry(tail, now, q.body, Some(q.eventId));
    if fault.WriteFails? { TouchKeeps(f.segments, Day(now), fault.torn); }
    PutEntries(f.segments, Day(now), e);
    forall id
      ensures Appends(fault) && (HasEvent(Retained(f), id) || id == q.eventId) ==>
                HasEvent(Retained(Recording(f, tail, now, q.body, Some(q.eventId), fault).0), id)
    {
      PutKeepsEvents(f.segments, Day(now), e, id);
    }
  }

  /** The same entries and e, wherever it is. */
  ghost predicate OneMore(before: seq<Entry>, after: seq<Entry>, e: Entry) {
    multiset(after) == multiset(before) + multiset{e}
  }

  lemma InsertedIsOneMore(before: seq<Entry>, after: seq<Entry>, a: seq<Entry>, e: Entry, b: seq<Entry>)
    requires before == a + b && after == a + [e] + b
    ensures OneMore(before, after, e)
  {
  }

  lemma PutIsOneMore(segs: seq<Segment>, day: nat, e: Entry)
    requires Whole(segs)
    ensures OneMore(Entries(segs), Entries(Put(segs, day, e)), e)
  {
    PutEntries(segs, day, e);
    SplitByDay(segs, day);
    InsertedIsOneMore(Entries(segs), Entries(Put(segs, day, e)), UpTo(segs, day), e, After(segs, day));
  }

  lemma PutAtEnd(segs: seq<Segment>, day: nat, e: Entry)
    requires Whole(segs) && After(segs, day) == []
    ensures Entries(Put(segs, day, e)) == Entries(segs) + [e]
  {
    PutEntries(segs, day, e);
    SplitByDay(segs, day);
  }

  /** The line that gets into a readable file is one entry more: with the sequence and the MAC that follow
      the chain's end, and with exactly the time, the body and the event id that were asked for. */
  lemma EntryLands(f: Files, tail: Point, now: nat, body: Body, eventId: Option<Uuid>, fault: RecordFault)
    ensures var u := Unsigned(2, tail.sequence + 1, tail.mac, now, body, eventId);
            var g := Recording(f, tail, now, body, eventId, fault).0;
            && (Appends(fault) && Whole(f.segments) ==> OneMore(Retained(f), Retained(g), Entry(u, MacOf(u))))
            && (Appends(fault) && Whole(f.segments) && After(f.segments, Day(now)) == [] ==>
                  Retained(g) == Retained(f) + [Entry(u, MacOf(u))])
  {
    var u := Unsigned(2, tail.sequence + 1, tail.mac, now, body, eventId);
    assert NewEntry(tail, now, body, eventId) == Entry(u, MacOf(u));
    if Appends(fault) { AppendsPut(f, tail, now, body, eventId, fault); }
    if Whole(f.segments) {
      PutIsOneMore(f.segments, Day(now), Entry(u, MacOf(u)));
      if After(f.segments, Day(now)) == [] { PutAtEnd(f.segments, Day(now), Entry(u, MacOf(u))); }
    }
  }

  lemma AppendsPut(f: Files, tail: Point, now: nat, body: Body, eventId: Option<Uuid>, fault: RecordFault)
    requires Appends(fault)
    ensures Recording(f, tail, now, body, eventId, fault).0.segments ==
              Put(f.segments, Day(now), NewEntry(tail, now, body, eventId))
  {
  }

  /** A failed sync is not noticed by the attempt after it. */
  lemma RetryFinds(f: Files, tail: Point, now: nat, again: nat, q: Queued, second: RecordFault)
    requires q.eventId != NIL && Scan(f.segments, q.eventId) == Ok(false)
    ensures var (g, t, r) := RecordingOnce(f, tail, now, q, SyncFails);
            && r.Err? && t == tail && g == Append(f, tail, now, q.body, Some(q.eventId))
            && RecordingOnce(g, t, again, q, second) == (g, t, Ok(false))
  {
    ScanMeaning(f.segments, q.eventId);
    RecordingLogs(f, tail, now, q, SyncFails);
    ScanMeaning(Append(f, tail, now, q.body, Some(q.eventId)).segments, q.eventId);
  }

  /** A record under an id never loses an event, and reports success only when the event is there. Without
      a failure, on whole files, it fails exactly for the nil id. */
  lemma RecordingOnceLogs(f: Files, tail: Point, now: nat, q: Queued, fault: RecordFault)
    ensures var (g, _, r) := RecordingOnce(f, tail, now, q, fault);
            && Grows(f, g) && g.outbox == f.outbox
            && (r.Ok? ==> q.eventId != NIL && HasEvent(Retained(g), q.eventId))
            && (Whole(f.segments) && fault.NoFault? ==> Whole(g.segments) && (r.Ok? <==> q.eventId != NIL))
  {
    ScanMeaning(f.segments, q.eventId);
    if q.eventId != NIL && Scan(f.segments, q.eventId) == Ok(false) { RecordingLogs(f, tail, now, q, fault); }
  }

  /** Whatever fails, draining loses nothing: every event of the queue is still queued or is in the chain,
      and those without an id are always still queued. */
  lemma {:induction false} DrainKeeps(f: Files, tail: Point, queue: seq<Queued>, i: nat, remaining: seq<Queued>,
                                      clock: nat -> nat, fails: nat -> RecordFault)
    requires i <= |queue|
    ensures var (g, _, left) := DrainFrom(f, tail, queue, i, remaining, clock, fails);
            && Grows(f, g) && g.outbox == f.outbox
            && (forall q :: q in remaining ==> q in left)
            && (forall q :: q in left ==> q in remaining || q in queue[i..])
            && (forall k :: i <= k < |queue| ==> queue[k] in left || HasEvent(Retained(g), queue[k].eventId))
            && (forall k :: i <= k < |queue| && queue[k].eventId == NIL ==> queue[k] in left)
    decreases |queue| - i
  {
    if i < |queue| {
      var (f1, tail1, r) := RecordingOnce(f, tail, clock(i), queue[i], fails(i));
      RecordingOnceLogs(f, tail, clock(i), queue[i], fails(i));
      assert queue[i..] == [queue[i]] + queue[i + 1..];
      DrainKeeps(f1, tail1, queue, i + 1, if r.Err? then remaining + [queue[i]] else remaining, clock, fails);
    }
  }

  /** When nothing fails and no line is torn, draining leaves in the queue exactly the events without an id,
      in order, and every other queued event is in the chain. */
  lemma {:induction false} DrainLeaves(f: Files, tail: Point, queue: seq<Queued>, i: nat, remaining: seq<Queued>,
                                       clock: nat -> nat, fails: nat -> RecordFault)
    requires i <= |queue| && Whole(f.segments) && forall k :: i <= k < |queue| ==> fails(k).NoFault?
    ensures var (g, _, left) := DrainFrom(f, tail, queue, i, remaining, clock, fails);
            && left == remaining + NilOnly(queue[i..])
            && Grows(f, g)
            && forall k :: i <= k < |queue| && queue[k].eventId != NIL ==> HasEvent(Retained(g), queue[k].eventId)
    decreases |queue| - i
  {
    if i < |queue| {
      var (f1, tail1, r) := RecordingOnce(f, tail, clock(i), queue[i], fails(i));
      RecordingOnceLogs(f, tail, clock(i), queue[i], fails(i));
      assert queue[i..][1..] == queue[i + 1..];
      DrainLeaves(f1, tail1, queue, i + 1, if r.Err? then remaining + [queue[i]] else remaining, clock, fails);
    }
  }

  /** The run after k steps that drain what is queued. */
  function Drained(w: AuditRuns.World, k: nat, clock: nat -> nat, fails: nat -> RecordFault): AuditRuns.World {
    if k == 0 then w
    else AuditRuns.Next(Drained(w, k - 1, clock, fails), AuditRuns.DrainOne(clock(k - 1), fails(k - 1)))
  }

  /** One step of the run is one record of the loop. */
  lemma DrainOneShape(w: AuditRuns.World, now: nat, fault: RecordFault)
    requires w.mode.Draining? && w.mode.queue != [] && w.day <= Day(now)
    ensures var q, left := w.mode.queue, w.mode.remaining;
            var (f, tail, r) := RecordingOnce(w.files, w.tail, now, q[0], fault);
            var n := AuditRuns.Next(w, AuditRuns.DrainOne(now, fault));
            && n.files == f && n.tail == tail && n.day <= Day(now)
            && n.mode == AuditRuns.Draining(q[1..], if r.Err? then left + [q[0]] else left)
  {
  }

  /** No day is before the one before it, nor before the given day. */
  predicate Onward(clock: nat -> nat, n: nat, day: nat) {
    && (forall k :: 0 <= k < n ==> day <= Day(clock(k)))
    && (forall k, m :: 0 <= k < m < n ==> Day(clock(k)) <= Day(clock(m)))
  }

  /** After k turns the rest of the queue is still to be drained, and draining it ends as the whole loop. */
  predicate AtTurn(w: AuditRuns.World, m: AuditRuns.World, queue: seq<Queued>, k: nat, clock: nat -> nat,
                   fails: nat -> RecordFault) {
    && k <= |queue| && m.mode.Draining? && m.mode.queue == queue[k..]
    && (if k == 0 then m.day == w.day else m.day <= Day(clock(k - 1)))
    && DrainFrom(m.files, m.tail, queue, k, m.mode.remaining, clock, fails) == DrainedQueue(w, queue, clock, fails)
  }

  function DrainedQueue(w: AuditRuns.World, queue: seq<Queued>, clock: nat -> nat,
                        fails: nat -> RecordFault): (Files, Point, seq<Queued>)
  {
    DrainFrom(w.files, w.tail, queue, 0, if w.mode.Draining? then w.mode.remaining else [], clock, fails)
  }

  lemma TurnTaken(w: AuditRuns.World, m: AuditRuns.World, queue: seq<Queued>, k: nat, clock: nat -> nat,
                  fails: nat -> RecordFault)
    requires k < |queue| && AtTurn(w, m, queue, k, clock, fails) && m.day <= Day(clock(k))
    ensures AtTurn(w, AuditRuns.Next(m, AuditRuns.DrainOne(clock(k), fails(k))), queue, k + 1, clock, fails)
  {
    assert queue[k..][0] == queue[k] && queue[k..][1..] == queue[k + 1..];
    DrainOneShape(m, clock(k), fails(k));
    DrainStep(m, queue, k, AuditRuns.Next(m, AuditRuns.DrainOne(clock(k), fails(k))), clock, fails);
  }

  lemma {:induction false} TurnsTaken(w: AuditRuns.World, queue: seq<Queued>, k: nat, clock: nat -> nat,
                                      fails: nat -> RecordFault)
    requires k <= |queue| && Onward(clock, |queue|, w.day) && AtTurn(w, w, queue, 0, clock, fails)
    ensures AtTurn(w, Drained(w, k, clock, fails), queue, k, clock, fails)
  {
    if k > 0 {
      TurnsTaken(w, queue, k - 1, clock, fails);
      TurnTaken(w, Drained(w, k - 1, clock, fails), queue, k - 1, clock, fails);
    }
  }

  /** The loop is those steps, with every failure: on days that never go back it ends in the files and at
      the chain's end that the run reaches. */
  lemma DrainIsRun(w: AuditRuns.World, queue: seq<Queued>, clock: nat -> nat, fails: nat -> RecordFault)
    requires w.mode.Draining? && w.mode.queue == queue && Onward(clock, |queue|, w.day)
    ensures var (f, tail, left) := DrainFrom(w.files, w.tail, queue, 0, w.mode.remaining, clock, fails);
            var n := AuditRuns.Next(Drained(w, |queue|, clock, fails), AuditRuns.DrainEnd);
            n.mode.Up? && n.files == f.(outbox := left) && n.tail == tail
  {
    assert queue[0..] == queue;
    TurnsTaken(w, queue, |queue|, clock, fails);
    LastTurnDrained(w, Drained(w, |queue|, clock, fails), queue, clock, fails);
  }

  lemma LastTurnDrained(w: AuditRuns.World, m: AuditRuns.World, queue: seq<Queued>, clock: nat -> nat,
                        fails: nat -> RecordFault)
    requires AtTurn(w, m, queue, |queue|, clock, fails)
    ensures var (f, tail, left) := DrainedQueue(w, queue, clock, fails);
            var n := AuditRuns.Next(m, AuditRuns.DrainEnd);
            n.mode.Up? && n.files == f.(outbox := left) && n.tail == tail
  {
  }

  lemma DrainStep(w: AuditRuns.World, queue: seq<Queued>, i: nat, n: AuditRuns.World, clock: nat -> nat,
                  fails: nat -> RecordFault)
    requires i < |queue| && w.mode.Draining? && n.mode.Draining?
    requires var (f, tail, r) := RecordingOnce(w.files, w.tail, clock(i), queue[i], fails(i));
             && n.files == f && n.tail == tail
             && n.mode.remaining == if r.Err? then w.mode.remaining + [queue[i]] else w.mode.remaining
    ensures DrainFrom(w.files, w.tail, queue, i, w.mode.remaining, clock, fails) ==
              DrainFrom(n.files, n.tail, queue, i + 1, n.mode.remaining, clock, fails)
  {
  }

  /** The first k files are those more than 90 days old. */
  predicate OlderThanRetention(segs: seq<Segment>, k: nat, now: nat) {
    && k <= |segs| && (forall i :: 0 <= i < k ==> segs[i].day + 90 < now / 86_400_000)
    && (k < |segs| ==> segs[k].day + 90 >= now / 86_400_000)
  }

  /** They are gone and the checkpoint is their last entry and their last day; refused, with nothing changed,
      exactly if their last file has no entry. */
  predicate Compacted(f: Files, g: Files, k: nat, ok: bool)
    requires k <= |f.segments|
  {
    if k == 0 then ok && g == f
    else
      var last := f.segments[k - 1];
      if last.entries == [] then !ok && g == f
      else ok && g == f.(segments := f.segments[k..],
                         checkpoint := Some(Checkpoint(PointOf(last.entries[|last.entries| - 1]), last.day)))
  }

  /** Compaction removes exactly the files more than 90 days old and keeps their last entry and day as the
      checkpoint. */
  lemma CompactMeaning(f: Files, now: nat)
    ensures var r := Compact(f, now);
            exists k :: OlderThanRetention(f.segments, k, now)
                        && Compacted(f, if r.Ok? then r.value else f, k, r.Ok?)
  {
    var k, r := Expired(f.segments, Cutoff(now)), Compact(f, now);
    assert OlderThanRetention(f.segments, k, now);
    assert Compacted(f, if r.Ok? then r.value else f, k, r.Ok?);
  }

  class Logger {
    var files: Files
    var sequence: nat
    var mac: Mac

    function Tail(): Point reads this { Point(sequence, mac) }

    constructor (f: Files)
      ensures files == f && Tail() == Point(0, ZeroMac)
    {
      files, sequence, mac := f, 0, ZeroMac;
    }

    method RecordInner(now: nat, body: Body, eventId: Option<Uuid>, fault: RecordFault) returns (ok: bool)
      modifies this
      ensures (files, Tail(), ok) == Recording(old(files), old(Tail()), now, body, eventId, fault)
      ensures var u := Unsigned(2, old(sequence) + 1, old(mac), now, body, eventId);
              && (Appends(fault) && Whole(old(files).segments) ==>
                    OneMore(Retained(old(files)), Retained(files), Entry(u, MacOf(u))))
              && (Appends(fault) && Whole(old(files).segments) && After(old(files).segments, Day(now)) == [] ==>
                    Retained(files) == Retained(old(files)) + [Entry(u, MacOf(u))])
              && (Tail() == if fault.NoFault? || fault.AnchorFails? then Point(old(sequence) + 1, MacOf(u))
                            else old(Tail()))
    {
      EntryLands(files, Tail(), now, body, eventId, fault);
      var next := sequence + 1;
      var unsigned := Unsigned(SCHEMA, next, mac, now, body, eventId);
      var signed := MacOf(unsigned);
      if fault.OpenFails? { return false; }
      if fault.WriteFails? {
        files := files.(segments := Touch(files.segments, now / DAY_MS, fault.torn));
        return false;
      }
      files := files.(segments := Put(files.segments, now / DAY_MS, Entry(unsigned, signed)));
      if fault.SyncFails? { return false; }
      sequence, mac := next, signed;
      if !fault.AnchorFails? || fault.replaced { files := files.(anchor := Some(Point(next, signed))); }
      return fault.NoFault?;
    }

    /** Reads file after file; a torn line met first is an error. */
    method Contains(id: Uuid) returns (r: Result<bool>)
      ensures r == Scan(files.segments, id)
    {
      var segs := files.segments;
      for i := 0 to |segs|
        invariant Scan(segs[..i], id) == Ok(false)
      {
        assert segs[..i + 1][..i] == segs[..i];
        var lines := segs[i].entries;
        for j := 0 to |lines|
          invariant forall k :: 0 <= k < j ==> lines[k].unsigned.eventId != Some(id)
        {
          if lines[j].unsigned.eventId == Some(id) {
            ScanStops(segs, i + 1, id);
            return Ok(true);
          }
        }
        if segs[i].torn {
          ScanStops(segs, i + 1, id);
          return Err(Format);
        }
      }
      assert segs[..|segs|] == segs;
      return Ok(false);
    }

    method RecordOnce(now: nat, q: Queued, fault: RecordFault) returns (r: Result<bool>)
      modifies this
      ensures (files, Tail(), r) == RecordingOnce(old(files), old(Tail()), now, q, fault)
      ensures r.Ok? ==> HasEvent(Retained(files), q.eventId)
      ensures var u := Unsigned(2, old(sequence) + 1, old(mac), now, q.body, Some(q.eventId));
              && (r == Ok(true) ==>
                    && !HasEvent(Retained(old(files)), q.eventId)
                    && OneMore(Retained(old(files)), Retained(files), Entry(u, MacOf(u))))
              && (r == Ok(false) ==> files == old(files) && HasEvent(Retained(old(files)), q.eventId))
      ensures Grows(old(files), files)
    {
      ScanMeaning(files.segments, q.eventId);
      RecordingOnceLogs(files, Tail(), now, q, fault);
      if q.eventId == NIL { return Err(Protocol); }
      var found := Contains(q.eventId);
      if found.Err? { return found; }
      if found.value { return Ok(false); }
      var ok := RecordInner(now, q.body, Some(q.eventId), fault);
      return if ok then Ok(true) else Err(Io);
    }

    /** Two attempts, then the outbox. A failed sync is not noticed: the second attempt finds the entry
        in the file and reports success with memory behind the chain. */
    method RecordOnceDeferred(now: nat, again: nat, q: Queued, first: RecordFault, second: RecordFault,
                              queued: WriteOutcome) returns (logged: bool)
      modifies this
      ensures q.eventId != NIL && Scan(old(files).segments, q.eventId) == Ok(false) && first.SyncFails? ==>
                logged && Tail() == old(Tail())
                && files == Append(old(files), old(Tail()), now, q.body, Some(q.eventId))
      ensures logged ==> HasEvent(Retained(files), q.eventId)
      ensures !logged ==>
                (AuditRuns.InOutbox(files.outbox, q.eventId) <==>
                   !queued.FailsBefore? || AuditRuns.InOutbox(old(files).outbox, q.eventId))
      ensures Grows(old(files), files)
    {
      if q.eventId != NIL && Scan(files.segments, q.eventId) == Ok(false) && first.SyncFails? {
        RetryFinds(files, Tail(), now, again, q, second);
      }
      var r := RecordOnce(now, q, first);
      if r.Ok? { return true; }
      r := RecordOnce(again, q, second);
      if r.Ok? { return true; }
      RecordingOnceLogs(old(files), old(Tail()), now, q, first);
      var (f1, t1, _) := RecordingOnce(old(files), old(Tail()), now, q, first);
      RecordingOnceLogs(f1, t1, again, q, second);
      var _ := EnqueueOutbox(q, queued);
      AuditRuns.RemainingGrows(old(files).outbox, q, q.eventId);
      return false;
    }

    method EnqueueOutbox(q: Queued, queued: WriteOutcome) returns (ok: bool)
      modifies this`files
      ensures ok <==> queued.Replaced?
      ensures files == if queued.FailsBefore? then old(files) else Enqueue(old(files), q)
      ensures files.outbox == if queued.FailsBefore? || AuditRuns.InOutbox(old(files).outbox, q.eventId)
                              then old(files).outbox else old(files).outbox + [q]
    {
      var any := false;
      for i := 0 to |files.outbox|
        invariant any <==> exists k :: 0 <= k < i && files.outbox[k].eventId == q.eventId
      {
        if files.outbox[i].eventId == q.eventId { any := true; }
      }
      var entries := if any then files.outbox else files.outbox + [q];
      if queued.FailsBefore? { return false; }
      files := files.(outbox := entries);
      return queued.Replaced?;
    }

    method DrainOutbox(clock: nat -> nat, fails: nat -> RecordFault)
      modifies this
      ensures var (f, tail, left) := DrainFrom(old(files), old(Tail()), old(files).outbox, 0, [], clock, fails);
              files == f.(outbox := left) && Tail() == tail
      ensures forall q :: q in old(files).outbox ==> q in files.outbox || HasEvent(Retained(files), q.eventId)
      ensures forall q :: q in files.outbox ==> q in old(files).outbox
      ensures Grows(old(files), files)
      ensures Whole(old(files).segments) && (forall k :: 0 <= k < |old(files).outbox| ==> fails(k).NoFault?) ==>
                files.outbox == NilOnly(old(files).outbox)
    {
      var queue, remaining := files.outbox, [];
      for i := 0 to |queue|
        invariant DrainFrom(files, Tail(), queue, i, remaining, clock, fails) ==
                    DrainFrom(old(files), old(Tail()), queue, 0, [], clock, fails)
      {
        var r := RecordOnce(clock(i), queue[i], fails(i));
        if r.Err? { remaining := remaining + [queue[i]]; }
      }
      files := files.(outbox := remaining);
      DrainKeeps(old(files), old(Tail()), queue, 0, [], clock, fails);
      assert queue[0..] == queue;
      if Whole(old(files).segments) && forall k :: 0 <= k < |queue| ==> fails(k).NoFault? {
        DrainLeaves(old(files), old(Tail()), queue, 0, [], clock, fails);
      }
    }

    method CountExpired(cutoff: nat) returns (k: nat)
      ensures k == Expired(files.segments, cutoff)
    {
      k := 0;
      while k < |files.segments| && files.segments[k].day < cutoff
        invariant k <= |files.segments| && forall i :: 0 <= i < k ==> files.segments[i].day < cutoff
      {
        k := k + 1;
      }
    }

    method CompactExpired(now: nat) returns (r: Result<()>)
      modifies this`files
      ensures r.Ok? <==> Compact(old(files), now).Ok?
      ensures files == if r.Ok? then Compact(old(files), now).value else old(files)
    {
      var k := CountExpired(if now / DAY_MS < RETENTION_DAYS then 0 else now / DAY_MS - RETENTION_DAYS);
      if k == 0 { return Ok(()); }
      var last := files.segments[k - 1];
      if last.entries == [] { return Err(Format); }
      files := files.(checkpoint := Some(Checkpoint(PointOf(last.entries[|last.entries| - 1]), last.day)));
      RemoveFirst(k);
      return Ok(());
    }

    method RemoveFirst(k: nat)
      requires k <= |files.segments|
      modifies this`files
      ensures files == old(files).(segments := old(files).segments[k..])
    {
      for removed := 0 to k
        invariant files == old(files).(segments := old(files).segments[removed..])
      {
        files := files.(segments := files.segments[1..]);
      }
    }

    method VerifyAndCompact(now: nat) returns (r: Result<()>)
      modifies this
      ensures r.Ok? <==> AuditRuns.Opened(old(files), now).Ok?
      ensures r.Ok? ==> files == AuditRuns.Opened(old(files), now).value && Tail() == AuditLog.Tail(old(files))
    {
      if files.anchor.None? && files.segments != [] { return Err(Format); }
      var verified := VerifyChain(files.segments, files.anchor, files.checkpoint);
      if verified.Err? { return Err(Format); }
      sequence, mac := verified.value.sequence, verified.value.mac;
      if files.anchor != Some(verified.value) { files := files.(anchor := Some(verified.value)); }
      r := CompactExpired(now);
    }

    /** Opening: verification, anchor, compaction and the outbox. */
    method OpenStrict(now: nat, clock: nat -> nat, fails: nat -> RecordFault) returns (r: Result<()>)
      modifies this
      ensures r.Ok? <==> AuditRuns.Opened(old(files), now).Ok?
      ensures r.Ok? ==>
                var f := AuditRuns.Opened(old(files), now).value;
                var (g, tail, left) := DrainFrom(f, AuditLog.Tail(old(files)), f.outbox, 0, [], clock, fails);
                files == g.(outbox := left) && Tail() == tail
      ensures r.Ok? ==> forall q :: q in old(files).outbox ==> q in files.outbox || HasEvent(Retained(files), q.eventId)
    {
      r := VerifyAndCompact(now);
      if r.Ok? { DrainOutbox(clock, fails); }
    }
  }

  /** A yes or an error does not change with the files that follow. */
  lemma {:induction false} ScanStops(segs: seq<Segment>, i: nat, id: Uuid)
    requires i <= |segs| && Scan(segs[..i], id) != Ok(false)
    ensures Scan(segs, id) == Scan(segs[..i], id)
    decreases |segs|
  {
    if i == |segs| {
      assert segs[..i] == segs;
    } else {
      assert segs[..|segs| - 1][..i] == segs[..i];
      ScanStops(segs[..|segs| - 1], i, id);
    }
  }
}
