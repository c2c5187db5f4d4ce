/** Whole runs of the audit log: records, queued events, compactions and crashes, with every failure of a
    record, on days that never go back (native-host/src/audit.rs). A crash inside a record is that record
    with its failure, followed by a crash. */
module AuditRuns {
  import opened Base
  import opened Audit
  import opened AuditLog

  datatype Mode = Down | Draining(queue: seq<Queued>, remaining: seq<Queued>) | Up

  /** The files, the logger's state in memory, and for the statements below: the last entry whose line got
      into a file, every archived entry, and every event id that was ever queued. */
  datatype World = World(files: Files, mode: Mode, tail: Point, day: nat, last: Point, archived: seq<Entry>,
                         queuedEver: set<Uuid>)

  datatype Step =
    | Open(now: nat)
    | OpenThenCrash
    | DrainOne(now: nat, fault: RecordFault)
    | DrainEnd
    | Log(now: nat, body: Body, fault: RecordFault)
    | LogOnce(now: nat, once: Queued, fault: RecordFault)
    | QueueEvent(queued: Queued)
    | Crash

  function Fresh(): World { World(Files([], None, None, []), Down, Point(0, ZeroMac), 0, Point(0, ZeroMac), [], {}) }

  /** What opening demands before it compacts. */
  predicate Verifies(f: Files) { (f.anchor.None? ==> f.segments == []) && Acceptable(f) }

  /** Verification, the anchor and the compaction of open_strict. */
  function Opened(f: Files, now: nat): Result<Files> {
    if !Verifies(f) then Err(Format) else Compact(f.(anchor := Some(Tail(f))), now)
  }

  function Logged(w: World, now: nat, body: Body, eventId: Option<Uuid>, fault: RecordFault): World {
    var (f, p, _) := Recording(w.files, w.tail, now, body, eventId, fault);
    w.(files := f, tail := p, day := Day(now),
       last := if Appends(fault) then PointOf(NewEntry(w.tail, now, body, eventId)) else w.last)
  }

  /** The event is new, and the files could be read to the end to see it. */
  predicate New(f: Files, q: Queued) { q.eventId != NIL && Scan(f.segments, q.eventId) == Ok(false) }

  function LoggedOnce(w: World, now: nat, q: Queued, fault: RecordFault): World {
    if New(w.files, q) then Logged(w, now, q.body, Some(q.eventId), fault) else w
  }

  function Next(w: World, s: Step): World {
    match s
    case Open(now) =>
      if !w.mode.Down? || Day(now) < w.day then w
      else
        var r := Opened(w.files, now);
        if r.Err? then w
        else
          var k := Expired(w.files.segments, Cutoff(now));
          w.(files := r.value, mode := Draining(r.value.outbox, []), tail := Tail(w.files), day := Day(now),
             archived := w.archived + Entries(w.files.segments[..k]))
    case OpenThenCrash =>
      if !w.mode.Down? || !Verifies(w.files) then w else w.(files := w.files.(anchor := Some(Tail(w.files))))
    case DrainOne(now, fault) =>
      if !w.mode.Draining? || w.mode.queue == [] || Day(now) < w.day then w
      else
        var q := w.mode.queue[0];
        var failed := RecordingOnce(w.files, w.tail, now, q, fault).2.Err?;
        var left := if failed then w.mode.remaining + [q] else w.mode.remaining;
        LoggedOnce(w, now, q, fault).(mode := Draining(w.mode.queue[1..], left))
    case DrainEnd =>
      if !w.mode.Draining? || w.mode.queue != [] then w
      else w.(files := w.files.(outbox := w.mode.remaining), mode := Up)
    case Log(now, body, fault) => if !w.mode.Up? || Day(now) < w.day then w else Logged(w, now, body, None, fault)
    case LogOnce(now, q, fault) => if !w.mode.Up? || Day(now) < w.day then w else LoggedOnce(w, now, q, fault)
    case QueueEvent(q) =>
      if !w.mode.Up? then w else w.(files := Enqueue(w.files, q), queuedEver := w.queuedEver + {q.eventId})
    case Crash => w.(mode := Down)
  }

  function Run(steps: seq<Step>): World {
    if steps == [] then Fresh() else Next(Run(steps[..|steps| - 1]), steps[|steps| - 1])
  }

  // ---------------------------------------------------------------------------------------------
  // The invariant
  // ---------------------------------------------------------------------------------------------

  /** No event id occurs twice. */
  predicate Distinct(s: seq<Entry>) {
    forall i, j :: 0 <= i < j < |s| && s[i].unsigned.eventId.Some? ==> s[i].unsigned.eventId != s[j].unsigned.eventId
  }

  predicate SegmentsInv(segs: seq<Segment>, day: nat) {
    && Sorted(segs)
    && forall i :: 0 <= i < |segs| ==> segs[i].day <= day
  }

  /** Every line is whole and follows the one before it. */
  predicate Sound(f: Files) { Whole(f.segments) && Chain(Retained(f), Start(f.checkpoint)) }

  predicate FilesInv(f: Files, day: nat) {
    && SegmentsInv(f.segments, day)
    && (f.anchor.None? ==> f.segments == [])
    && Distinct(Retained(f))
    && (Sound(f) ==> Acceptable(f))
  }

  predicate InOutbox(outbox: seq<Queued>, id: Uuid) { exists i :: 0 <= i < |outbox| && outbox[i].eventId == id }

  /** The event is in the retained chain or in the archive. */
  predicate WasLogged(w: World, id: Uuid) { HasEvent(w.archived + Retained(w.files), id) }

  /** Every queued event is queued still or was logged. */
  predicate Delivered(w: World) {
    forall id :: id in w.queuedEver ==> InOutbox(w.files.outbox, id) || WasLogged(w, id)
  }

  ghost predicate DrainInv(w: World) {
    w.mode.Draining? ==>
      forall id :: InOutbox(w.files.outbox, id) ==>
        InOutbox(w.mode.queue, id) || InOutbox(w.mode.remaining, id) || WasLogged(w, id)
  }

  /** Memory is at the end of the chain, or behind it after a failed sync. */
  predicate MemoryInv(w: World) {
    Sound(w.files) ==>
      && w.last == Tail(w.files)
      && (!w.mode.Down? ==> w.tail == w.last || w.tail.sequence < w.last.sequence)
  }

  ghost predicate Inv(w: World) {
    && FilesInv(w.files, w.day)
    && (!w.mode.Down? ==> w.files.anchor.Some?)
    && MemoryInv(w) && Delivered(w) && DrainInv(w)
  }

  // ---------------------------------------------------------------------------------------------
  // A record
  // ---------------------------------------------------------------------------------------------

  lemma {:induction false} NothingAfter(segs: seq<Segment>, day: nat)
    requires forall i :: 0 <= i < |segs| ==> segs[i].day <= day
    ensures After(segs, day) == []
  {
  }

  lemma PutInv(segs: seq<Segment>, day: nat, later: nat, e: Entry)
    requires SegmentsInv(segs, day) && day <= later
    ensures SegmentsInv(Put(segs, later, e), later)
  {
    PutSorted(segs, later, e, later + 1);
  }

  lemma TouchInv(segs: seq<Segment>, day: nat, later: nat, torn: bool)
    requires SegmentsInv(segs, day) && day <= later
    ensures SegmentsInv(Touch(segs, later, torn), later)
  {
    TouchSorted(segs, later, torn, later + 1);
  }

  lemma DistinctSnoc(s: seq<Entry>, e: Entry)
    requires Distinct(s) && (e.unsigned.eventId.Some? ==> !HasEvent(s, e.unsigned.eventId.value))
    ensures Distinct(s + [e])
  {
  }

  /** What a record does to the files, whatever they are and wherever it fails. */
  lemma RecordingShape(f: Files, day: nat, tail: Point, now: nat, body: Body, eventId: Option<Uuid>, fault: RecordFault)
    requires SegmentsInv(f.segments, day) && day <= Day(now)
    ensures var e, g := NewEntry(tail, now, body, eventId), Recording(f, tail, now, body, eventId, fault).0;
            && SegmentsInv(g.segments, Day(now)) && g.outbox == f.outbox && g.checkpoint == f.checkpoint
            && (f.anchor.Some? ==> g.anchor.Some?)
            && (Retained(g) == Retained(f) || Retained(g) == Retained(f) + [e])
            && (Whole(g.segments) <==> Whole(f.segments) && !(fault.WriteFails? && fault.torn))
            && (Whole(f.segments) && Appends(fault) ==> Retained(g) == Retained(f) + [e])
            && (!Appends(fault) ==> Retained(g) == Retained(f))
  {
    var e := NewEntry(tail, now, body, eventId);
    assert f.segments == [] || f.segments[|f.segments| - 1].day <= Day(now);
    PutLast(f.segments, Day(now), e);
    PutInv(f.segments, day, Day(now), e);
    if TornEnd(f.segments, Day(now)) { assert f.segments[|f.segments| - 1].torn; }
    if fault.WriteFails? {
      TouchKeeps(f.segments, Day(now), fault.torn);
      TouchInv(f.segments, day, Day(now), fault.torn);
    }
  }

  /** A record on a sound log: the log is sound afterwards if and only if the write left no torn line and
      no whole line was written with memory behind the chain. */
  lemma SoundIff(f: Files, day: nat, tail: Point, now: nat, body: Body, eventId: Option<Uuid>, fault: RecordFault)
    requires FilesInv(f, day) && Sound(f) && day <= Day(now)
    requires tail == Tail(f) || tail.sequence < Tail(f).sequence
    ensures var (g, p, _) := Recording(f, tail, now, body, eventId, fault);
            && (Sound(g) <==> !(fault.WriteFails? && fault.torn) && !(Appends(fault) && tail != Tail(f)))
            && (Sound(g) ==> Acceptable(g))
            && (Sound(g) ==> Tail(g) == if Appends(fault) then PointOf(NewEntry(tail, now, body, eventId)) else Tail(f))
            && (Sound(g) ==> p == Tail(g) || p.sequence < Tail(g).sequence)
  {
    NothingAfter(f.segments, Day(now));
    RecordingShape(f, day, tail, now, body, eventId, fault);
    if tail == Tail(f) {
      InStepIff(f, now, body, eventId, fault);
      AppendVerifiesIff(f, now, body, eventId);
    } else if Appends(fault) {
      StaleRecordBreaksChain(f, tail, now, body, eventId, fault);
    }
  }

  /** A broken log never heals by recording. */
  lemma BrokenStays(f: Files, day: nat, tail: Point, now: nat, body: Body, eventId: Option<Uuid>, fault: RecordFault)
    requires SegmentsInv(f.segments, day) && day <= Day(now) && !Sound(f)
    ensures !Sound(Recording(f, tail, now, body, eventId, fault).0)
  {
    RecordingShape(f, day, tail, now, body, eventId, fault);
    ChainSnoc(Retained(f), Start(f.checkpoint), NewEntry(tail, now, body, eventId));
  }

  lemma RecordingInv(f: Files, day: nat, tail: Point, now: nat, body: Body, eventId: Option<Uuid>, fault: RecordFault)
    requires FilesInv(f, day) && f.anchor.Some? && day <= Day(now)
    requires eventId.Some? ==> !HasEvent(Retained(f), eventId.value)
    requires Sound(f) ==> tail == Tail(f) || tail.sequence < Tail(f).sequence
    ensures FilesInv(Recording(f, tail, now, body, eventId, fault).0, Day(now))
  {
    RecordingShape(f, day, tail, now, body, eventId, fault);
    DistinctSnoc(Retained(f), NewEntry(tail, now, body, eventId));
    if Sound(f) {
      SoundIff(f, day, tail, now, body, eventId, fault);
    } else {
      BrokenStays(f, day, tail, now, body, eventId, fault);
    }
  }

  /** What was logged stays logged, in the retained part or in the archive. */
  ghost predicate HistoryGrows(w: World, n: World) {
    forall id :: WasLogged(w, id) ==> WasLogged(n, id)
  }

  lemma LoggedGrows(w: World, now: nat, body: Body, eventId: Option<Uuid>, fault: RecordFault)
    requires SegmentsInv(w.files.segments, w.day) && w.day <= Day(now)
    ensures var n := Logged(w, now, body, eventId, fault);
            && HistoryGrows(w, n)
            && (eventId.Some? && Whole(w.files.segments) && Appends(fault) ==>
                  HasEvent(Retained(n.files), eventId.value))
  {
    var n, e := Logged(w, now, body, eventId, fault), NewEntry(w.tail, now, body, eventId);
    RecordingShape(w.files, w.day, w.tail, now, body, eventId, fault);
    if Retained(n.files) == Retained(w.files) + [e] {
      assert n.archived + Retained(n.files) == (w.archived + Retained(w.files)) + [e];
      assert Retained(n.files)[|Retained(w.files)|] == e;
    }
    forall id | WasLogged(w, id)
      ensures WasLogged(n, id)
    {
      HasEventAppend(w.archived + Retained(w.files), [e], id);
    }
  }

  lemma LoggedMemory(w: World, now: nat, body: Body, eventId: Option<Uuid>, fault: RecordFault)
    requires FilesInv(w.files, w.day) && MemoryInv(w) && !w.mode.Down? && w.day <= Day(now)
    ensures MemoryInv(Logged(w, now, body, eventId, fault))
  {
    if Sound(w.files) {
      SoundIff(w.files, w.day, w.tail, now, body, eventId, fault);
    } else {
      BrokenStays(w.files, w.day, w.tail, now, body, eventId, fault);
    }
  }

  lemma LoggedInv(w: World, now: nat, body: Body, eventId: Option<Uuid>, fault: RecordFault)
    requires Inv(w) && !w.mode.Down? && w.day <= Day(now)
    requires eventId.Some? ==> !HasEvent(Retained(w.files), eventId.value)
    ensures Inv(Logged(w, now, body, eventId, fault)) && HistoryGrows(w, Logged(w, now, body, eventId, fault))
  {
    RecordingShape(w.files, w.day, w.tail, now, body, eventId, fault);
    RecordingInv(w.files, w.day, w.tail, now, body, eventId, fault);
    LoggedMemory(w, now, body, eventId, fault);
    LoggedGrows(w, now, body, eventId, fault);
  }

  lemma LoggedOnceInv(w: World, now: nat, q: Queued, fault: RecordFault)
    requires Inv(w) && !w.mode.Down? && w.day <= Day(now)
    ensures var n := LoggedOnce(w, now, q, fault);
            && Inv(n) && HistoryGrows(w, n) && n.mode == w.mode && n.files.outbox == w.files.outbox
            && (RecordingOnce(w.files, w.tail, now, q, fault).2.Ok? ==> HasEvent(Retained(n.files), q.eventId))
  {
    ScanMeaning(w.files.segments, q.eventId);
    if New(w.files, q) {
      LoggedInv(w, now, q.body, Some(q.eventId), fault);
      LoggedGrows(w, now, q.body, Some(q.eventId), fault);
      RecordingShape(w.files, w.day, w.tail, now, q.body, Some(q.eventId), fault);
    }
  }

  // ---------------------------------------------------------------------------------------------
  // The outbox
  // ---------------------------------------------------------------------------------------------

  lemma DrainOneInv(w: World, now: nat, fault: RecordFault)
    requires Inv(w) && w.mode.Draining? && w.mode.queue != [] && w.day <= Day(now)
    ensures Inv(Next(w, DrainOne(now, fault)))
  {
    var q, n := w.mode.queue[0], Next(w, DrainOne(now, fault));
    LoggedOnceInv(w, now, q, fault);
    var m := LoggedOnce(w, now, q, fault);
    HasEventAppend(m.archived, Retained(m.files), q.eventId);
    forall id | InOutbox(n.files.outbox, id)
      ensures InOutbox(n.mode.queue, id) || InOutbox(n.mode.remaining, id) || WasLogged(n, id)
    {
      QueueSplit(w.mode.queue, id);
      RemainingGrows(w.mode.remaining, q, id);
    }
  }

  lemma QueueSplit(queue: seq<Queued>, id: Uuid)
    requires queue != []
    ensures InOutbox(queue, id) ==> queue[0].eventId == id || InOutbox(queue[1..], id)
  {
    if InOutbox(queue, id) {
      var i :| 0 <= i < |queue| && queue[i].eventId == id;
      if i > 0 { assert queue[1..][i - 1] == queue[i]; }
    }
  }

  lemma RemainingGrows(remaining: seq<Queued>, q: Queued, id: Uuid)
    ensures InOutbox(remaining, id) || q.eventId == id ==> InOutbox(remaining + [q], id)
  {
    var t := remaining + [q];
    assert t[|remaining|] == q;
    if InOutbox(remaining, id) {
      var i :| 0 <= i < |remaining| && remaining[i].eventId == id;
      assert t[i] == remaining[i];
    }
  }

  lemma EnqueueInv(w: World, q: Queued)
    requires Inv(w) && w.mode.Up?
    ensures Inv(Next(w, QueueEvent(q)))
  {
    forall id
      ensures InOutbox(w.files.outbox, id) || q.eventId == id ==> InOutbox(Enqueue(w.files, q).outbox, id)
    {
      RemainingGrows(w.files.outbox, q, id);
    }
  }

  // ---------------------------------------------------------------------------------------------
  // Opening
  // ---------------------------------------------------------------------------------------------

  /** The last expired file has no entry: compaction refuses it. */
  predicate EmptyExpired(f: Files, now: nat) {
    var k := Expired(f.segments, Cutoff(now));
    k > 0 && f.segments[k - 1].entries == []
  }

  /** Opening succeeds if and only if the log is sound and its last expired file has an entry. */
  lemma OpenedIff(f: Files, day: nat, now: nat)
    requires FilesInv(f, day)
    ensures Opened(f, now).Ok? <==> Sound(f) && !EmptyExpired(f, now)
  {
  }

  /** The files that opening leaves. */
  lemma OpenedFiles(f: Files, day: nat, now: nat)
    requires FilesInv(f, day) && day <= Day(now) && Opened(f, now).Ok?
    ensures var g, k := Opened(f, now).value, Expired(f.segments, Cutoff(now));
            && FilesInv(g, Day(now)) && Tail(g) == Tail(f) && g.anchor == Some(Tail(f)) && g.outbox == f.outbox
            && Retained(f) == Entries(f.segments[..k]) + Retained(g)
  {
    AnchorAtEnd(Retained(f), Start(f.checkpoint));
    CompactInv(f.(anchor := Some(Tail(f))), day, now);
  }

  lemma OpenedWorld(w: World, n: World, expired: seq<Entry>)
    requires Inv(w) && Sound(w.files)
    requires n == w.(files := n.files, mode := Draining(n.files.outbox, []), tail := w.last, day := n.day,
                     archived := w.archived + expired)
    requires FilesInv(n.files, n.day) && Tail(n.files) == w.last && n.files.anchor == Some(w.last)
    requires n.files.outbox == w.files.outbox
    requires Retained(w.files) == expired + Retained(n.files)
    ensures Inv(n) && n.archived + Retained(n.files) == w.archived + Retained(w.files)
  {
    assert n.archived + Retained(n.files) == w.archived + Retained(w.files);
    assert forall id :: WasLogged(n, id) <==> WasLogged(w, id);
  }

  /** When opening succeeds it resumes at the last entry that got into a file and loses no event. */
  lemma OpenResumes(w: World, now: nat)
    requires Inv(w) && w.mode.Down? && w.day <= Day(now) && Opened(w.files, now).Ok?
    ensures var n := Next(w, Open(now));
            Inv(n) && n.mode.Draining? && n.tail == w.last == Tail(n.files)
            && n.archived + Retained(n.files) == w.archived + Retained(w.files)
  {
    OpenedFiles(w.files, w.day, now);
    OpenedWorld(w, Next(w, Open(now)), Entries(w.files.segments[..Expired(w.files.segments, Cutoff(now))]));
  }

  lemma AnchorAtEnd(s: seq<Entry>, from: Point)
    requires Chain(s, from)
    ensures AnchorMatches(s, from, Some(End(s, from))) && AnchorReached(|s|, from, Some(End(s, from)))
  {
    EndSequence(s, from);
  }

  lemma SegmentsTail(segs: seq<Segment>, k: nat, day: nat, later: nat)
    requires SegmentsInv(segs, day) && k <= |segs| && day <= later
    ensures SegmentsInv(segs[k..], later) && (Whole(segs) ==> Whole(segs[k..]))
  {
  }

  lemma CompactInv(f: Files, day: nat, now: nat)
    requires FilesInv(f, day) && day <= Day(now) && f.anchor == Some(Tail(f)) && Acceptable(f) && Compact(f, now).Ok?
    ensures var g, k := Compact(f, now).value, Expired(f.segments, Cutoff(now));
            && FilesInv(g, Day(now)) && Tail(g) == Tail(f) && g.anchor == f.anchor && g.outbox == f.outbox
            && Retained(f) == Entries(f.segments[..k]) + Retained(g)
  {
    var k := Expired(f.segments, Cutoff(now));
    SegmentsTail(f.segments, k, day, Day(now));
    if k == 0 {
      assert f.segments[..k] == [] && f.segments[k..] == f.segments;
    } else {
      CompactionKeeps(f, k);
      DistinctTail(Entries(f.segments[..k]), Entries(f.segments[k..]));
    }
  }

  lemma DistinctTail(a: seq<Entry>, b: seq<Entry>)
    requires Distinct(a + b)
    ensures Distinct(b)
  {
    forall i, j | 0 <= i < j < |b| && b[i].unsigned.eventId.Some?
      ensures b[i].unsigned.eventId != b[j].unsigned.eventId
    {
      assert (a + b)[|a| + i] == b[i] && (a + b)[|a| + j] == b[j];
    }
  }

  lemma AnchoredInv(w: World)
    requires Inv(w) && w.mode.Down?
    ensures Inv(Next(w, OpenThenCrash))
  {
    if Verifies(w.files) {
      AnchorAtEnd(Retained(w.files), Start(w.files.checkpoint));
      assert forall id :: WasLogged(Next(w, OpenThenCrash), id) <==> WasLogged(w, id);
    }
  }

  lemma NextInv(w: World, s: Step)
    requires Inv(w)
    ensures Inv(Next(w, s))
  {
    match s
    case Open(now) => if w.mode.Down? && w.day <= Day(now) && Opened(w.files, now).Ok? { OpenResumes(w, now); }
    case OpenThenCrash => if w.mode.Down? { AnchoredInv(w); }
    case DrainOne(now, fault) =>
      if w.mode.Draining? && w.mode.queue != [] && w.day <= Day(now) { DrainOneInv(w, now, fault); }
    case DrainEnd =>
    case Log(now, body, fault) => if w.mode.Up? && w.day <= Day(now) { LoggedInv(w, now, body, None, fault); }
    case LogOnce(now, q, fault) => if w.mode.Up? && w.day <= Day(now) { LoggedOnceInv(w, now, q, fault); }
    case QueueEvent(q) => if w.mode.Up? { EnqueueInv(w, q); }
    case Crash =>
  }

  lemma {:induction false} RunInv(steps: seq<Step>)
    ensures Inv(Run(steps))
  {
    if steps != [] {
      RunInv(steps[..|steps| - 1]);
      NextInv(Run(steps[..|steps| - 1]), steps[|steps| - 1]);
    }
  }

  // ---------------------------------------------------------------------------------------------
  // Theorems
  // ---------------------------------------------------------------------------------------------

  /** After any run, whatever failed, reopening succeeds if and only if the log is sound and its last
      expired file has an entry; it then resumes at the sequence and MAC of the last entry that got into a
      file, whether or not its anchor was written. */
  lemma ReopenResumesIff(steps: seq<Step>, now: nat)
    requires Run(steps).mode.Down? && Run(steps).day <= Day(now)
    ensures var w := Run(steps);
            var n := Next(w, Open(now));
            && (n.mode.Draining? <==> Sound(w.files) && !EmptyExpired(w.files, now))
            && (n.mode.Draining? ==> n.tail == w.last == Tail(n.files))
  {
    RunInv(steps);
    OpenedIff(Run(steps).files, Run(steps).day, now);
    if Opened(Run(steps).files, now).Ok? { OpenResumes(Run(steps), now); }
  }

  /** The failures that break a log: part of a line, or a whole line written with memory behind the chain.
      The second needs an earlier failed sync in the same process. */
  predicate Breaks(w: World, s: Step) {
    match s
    case Log(now, _, fault) => w.mode.Up? && w.day <= Day(now) && BreaksBy(w, fault)
    case LogOnce(now, q, fault) => w.mode.Up? && w.day <= Day(now) && New(w.files, q) && BreaksBy(w, fault)
    case DrainOne(now, fault) =>
      w.mode.Draining? && w.mode.queue != [] && w.day <= Day(now) && New(w.files, w.mode.queue[0]) && BreaksBy(w, fault)
    case _ => false
  }

  predicate BreaksBy(w: World, fault: RecordFault) {
    (fault.WriteFails? && fault.torn) || (Appends(fault) && w.tail != Tail(w.files))
  }

  lemma LoggedSoundIff(w: World, now: nat, body: Body, eventId: Option<Uuid>, fault: RecordFault)
    requires Inv(w) && !w.mode.Down? && w.day <= Day(now)
    ensures Sound(Logged(w, now, body, eventId, fault).files) <==> Sound(w.files) && !BreaksBy(w, fault)
  {
    if Sound(w.files) {
      SoundIff(w.files, w.day, w.tail, now, body, eventId, fault);
    } else {
      BrokenStays(w.files, w.day, w.tail, now, body, eventId, fault);
    }
  }

  /** A log is sound after a step if and only if it was before and the step does not break it. */
  lemma SoundAfterIff(steps: seq<Step>, s: Step)
    ensures Sound(Next(Run(steps), s).files) <==> Sound(Run(steps).files) && !Breaks(Run(steps), s)
  {
    RunInv(steps);
    var w := Run(steps);
    match s
    case Open(now) =>
      if w.mode.Down? && w.day <= Day(now) && Opened(w.files, now).Ok? {
        OpenedIff(w.files, w.day, now);
        OpenedSound(w.files, w.day, now);
      }
    case DrainOne(now, fault) =>
      if w.mode.Draining? && w.mode.queue != [] && w.day <= Day(now) {
        LoggedSoundIff(w, now, w.mode.queue[0].body, Some(w.mode.queue[0].eventId), fault);
      }
    case Log(now, body, fault) => if w.mode.Up? && w.day <= Day(now) { LoggedSoundIff(w, now, body, None, fault); }
    case LogOnce(now, q, fault) =>
      if w.mode.Up? && w.day <= Day(now) { LoggedSoundIff(w, now, q.body, Some(q.eventId), fault); }
    case _ =>
  }

  /** No step of the run breaks the log. */
  predicate Unbroken(steps: seq<Step>) {
    steps == [] || (Unbroken(steps[..|steps| - 1]) && !Breaks(Run(steps[..|steps| - 1]), steps[|steps| - 1]))
  }

  /** So it is sound after a run exactly when no step of the run broke it. */
  lemma {:induction false} SoundRunIff(steps: seq<Step>)
    ensures Sound(Run(steps).files) <==> Unbroken(steps)
  {
    if steps != [] {
      SoundRunIff(steps[..|steps| - 1]);
      SoundAfterIff(steps[..|steps| - 1], steps[|steps| - 1]);
    }
  }

  predicate HasPartialWrite(s: Step) {
    match s
    case Log(_, _, fault) => fault.WriteFails?
    case LogOnce(_, _, fault) => fault.WriteFails?
    case DrainOne(_, fault) => fault.WriteFails?
    case _ => false
  }

  predicate NoEmpty(segs: seq<Segment>) { forall i :: 0 <= i < |segs| ==> segs[i].entries != [] }

  lemma {:induction false} PutNoEmpty(segs: seq<Segment>, day: nat, e: Entry)
    requires NoEmpty(segs)
    ensures NoEmpty(Put(segs, day, e))
  {
    if segs != [] && segs[|segs| - 1].day > day { PutNoEmpty(segs[..|segs| - 1], day, e); }
  }

  lemma LoggedNoEmpty(w: World, now: nat, body: Body, eventId: Option<Uuid>, fault: RecordFault)
    requires NoEmpty(w.files.segments) && !fault.WriteFails?
    ensures NoEmpty(Logged(w, now, body, eventId, fault).files.segments)
  {
    PutNoEmpty(w.files.segments, Day(now), NewEntry(w.tail, now, body, eventId));
  }

  lemma NextNoEmpty(w: World, s: Step)
    requires NoEmpty(w.files.segments) && !HasPartialWrite(s)
    ensures NoEmpty(Next(w, s).files.segments)
  {
    match s
    case Log(now, body, fault) => LoggedNoEmpty(w, now, body, None, fault);
    case LogOnce(now, q, fault) => LoggedNoEmpty(w, now, q.body, Some(q.eventId), fault);
    case DrainOne(now, fault) =>
      if w.mode.Draining? && w.mode.queue != [] {
        LoggedNoEmpty(w, now, w.mode.queue[0].body, Some(w.mode.queue[0].eventId), fault);
      }
    case _ =>
  }

  lemma {:induction false} RunNoEmpty(steps: seq<Step>)
    requires forall i :: 0 <= i < |steps| ==> !HasPartialWrite(steps[i])
    ensures NoEmpty(Run(steps).files.segments)
  {
    if steps != [] {
      RunNoEmpty(steps[..|steps| - 1]);
      NextNoEmpty(Run(steps[..|steps| - 1]), steps[|steps| - 1]);
    }
  }

  /** In a run whose writes are whole or absent, reopening succeeds if and only if no line was written with
      memory behind the chain, whatever crashes fell between append, anchor and outbox. */
  lemma ReopenAfterWholeWritesIff(steps: seq<Step>, now: nat)
    requires Run(steps).mode.Down? && Run(steps).day <= Day(now)
    requires forall i :: 0 <= i < |steps| ==> !HasPartialWrite(steps[i])
    ensures Next(Run(steps), Open(now)).mode.Draining? <==> Unbroken(steps)
  {
    ReopenResumesIff(steps, now);
    SoundRunIff(steps);
    RunNoEmpty(steps);
  }

  lemma OpenedSound(f: Files, day: nat, now: nat)
    requires FilesInv(f, day) && Opened(f, now).Ok?
    ensures Sound(Opened(f, now).value)
  {
    AnchorAtEnd(Retained(f), Start(f.checkpoint));
    var k := Expired(f.segments, Cutoff(now));
    if k > 0 {
      CompactionKeeps(f.(anchor := Some(Tail(f))), k);
    }
  }

  // ---------------------------------------------------------------------------------------------
  // What the log says
  // ---------------------------------------------------------------------------------------------

  /** One record as it was asked for: when, what, and under which event id. */
  datatype Note = Note(timestamp: nat, body: Body, eventId: Option<Uuid>)

  function NoteOf(e: Entry): Note { Note(e.unsigned.timestamp, e.unsigned.body, e.unsigned.eventId) }

  function Notes(s: seq<Entry>): (n: seq<Note>)
    ensures |n| == |s| && forall i :: 0 <= i < |s| ==> n[i] == NoteOf(s[i])
  {
    seq(|s|, i requires 0 <= i < |s| => NoteOf(s[i]))
  }

  lemma NotesSnoc(s: seq<Entry>, e: Entry)
    ensures Notes(s + [e]) == Notes(s) + [NoteOf(e)]
  {
    var all := s + [e];
    assert forall i :: 0 <= i < |s| ==> all[i] == s[i];
  }

  /** The line gets into a file in which it can be read: whole, and not behind a torn one. */
  predicate Lands(w: World, now: nat, fault: RecordFault) {
    (fault.NoFault? || fault.SyncFails? || fault.AnchorFails?) && !TornEnd(w.files.segments, now / 86_400_000)
  }

  /** What the steps of a run asked to be recorded and what got into the files, in order. */
  function History(steps: seq<Step>): seq<Note> {
    if steps == [] then []
    else
      var w, before := Run(steps[..|steps| - 1]), History(steps[..|steps| - 1]);
      match steps[|steps| - 1]
      case Log(now, body, fault) =>
        if w.mode.Up? && w.day <= Day(now) && Lands(w, now, fault) then before + [Note(now, body, None)] else before
      case LogOnce(now, q, fault) =>
        if w.mode.Up? && w.day <= Day(now) && New(w.files, q) && Lands(w, now, fault) then
          before + [Note(now, q.body, Some(q.eventId))]
        else before
      case DrainOne(now, fault) =>
        if w.mode.Draining? && w.mode.queue != [] && w.day <= Day(now) && New(w.files, w.mode.queue[0])
           && Lands(w, now, fault) then
          before + [Note(now, w.mode.queue[0].body, Some(w.mode.queue[0].eventId))]
        else before
      case _ => before
  }

  /** A record adds its own note to the log, or nothing. */
  lemma LoggedNotes(w: World, now: nat, body: Body, eventId: Option<Uuid>, fault: RecordFault)
    requires SegmentsInv(w.files.segments, w.day) && w.day <= Day(now)
    ensures var n := Logged(w, now, body, eventId, fault);
            Notes(n.archived + Retained(n.files)) ==
              Notes(w.archived + Retained(w.files)) + (if Lands(w, now, fault) then [Note(now, body, eventId)] else [])
  {
    var n, e := Logged(w, now, body, eventId, fault), NewEntry(w.tail, now, body, eventId);
    RecordingShape(w.files, w.day, w.tail, now, body, eventId, fault);
    PutLast(w.files.segments, Day(now), e);
    if Lands(w, now, fault) {
      assert n.archived + Retained(n.files) == (w.archived + Retained(w.files)) + [e];
      NotesSnoc(w.archived + Retained(w.files), e);
    } else {
      assert Retained(n.files) == Retained(w.files);
    }
  }

  lemma NextNotes(steps: seq<Step>, s: Step)
    requires Inv(Run(steps)) && Notes(Run(steps).archived + Retained(Run(steps).files)) == History(steps)
    ensures Notes(Next(Run(steps), s).archived + Retained(Next(Run(steps), s).files)) == History(steps + [s])
  {
    var w := Run(steps);
    assert (steps + [s])[..|steps|] == steps;
    match s
    case Open(now) => if w.mode.Down? && w.day <= Day(now) && Opened(w.files, now).Ok? { OpenResumes(w, now); }
    case DrainOne(now, fault) =>
      if w.mode.Draining? && w.mode.queue != [] && w.day <= Day(now) {
        LoggedNotes(w, now, w.mode.queue[0].body, Some(w.mode.queue[0].eventId), fault);
      }
    case Log(now, body, fault) => if w.day <= Day(now) { LoggedNotes(w, now, body, None, fault); }
    case LogOnce(now, q, fault) => if w.day <= Day(now) { LoggedNotes(w, now, q.body, Some(q.eventId), fault); }
    case _ =>
  }

  /** In every run, whatever failed and wherever it crashed, archive and files together say exactly what was
      recorded: body, time and event id of each record, in order, and nothing else. */
  lemma {:induction false} LogIsHistory(steps: seq<Step>)
    ensures Notes(Run(steps).archived + Retained(Run(steps).files)) == History(steps)
  {
    if steps != [] {
      var before, s := steps[..|steps| - 1], steps[|steps| - 1];
      assert steps == before + [s];
      LogIsHistory(before);
      RunInv(before);
      NextNotes(before, s);
    }
  }

  /** Every entry is in the file of the day on which it was recorded. */
  predicate Filed(segs: seq<Segment>) {
    forall i, j :: 0 <= i < |segs| && 0 <= j < |segs[i].entries| ==>
      segs[i].entries[j].unsigned.timestamp / 86_400_000 == segs[i].day
  }

  lemma FiledSnoc(segs: seq<Segment>, last: Segment)
    ensures Filed(segs + [last]) <==>
              Filed(segs) && forall j :: 0 <= j < |last.entries| ==>
                last.entries[j].unsigned.timestamp / 86_400_000 == last.day
  {
    var all := segs + [last];
    assert all[|segs|] == last && forall i :: 0 <= i < |segs| ==> all[i] == segs[i];
  }

  lemma {:induction false} PutFiled(segs: seq<Segment>, day: nat, e: Entry)
    requires Filed(segs) && e.unsigned.timestamp / 86_400_000 == day
    ensures Filed(Put(segs, day, e))
  {
    if segs == [] {
      FiledSnoc([], Segment(day, [e], false));
      assert [] + [Segment(day, [e], false)] == Put(segs, day, e);
    } else {
      var rest, last := segs[..|segs| - 1], segs[|segs| - 1];
      assert segs == rest + [last];
      FiledSnoc(rest, last);
      FiledSnoc(segs, Segment(day, [e], false));
      FiledSnoc(rest, last.(entries := last.entries + [e]));
      if last.day > day {
        PutFiled(rest, day, e);
        FiledSnoc(Put(rest, day, e), last);
      }
    }
  }

  lemma {:induction false} TouchFiled(segs: seq<Segment>, day: nat, torn: bool)
    requires Filed(segs)
    ensures Filed(Touch(segs, day, torn))
  {
    if segs == [] {
      FiledSnoc([], Segment(day, [], torn));
      assert [] + [Segment(day, [], torn)] == Touch(segs, day, torn);
    } else {
      var rest, last := segs[..|segs| - 1], segs[|segs| - 1];
      assert segs == rest + [last];
      FiledSnoc(rest, last);
      FiledSnoc(segs, Segment(day, [], torn));
      FiledSnoc(rest, last.(torn := last.torn || torn));
      if last.day > day {
        TouchFiled(rest, day, torn);
        FiledSnoc(Touch(rest, day, torn), last);
      }
    }
  }

  lemma RecordingFiled(f: Files, tail: Point, now: nat, body: Body, eventId: Option<Uuid>, fault: RecordFault)
    requires Filed(f.segments)
    ensures Filed(Recording(f, tail, now, body, eventId, fault).0.segments)
  {
    PutFiled(f.segments, Day(now), NewEntry(tail, now, body, eventId));
    if fault.WriteFails? { TouchFiled(f.segments, Day(now), fault.torn); }
  }

  lemma NextFiled(w: World, s: Step)
    requires Filed(w.files.segments)
    ensures Filed(Next(w, s).files.segments)
  {
    match s
    case Open(now) => if w.mode.Down? && w.day <= Day(now) && Opened(w.files, now).Ok? { OpenedFiled(w.files, now); }
    case DrainOne(now, fault) =>
      if w.mode.Draining? && w.mode.queue != [] {
        RecordingFiled(w.files, w.tail, now, w.mode.queue[0].body, Some(w.mode.queue[0].eventId), fault);
      }
    case Log(now, body, fault) => RecordingFiled(w.files, w.tail, now, body, None, fault);
    case LogOnce(now, q, fault) => RecordingFiled(w.files, w.tail, now, q.body, Some(q.eventId), fault);
    case _ =>
  }

  lemma OpenedFiled(f: Files, now: nat)
    requires Filed(f.segments) && Opened(f, now).Ok?
    ensures Filed(Opened(f, now).value.segments)
  {
  }

  /** In every run each entry is in the file of its own day, so the retention period of a file is that of its
      entries. */
  lemma {:induction false} RunFiled(steps: seq<Step>)
    ensures Filed(Run(steps).files.segments)
  {
    if steps != [] {
      RunFiled(steps[..|steps| - 1]);
      NextFiled(Run(steps[..|steps| - 1]), steps[|steps| - 1]);
    }
  }

  /** In every run, whatever failed, each event id occurs at most once in the retained chain, and every
      event ever queued is still queued or was logged. */
  lemma EventsOnce(steps: seq<Step>, id: Uuid)
    ensures var w := Run(steps);
            && Distinct(Retained(w.files))
            && (id in w.queuedEver ==> InOutbox(w.files.outbox, id) || WasLogged(w, id))
  {
    RunInv(steps);
  }

  /** An append that stops early on a sound log, in the day's file or in a new one: the next opening
      succeeds if and only if it left no part of a line and the last expired file has an entry. */
  lemma PartialAppendIff(f: Files, day: nat, tail: Point, at: nat, body: Body, eventId: Option<Uuid>, torn: bool,
                         now: nat)
    requires FilesInv(f, day) && Sound(f) && f.anchor.Some? && day <= Day(at)
    ensures var g := Recording(f, tail, at, body, eventId, WriteFails(torn)).0;
            Opened(g, now).Ok? <==> !torn && !EmptyExpired(g, now)
  {
    var g := Recording(f, tail, at, body, eventId, WriteFails(torn)).0;
    TouchKeeps(f.segments, Day(at), torn);
    TouchInv(f.segments, day, Day(at), torn);
    assert FilesInv(g, Day(at));
    OpenedIff(g, Day(at), now);
  }

  /** The failing input without a torn line: a crash between creating a new day's file and writing to it,
      on a day that then passes without a record. Once the retention period has made that file the last
      expired one, the log is refused. */
  lemma EmptyDayRefused(f: Files, day: nat, tail: Point, at: nat, body: Body, eventId: Option<Uuid>, now: nat)
    requires FilesInv(f, day) && Sound(f) && f.anchor.Some? && day < Day(at) && Day(at) + RETENTION_DAYS < Day(now)
    ensures var g := Recording(f, tail, at, body, eventId, WriteFails(false)).0;
            g.segments == f.segments + [Segment(Day(at), [], false)] && Opened(g, now).Err?
  {
    var g := Recording(f, tail, at, body, eventId, WriteFails(false)).0;
    assert f.segments == [] || f.segments[|f.segments| - 1].day < Day(at);
    EmptyLastExpires(f.segments, Day(at), now);
    PartialAppendIff(f, day, tail, at, body, eventId, false, now);
  }

  lemma EmptyLastExpires(segs: seq<Segment>, day: nat, now: nat)
    requires (forall i :: 0 <= i < |segs| ==> segs[i].day <= day) && day + RETENTION_DAYS < Day(now)
    ensures Expired(segs + [Segment(day, [], false)], Cutoff(now)) == |segs| + 1
  {
    var all := segs + [Segment(day, [], false)];
    assert forall i :: 0 <= i < |all| ==> all[i].day <= day < Cutoff(now);
  }
}
