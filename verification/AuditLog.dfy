/** Appending to the audit log, compaction and the outbox, as functions on the log's files, and the
    logger that performs them (native-host/src/audit.rs). */
module AuditLog {
  import opened Base
  import opened Audit

  datatype Queued = Queued(eventId: Uuid, body: Body)

  datatype Files = Files(segments: seq<Segment>, anchor: Option<Point>, checkpoint: Option<Checkpoint>,
                         outbox: seq<Queued>)

  function Retained(f: Files): seq<Entry> { Entries(f.segments) }

  function Tail(f: Files): Point { End(Retained(f), Start(f.checkpoint)) }

  function Day(now: nat): nat { now / DAY_MS }

  predicate Sorted(segs: seq<Segment>) { forall i, j :: 0 <= i < j < |segs| ==> segs[i].day < segs[j].day }

  // ---------------------------------------------------------------------------------------------
  // Appending
  // ---------------------------------------------------------------------------------------------

  function NewEntry(tail: Point, now: nat, body: Body, eventId: Option<Uuid>): (e: Entry)
    ensures Follows(tail, e)
  {
    var u := Unsigned(SCHEMA, tail.sequence + 1, tail.mac, now, body, eventId);
    Entry(u, MacOf(u))
  }

  /** Appends to the file of that day, which is created if it does not exist. A line that follows a torn
      one is unreadable with it: every reader stops there. */
  function Put(segs: seq<Segment>, day: nat, e: Entry): seq<Segment> {
    if segs == [] then [Segment(day, [e], false)]
    else
      var last := segs[|segs| - 1];
      if last.day == day then
        if last.torn then segs else segs[..|segs| - 1] + [last.(entries := last.entries + [e])]
      else if last.day < day then segs + [Segment(day, [e], false)]
      else Put(segs[..|segs| - 1], day, e) + [last]
  }

  /** An append that stops early: the day's file exists afterwards, with part of a line at its end or with
      nothing new. */
  function Touch(segs: seq<Segment>, day: nat, torn: bool): seq<Segment> {
    if segs == [] then [Segment(day, [], torn)]
    else
      var last := segs[|segs| - 1];
      if last.day == day then segs[..|segs| - 1] + [last.(torn := last.torn || torn)]
      else if last.day < day then segs + [Segment(day, [], torn)]
      else Touch(segs[..|segs| - 1], day, torn) + [last]
  }

  lemma {:induction false} TouchKeeps(segs: seq<Segment>, day: nat, torn: bool)
    ensures Entries(Touch(segs, day, torn)) == Entries(segs)
    ensures Whole(Touch(segs, day, torn)) <==> Whole(segs) && !torn
  {
    if segs == [] {
      assert Touch(segs, day, torn)[..0] == [];
      assert Touch(segs, day, torn)[0].torn == torn;
    } else {
      var rest, last, t := segs[..|segs| - 1], segs[|segs| - 1], Touch(segs, day, torn);
      WholeSnoc(rest, last);
      assert segs == rest + [last];
      if last.day == day {
        WholeSnoc(rest, last.(torn := last.torn || torn));
        assert t[..|t| - 1] == rest;
      } else if last.day < day {
        WholeSnoc(segs, Segment(day, [], torn));
        assert t[..|t| - 1] == segs;
      } else {
        TouchKeeps(rest, day, torn);
        WholeSnoc(Touch(rest, day, torn), last);
        assert t[..|t| - 1] == Touch(rest, day, torn);
      }
    }
  }

  lemma WholeSnoc(segs: seq<Segment>, last: Segment)
    ensures Whole(segs + [last]) <==> Whole(segs) && !last.torn
  {
    var all := segs + [last];
    assert all[|segs|] == last && forall i :: 0 <= i < |segs| ==> all[i] == segs[i];
  }

  /** Every file is of an earlier day. */
  predicate Before(segs: seq<Segment>, day: nat) { forall i :: 0 <= i < |segs| ==> segs[i].day < day }

  lemma SortedSnoc(segs: seq<Segment>, last: Segment)
    ensures Sorted(segs + [last]) <==> Sorted(segs) && Before(segs, last.day)
  {
    var all := segs + [last];
    assert all[|segs|] == last && forall i :: 0 <= i < |segs| ==> all[i] == segs[i];
    if Sorted(all) {
      forall i, j | 0 <= i < j < |segs|
        ensures segs[i].day < segs[j].day
      {
        assert all[i].day < all[j].day;
      }
    }
  }

  lemma BeforeSnoc(segs: seq<Segment>, last: Segment, day: nat)
    ensures Before(segs + [last], day) <==> Before(segs, day) && last.day < day
  {
    var all := segs + [last];
    assert all[|segs|] == last && forall i :: 0 <= i < |segs| ==> all[i] == segs[i];
  }

  lemma {:induction false} TouchSorted(segs: seq<Segment>, day: nat, torn: bool, end: nat)
    requires Sorted(segs) && Before(segs, end) && day < end
    ensures Sorted(Touch(segs, day, torn)) && Before(Touch(segs, day, torn), end)
  {
    if segs != [] {
      var rest, last := segs[..|segs| - 1], segs[|segs| - 1];
      assert segs == rest + [last];
      SortedSnoc(rest, last);
      BeforeSnoc(rest, last, end);
      if last.day == day {
        SortedSnoc(rest, last.(torn := last.torn || torn));
        BeforeSnoc(rest, last.(torn := last.torn || torn), end);
      } else if last.day < day {
        BeforeLater(segs, day);
        SortedSnoc(segs, Segment(day, [], torn));
        BeforeSnoc(segs, Segment(day, [], torn), end);
      } else {
        TouchSorted(rest, day, torn, last.day);
        SortedSnoc(Touch(rest, day, torn), last);
        BeforeLess(Touch(rest, day, torn), last.day, end);
        BeforeSnoc(Touch(rest, day, torn), last, end);
      }
    }
  }

  lemma BeforeLater(segs: seq<Segment>, day: nat)
    requires Sorted(segs) && segs != [] && segs[|segs| - 1].day < day
    ensures Before(segs, day)
  {
  }

  lemma BeforeLess(segs: seq<Segment>, day: nat, end: nat)
    requires Before(segs, day) && day <= end
    ensures Before(segs, end)
  {
  }

  lemma {:induction false} PutSorted(segs: seq<Segment>, day: nat, e: Entry, end: nat)
    requires Sorted(segs) && Before(segs, end) && day < end
    ensures Sorted(Put(segs, day, e)) && Before(Put(segs, day, e), end)
  {
    if segs != [] {
      var rest, last := segs[..|segs| - 1], segs[|segs| - 1];
      assert segs == rest + [last];
      SortedSnoc(rest, last);
      BeforeSnoc(rest, last, end);
      if last.day == day {
        SortedSnoc(rest, last.(entries := last.entries + [e]));
        BeforeSnoc(rest, last.(entries := last.entries + [e]), end);
      } else if last.day < day {
        BeforeLater(segs, day);
        SortedSnoc(segs, Segment(day, [e], false));
        BeforeSnoc(segs, Segment(day, [e], false), end);
      } else {
        PutSorted(rest, day, e, last.day);
        SortedSnoc(Put(rest, day, e), last);
        BeforeLess(Put(rest, day, e), last.day, end);
        BeforeSnoc(Put(rest, day, e), last, end);
      }
    }
  }

  /** The entries of the files after a given day. */
  function After(segs: seq<Segment>, day: nat): seq<Entry> {
    if segs == [] || segs[|segs| - 1].day <= day then []
    else After(segs[..|segs| - 1], day) + segs[|segs| - 1].entries
  }

  /** The entries of the files up to and including that day. */
  function UpTo(segs: seq<Segment>, day: nat): seq<Entry> {
    if segs == [] then []
    else if segs[|segs| - 1].day <= day then Entries(segs)
    else UpTo(segs[..|segs| - 1], day)
  }

  lemma {:induction false} SplitByDay(segs: seq<Segment>, day: nat)
    ensures Entries(segs) == UpTo(segs, day) + After(segs, day)
  {
    if segs != [] && segs[|segs| - 1].day > day {
      SplitByDay(segs[..|segs| - 1], day);
    }
  }

  /** The last file is that day's and ends in a torn line. */
  predicate TornEnd(segs: seq<Segment>, day: nat) { segs != [] && segs[|segs| - 1].day == day && segs[|segs| - 1].torn }

  lemma PutLast(segs: seq<Segment>, day: nat, e: Entry)
    requires segs == [] || segs[|segs| - 1].day <= day
    ensures Entries(Put(segs, day, e)) == if TornEnd(segs, day) then Entries(segs) else Entries(segs) + [e]
    ensures Whole(Put(segs, day, e)) <==> Whole(segs)
  {
    var p := Put(segs, day, e);
    if !TornEnd(segs, day) {
      if segs != [] && segs[|segs| - 1].day == day {
        var rest, last := segs[..|segs| - 1], segs[|segs| - 1];
        assert p[..|p| - 1] == rest && segs == rest + [last];
        WholeSnoc(rest, last);
        WholeSnoc(rest, last.(entries := last.entries + [e]));
      } else {
        assert p[..|p| - 1] == segs;
        WholeSnoc(segs, Segment(day, [e], false));
      }
    }
  }

  lemma {:induction false} PutEntries(segs: seq<Segment>, day: nat, e: Entry)
    requires Whole(segs)
    ensures Entries(Put(segs, day, e)) == UpTo(segs, day) + [e] + After(segs, day) && Whole(Put(segs, day, e))
  {
    if segs == [] || segs[|segs| - 1].day <= day {
      PutLast(segs, day, e);
    } else {
      var rest, p := segs[..|segs| - 1], Put(segs, day, e);
      PutEntries(rest, day, e);
      assert p[..|p| - 1] == Put(rest, day, e);
      WholeSnoc(Put(rest, day, e), segs[|segs| - 1]);
    }
  }

  /** What verification accepts. */
  predicate Acceptable(f: Files) { Whole(f.segments) && Accepted(Retained(f), f.checkpoint, f.anchor) }

  /** An append is accepted by the next verification exactly when nothing was logged on a later day:
      a clock set back by a day breaks the chain. */
  lemma AppendVerifiesIff(f: Files, now: nat, body: Body, eventId: Option<Uuid>)
    requires Acceptable(f)
    ensures var e := NewEntry(Tail(f), now, body, eventId);
            var g := Append(f, Tail(f), now, body, eventId);
            && (After(f.segments, Day(now)) == [] <==> Acceptable(g))
            && (After(f.segments, Day(now)) == [] ==>
                  Retained(g) == Retained(f) + [e] && Tail(g) == PointOf(e)
                  && Acceptable(g.(anchor := Some(PointOf(e)))))
  {
    var e, g := NewEntry(Tail(f), now, body, eventId), Append(f, Tail(f), now, body, eventId);
    var all, s, from, later := Retained(g), Retained(f), Start(f.checkpoint), After(f.segments, Day(now));
    PutEntries(f.segments, Day(now), e);
    SplitByDay(f.segments, Day(now));
    var before := UpTo(f.segments, Day(now));
    assert s == before + later && all == before + [e] + later;
    EndSequence(s, from);
    if later == [] {
      assert all == s + [e];
      ChainSnoc(s, from, e);
      AppendedAnchor(s, from, f.anchor, e);
    } else {
      if Chain(all, from) { ChainSequence(all, from, |before|); }
    }
  }

  lemma EndSequence(s: seq<Entry>, from: Point)
    requires Chain(s, from)
    ensures End(s, from).sequence == from.sequence + |s|
  {
    if s != [] { ChainSequence(s, from, |s| - 1); }
  }

  lemma AppendedAnchor(s: seq<Entry>, from: Point, anchor: Option<Point>, e: Entry)
    requires AnchorMatches(s, from, anchor) && AnchorReached(|s|, from, anchor)
    requires e.unsigned.sequence == from.sequence + |s| + 1
    ensures AnchorMatches(s + [e], from, anchor) && AnchorReached(|s + [e]|, from, anchor)
    ensures AnchorMatches(s + [e], from, Some(PointOf(e))) && AnchorReached(|s + [e]|, from, Some(PointOf(e)))
  {
    var t := s + [e];
    assert t[|s|] == e && forall i :: 0 <= i < |s| ==> t[i] == s[i];
  }

  function Append(f: Files, tail: Point, now: nat, body: Body, eventId: Option<Uuid>): Files {
    f.(segments := Put(f.segments, Day(now), NewEntry(tail, now, body, eventId)))
  }

  function Record(f: Files, tail: Point, now: nat, body: Body, eventId: Option<Uuid>): (Files, Point) {
    var p := PointOf(NewEntry(tail, now, body, eventId));
    (Append(f, tail, now, body, eventId).(anchor := Some(p)), p)
  }

  /** Where a record fails: at opening the day's file; in the write, which may leave the file new and empty
      or with part of a line; at the sync after the whole line; at the anchor, which may have been
      replaced. */
  datatype RecordFault = NoFault | OpenFails | WriteFails(torn: bool) | SyncFails | AnchorFails(replaced: bool)

  /** The whole line gets into the file. */
  predicate Appends(fault: RecordFault) { fault.NoFault? || fault.SyncFails? || fault.AnchorFails? }

  /** Files and memory after a record, and whether it reports success. */
  function Recording(f: Files, tail: Point, now: nat, body: Body, eventId: Option<Uuid>,
                     fault: RecordFault): (Files, Point, bool)
  {
    var p, g := PointOf(NewEntry(tail, now, body, eventId)), Append(f, tail, now, body, eventId);
    match fault
    case NoFault => (g.(anchor := Some(p)), p, true)
    case OpenFails => (f, tail, false)
    case WriteFails(torn) => (f.(segments := Touch(f.segments, Day(now), torn)), tail, false)
    case SyncFails => (g, tail, false)
    case AnchorFails(replaced) => (if replaced then g.(anchor := Some(p)) else g, p, false)
  }

  /** For every failure inside a record: memory stays at the end of the chain if and only if the sync did
      not fail after the append, and the log stays acceptable if and only if the write left no torn line. */
  lemma InStepIff(f: Files, now: nat, body: Body, eventId: Option<Uuid>, fault: RecordFault)
    requires Acceptable(f) && After(f.segments, Day(now)) == []
    ensures var (g, tail, ok) := Recording(f, Tail(f), now, body, eventId, fault);
            && (tail == Tail(g) <==> !fault.SyncFails?)
            && (Acceptable(g) <==> !(fault.WriteFails? && fault.torn))
            && Retained(g) == Retained(f) + (if Appends(fault) then [NewEntry(Tail(f), now, body, eventId)] else [])
            && (ok <==> fault.NoFault?)
  {
    if fault.WriteFails? { TouchKeeps(f.segments, Day(now), fault.torn); }
    AppendVerifiesIff(f, now, body, eventId);
  }

  /** With memory behind the chain the next line that gets into the file repeats a sequence, and the log is
      rejected from then on, whatever the anchor. */
  lemma StaleRecordBreaksChain(f: Files, tail: Point, now: nat, body: Body, eventId: Option<Uuid>, fault: RecordFault)
    requires Whole(f.segments) && Chain(Retained(f), Start(f.checkpoint)) && After(f.segments, Day(now)) == []
    requires tail.sequence < Tail(f).sequence && Appends(fault)
    ensures var g := Recording(f, tail, now, body, eventId, fault).0;
            !Chain(Retained(g), Start(g.checkpoint)) && !Acceptable(g)
  {
    var e, s := NewEntry(tail, now, body, eventId), Retained(f);
    PutEntries(f.segments, Day(now), e);
    SplitByDay(f.segments, Day(now));
    var all := Retained(Recording(f, tail, now, body, eventId, fault).0);
    assert all == s + [e];
    ChainSnoc(s, Start(f.checkpoint), e);
  }

  predicate HasEvent(s: seq<Entry>, id: Uuid) { exists i :: 0 <= i < |s| && s[i].unsigned.eventId == Some(id) }

  lemma HasEventAppend(a: seq<Entry>, b: seq<Entry>, id: Uuid)
    ensures HasEvent(a + b, id) <==> HasEvent(a, id) || HasEvent(b, id)
  {
    if HasEvent(a, id) {
      var i :| 0 <= i < |a| && a[i].unsigned.eventId == Some(id);
      assert (a + b)[i] == a[i];
    }
    if HasEvent(b, id) {
      var i :| 0 <= i < |b| && b[i].unsigned.eventId == Some(id);
      assert (a + b)[|a| + i] == b[i];
    }
  }

  /** Looking an event up in the files: a torn line met before the event is an error. */
  function Scan(segs: seq<Segment>, id: Uuid): Result<bool> {
    if segs == [] then Ok(false)
    else
      var before := Scan(segs[..|segs| - 1], id);
      var last := segs[|segs| - 1];
      if before.Err? || before.value then before
      else if HasEvent(last.entries, id) then Ok(true)
      else if last.torn then Err(Format)
      else Ok(false)
  }

  /** File i holds the event, and no file before it does or ends in a torn line. */
  predicate FoundAt(segs: seq<Segment>, id: Uuid, i: nat)
    requires i < |segs|
  {
    HasEvent(segs[i].entries, id) && ClearBefore(segs, id, i)
  }

  predicate ClearBefore(segs: seq<Segment>, id: Uuid, i: nat)
    requires i <= |segs|
  {
    forall k :: 0 <= k < i ==> !segs[k].torn && !HasEvent(segs[k].entries, id)
  }

  /** The scan stops at the first file that holds the event or ends in a torn line, and a file that does both
      answers yes. */
  lemma {:induction false} ScanIff(segs: seq<Segment>, id: Uuid)
    ensures Scan(segs, id) == Ok(true) <==> exists i :: 0 <= i < |segs| && FoundAt(segs, id, i)
    ensures Scan(segs, id) == Ok(false) <==> ClearBefore(segs, id, |segs|)
  {
    if segs != [] {
      var rest := segs[..|segs| - 1];
      ScanIff(rest, id);
      forall i: nat | i < |rest|
        ensures FoundAt(segs, id, i) <==> FoundAt(rest, id, i)
      {
      }
      if Scan(segs, id) == Ok(true) && Scan(rest, id) == Ok(false) { assert FoundAt(segs, id, |rest|); }
    }
  }

  /** The scan answers no exactly on whole files without the event, and yes only if the event is there. */
  lemma {:induction false} ScanMeaning(segs: seq<Segment>, id: Uuid)
    ensures Scan(segs, id) == Ok(false) <==> Whole(segs) && !HasEvent(Entries(segs), id)
    ensures Scan(segs, id) == Ok(true) ==> HasEvent(Entries(segs), id)
    ensures Whole(segs) ==> Scan(segs, id) == Ok(HasEvent(Entries(segs), id))
  {
    if segs != [] {
      var rest, last := segs[..|segs| - 1], segs[|segs| - 1];
      ScanMeaning(rest, id);
      HasEventAppend(Entries(rest), last.entries, id);
      WholeSnoc(rest, last);
      assert segs == rest + [last];
    }
  }

  /** A record under an event id: nil is refused, a known event is not repeated. */
  function RecordingOnce(f: Files, tail: Point, now: nat, q: Queued, fault: RecordFault): (Files, Point, Result<bool>) {
    if q.eventId == NIL then (f, tail, Err(Protocol))
    else
      var found := Scan(f.segments, q.eventId);
      if found.Err? then (f, tail, found)
      else if found.value then (f, tail, Ok(false))
      else
        var (g, p, ok) := Recording(f, tail, now, q.body, Some(q.eventId), fault);
        (g, p, if ok then Ok(true) else Err(Io))
  }

  function Enqueue(f: Files, q: Queued): Files {
    if exists i :: 0 <= i < |f.outbox| && f.outbox[i].eventId == q.eventId then f else f.(outbox := f.outbox + [q])
  }

  // ---------------------------------------------------------------------------------------------
  // Compaction
  // ---------------------------------------------------------------------------------------------

  function Cutoff(now: nat): nat { if Day(now) < RETENTION_DAYS then 0 else Day(now) - RETENTION_DAYS }

  /** How many of the sorted files are expired. */
  function Expired(segs: seq<Segment>, cutoff: nat): (k: nat)
    ensures k <= |segs|
    ensures forall i :: 0 <= i < k ==> segs[i].day < cutoff
    ensures k < |segs| ==> segs[k].day >= cutoff
  {
    if segs == [] || segs[0].day >= cutoff then 0 else 1 + Expired(segs[1..], cutoff)
  }

  function CheckpointOf(last: Segment): Checkpoint
    requires last.entries != []
  {
    Checkpoint(PointOf(last.entries[|last.entries| - 1]), last.day)
  }

  /** The files once the checkpoint is written and `removed` of the expired files are gone. */
  function Compacting(f: Files, k: nat, removed: nat): Files
    requires 0 < k <= |f.segments| && removed <= k && f.segments[k - 1].entries != []
  {
    f.(checkpoint := Some(CheckpointOf(f.segments[k - 1])), segments := f.segments[removed..])
  }

  function Compact(f: Files, now: nat): Result<Files> {
    var k := Expired(f.segments, Cutoff(now));
    if k == 0 then Ok(f)
    else if f.segments[k - 1].entries == [] then Err(Format)
    else Ok(Compacting(f, k, k))
  }

  lemma EntriesSnoc(segs: seq<Segment>, last: Segment)
    ensures Entries(segs + [last]) == Entries(segs) + last.entries
  {
    assert (segs + [last])[..|segs|] == segs;
  }

  lemma {:induction false} EntriesConcat(a: seq<Segment>, b: seq<Segment>)
    ensures Entries(a + b) == Entries(a) + Entries(b)
  {
    if b == [] {
      assert a + b == a;
    } else {
      var c, last := b[..|b| - 1], b[|b| - 1];
      EntriesConcat(a, c);
      assert a + b == (a + c) + [last];
      EntriesSnoc(a + c, last);
      assert Entries(b) == Entries(c) + last.entries;
    }
  }

  lemma ChainSplit(a: seq<Entry>, b: seq<Entry>, from: Point)
    requires Chain(a + b, from)
    ensures Chain(a, from) && Chain(b, End(a, from)) && End(a + b, from) == End(b, End(a, from))
  {
    var t := a + b;
    forall i | 0 <= i < |a|
      ensures Linked(a, from, i)
    {
      assert Linked(t, from, i);
    }
    forall i | 0 <= i < |b|
      ensures Linked(b, End(a, from), i)
    {
      assert Linked(t, from, |a| + i);
    }
  }

  lemma LastOfEntries(segs: seq<Segment>)
    requires segs != [] && segs[|segs| - 1].entries != []
    ensures Entries(segs) != []
    ensures End(Entries(segs), Start(None)) == PointOf(segs[|segs| - 1].entries[|segs[|segs| - 1].entries| - 1])
  {
  }

  lemma AnchorSplit(a: seq<Entry>, b: seq<Entry>, from: Point, mid: Point, anchor: Option<Point>)
    requires mid.sequence == from.sequence + |a|
    requires AnchorMatches(a + b, from, anchor) && AnchorReached(|a + b|, from, anchor)
    ensures AnchorMatches(b, mid, anchor) && AnchorReached(|b|, mid, anchor)
  {
    if anchor.Some? && mid.sequence < anchor.value.sequence {
      var k := anchor.value.sequence - mid.sequence - 1;
      assert (a + b)[|a| + k] == b[k];
    }
  }

  lemma SplitSegments(segs: seq<Segment>, k: nat)
    requires 0 < k <= |segs| && segs[k - 1].entries != []
    ensures Entries(segs) == Entries(segs[..k]) + Entries(segs[k..])
    ensures Entries(segs[..k]) != []
    ensures PointOf(Entries(segs[..k])[|Entries(segs[..k])| - 1]) == CheckpointOf(segs[k - 1]).at
  {
    EntriesConcat(segs[..k], segs[k..]);
    assert segs[..k] + segs[k..] == segs;
    assert segs[..k][|segs[..k]| - 1] == segs[k - 1];
    LastOfEntries(segs[..k]);
  }

  /** A complete compaction keeps the log acceptable and its end where it was. */
  lemma CompactionKeeps(f: Files, k: nat)
    requires 0 < k <= |f.segments| && f.segments[k - 1].entries != []
    requires Accepted(Retained(f), f.checkpoint, f.anchor)
    ensures var g := Compacting(f, k, k);
            && Accepted(Retained(g), g.checkpoint, g.anchor)
            && Tail(g) == Tail(f)
            && Retained(f) == Entries(f.segments[..k]) + Retained(g)
  {
    var from, mid := Start(f.checkpoint), CheckpointOf(f.segments[k - 1]).at;
    var a, b := Entries(f.segments[..k]), Entries(f.segments[k..]);
    SplitSegments(f.segments, k);
    ChainSplit(a, b, from);
    EndSequence(a, from);
    AnchorSplit(a, b, from, mid, f.anchor);
  }

  /** Compaction keeps a day's file exactly when it is at most the retention period old. */
  lemma RetentionIsExact(f: Files, now: nat, s: Segment)
    requires Sorted(f.segments) && Compact(f, now).Ok? && s in f.segments
    ensures s in Compact(f, now).value.segments <==> s.day + RETENTION_DAYS >= Day(now)
  {
    var k := Expired(f.segments, Cutoff(now));
    var i :| 0 <= i < |f.segments| && f.segments[i] == s;
    assert Compact(f, now).value.segments == f.segments[k..];
    if i < k {
      forall j | 0 <= j < |f.segments[k..]|
        ensures f.segments[k..][j] != s
      {
        assert f.segments[k..][j] == f.segments[k + j];
      }
    } else {
      assert f.segments[k..][i - k] == s;
      assert i > k ==> f.segments[k].day < f.segments[i].day;
    }
  }

  /** With some expired file left, the log starts at or before the new checkpoint. */
  lemma StaleHead(a: seq<Entry>, b: seq<Entry>, c: seq<Entry>, from: Point)
    requires Chain(a + b + c, from) && b != []
    ensures !Chain(b + c, PointOf(b[|b| - 1]))
  {
    var t, u, p := a + b + c, b + c, PointOf(b[|b| - 1]);
    assert t[|a|] == b[0] == u[0] && t[|a| + |b| - 1] == b[|b| - 1];
    ChainSequence(t, from, |a|);
    ChainSequence(t, from, |a| + |b| - 1);
    assert Chain(u, p) ==> Linked(u, p, 0);
  }

  lemma EntriesThree(a: seq<Segment>, b: seq<Segment>, c: seq<Segment>)
    ensures Entries(a + b + c) == Entries(a) + Entries(b) + Entries(c) && Entries(b + c) == Entries(b) + Entries(c)
  {
    EntriesConcat(a, b);
    EntriesConcat(a + b, c);
    EntriesConcat(b, c);
  }

  lemma CutThree(segs: seq<Segment>, i: nat, k: nat)
    requires i <= k <= |segs|
    ensures segs[..i] + segs[i..k] + segs[k..] == segs && segs[i..k] + segs[k..] == segs[i..]
  {
    assert segs[..i] + segs[i..k] == segs[..k];
    assert segs[..k] + segs[k..] == segs;
  }

  lemma RemainingSplit(segs: seq<Segment>, removed: nat, k: nat)
    requires removed < k <= |segs| && segs[k - 1].entries != []
    ensures var a, b, c := Entries(segs[..removed]), Entries(segs[removed..k]), Entries(segs[k..]);
            && Entries(segs) == a + b + c && Entries(segs[removed..]) == b + c
            && b != [] && PointOf(b[|b| - 1]) == CheckpointOf(segs[k - 1]).at
  {
    var a, b, c := segs[..removed], segs[removed..k], segs[k..];
    CutThree(segs, removed, k);
    EntriesThree(a, b, c);
    assert b[|b| - 1] == segs[k - 1];
    LastOfEntries(b);
  }

  /** A crash between the checkpoint write and the removal of the last expired file leaves a log that
      is rejected; only the complete compaction is accepted. */
  lemma CompactionCrash(f: Files, k: nat, removed: nat)
    requires 0 < k <= |f.segments| && f.segments[k - 1].entries != [] && removed <= k
    requires Accepted(Retained(f), f.checkpoint, f.anchor)
    ensures var g := Compacting(f, k, removed);
            Accepted(Retained(g), g.checkpoint, g.anchor) <==> removed == k
  {
    CompactionKeeps(f, k);
    if removed < k {
      var segs := f.segments;
      RemainingSplit(segs, removed, k);
      StaleHead(Entries(segs[..removed]), Entries(segs[removed..k]), Entries(segs[k..]), Start(f.checkpoint));
    }
  }
}
