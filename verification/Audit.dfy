/** The HMAC-chained audit log: chain verification against anchor and checkpoint, appending, and
    compaction of expired segments (native-host/src/audit.rs).

    HMAC (section 2 of RFC 2104) under the log's one key is a free constructor over the unsigned
    entry, so equal MACs have equal inputs. */
module Audit {
  import opened Base

  const SCHEMA: nat := 2
  const RETENTION_DAYS: nat := 90
  const DAY_MS: nat := 86_400_000

  datatype Body = Body(groupId: Option<Uuid>, event: string, outcome: string, operationId: Option<Uuid>,
                       detail: Option<string>)

  datatype Mac = ZeroMac | MacOf(unsigned: Unsigned)

  datatype Unsigned = Unsigned(schema: nat, sequence: nat, previous: Mac, timestamp: nat, body: Body,
                               eventId: Option<Uuid>)

  datatype Entry = Entry(unsigned: Unsigned, mac: Mac)

  /** One day's file; a directory lists them in ascending order of days. `torn` is whether a last line
      without its newline follows the entries. */
  datatype Segment = Segment(day: nat, entries: seq<Entry>, torn: bool)

  predicate Whole(segs: seq<Segment>) { forall i :: 0 <= i < |segs| ==> !segs[i].torn }

  /** A position in the chain: the anchor, the end of the log, or what a checkpoint keeps. */
  datatype Point = Point(sequence: nat, mac: Mac)

  datatype Checkpoint = Checkpoint(at: Point, archivedThroughDay: nat)

  function Start(cp: Option<Checkpoint>): Point { if cp.Some? then cp.value.at else Point(0, ZeroMac) }

  function Entries(segs: seq<Segment>): seq<Entry> {
    if segs == [] then [] else Entries(segs[..|segs| - 1]) + segs[|segs| - 1].entries
  }

  // ---------------------------------------------------------------------------------------------
  // Verification
  // ---------------------------------------------------------------------------------------------

  predicate Follows(p: Point, e: Entry) {
    && e.unsigned.schema == SCHEMA
    && e.unsigned.sequence == p.sequence + 1
    && e.unsigned.previous == p.mac
    && e.mac == MacOf(e.unsigned)
  }

  function PointOf(e: Entry): Point { Point(e.unsigned.sequence, e.mac) }

  function End(s: seq<Entry>, from: Point): Point { if s == [] then from else PointOf(s[|s| - 1]) }

  predicate Linked(s: seq<Entry>, from: Point, i: nat)
    requires i < |s|
  {
    Follows(if i == 0 then from else PointOf(s[i - 1]), s[i])
  }

  /** Every entry follows the one before it, the first follows `from`. */
  predicate Chain(s: seq<Entry>, from: Point) {
    forall i :: 0 <= i < |s| ==> Linked(s, from, i)
  }

  lemma {:induction false} ChainSequence(s: seq<Entry>, from: Point, i: nat)
    requires Chain(s, from) && i < |s|
    ensures s[i].unsigned.sequence == from.sequence + 1 + i
  {
    assert Linked(s, from, i);
    if i > 0 { ChainSequence(s, from, i - 1); }
  }

  lemma ChainSnoc(s: seq<Entry>, from: Point, e: Entry)
    ensures Chain(s + [e], from) <==> Chain(s, from) && Follows(End(s, from), e)
  {
    var t := s + [e];
    assert forall i :: 0 <= i < |s| ==> t[i] == s[i];
    assert t[|s|] == e;
    if Chain(t, from) {
      forall i | 0 <= i < |s|
        ensures Linked(s, from, i)
      {
        assert Linked(t, from, i);
      }
      assert Linked(t, from, |s|);
    }
    if Chain(s, from) && Follows(End(s, from), e) {
      forall i | 0 <= i < |t|
        ensures Linked(t, from, i)
      {
        assert i < |s| ==> Linked(s, from, i);
      }
    }
  }

  /** The MAC recorded in the anchor is that of the entry with the anchor's sequence, as far as the
      entries reach. */
  predicate AnchorMatches(s: seq<Entry>, from: Point, anchor: Option<Point>) {
    anchor.Some? && from.sequence < anchor.value.sequence <= from.sequence + |s| ==>
      s[anchor.value.sequence - from.sequence - 1].mac == anchor.value.mac
  }

  predicate AnchorReached(n: nat, from: Point, anchor: Option<Point>) {
    anchor.Some? ==> anchor.value.sequence <= from.sequence + n
  }

  predicate Accepted(s: seq<Entry>, cp: Option<Checkpoint>, anchor: Option<Point>) {
    Chain(s, Start(cp)) && AnchorMatches(s, Start(cp), anchor) && AnchorReached(|s|, Start(cp), anchor)
  }

  /** What verification accepts, field by field: version 2 throughout, sequences without a gap from the
      checkpoint on, each entry under the MAC of the one before and under its own, and the anchor's MAC at
      the anchor's sequence, which is not beyond the end. */
  lemma AcceptedIff(s: seq<Entry>, cp: Option<Checkpoint>, anchor: Option<Point>)
    ensures var first, mac := if cp.Some? then cp.value.at.sequence + 1 else 1,
                              if cp.Some? then cp.value.at.mac else ZeroMac;
            Accepted(s, cp, anchor) <==>
              && (forall i :: 0 <= i < |s| ==>
                    && s[i].unsigned.schema == 2 && s[i].unsigned.sequence == first + i
                    && s[i].unsigned.previous == (if i == 0 then mac else s[i - 1].mac)
                    && s[i].mac == MacOf(s[i].unsigned))
              && (anchor.Some? ==>
                    && anchor.value.sequence < first + |s|
                    && (anchor.value.sequence >= first ==> s[anchor.value.sequence - first].mac == anchor.value.mac))
  {
    var from := Start(cp);
    if Chain(s, from) {
      forall i | 0 <= i < |s|
        ensures s[i].unsigned.sequence == from.sequence + 1 + i && Linked(s, from, i)
      {
        ChainSequence(s, from, i);
      }
    }
  }

  lemma PrefixChecked(a: seq<Entry>, b: seq<Entry>, from: Point, anchor: Option<Point>)
    requires Chain(a + b, from) && AnchorMatches(a + b, from, anchor)
    ensures Chain(a, from) && AnchorMatches(a, from, anchor)
  {
    var t := a + b;
    forall i | 0 <= i < |a|
      ensures Linked(a, from, i)
    {
      assert Linked(t, from, i);
    }
  }

  /** Splits the whole log at entry j of segment i. */
  lemma {:induction false} EntriesSplit(segs: seq<Segment>, i: nat)
    requires i <= |segs|
    ensures exists rest :: Entries(segs) == Entries(segs[..i]) + rest
    decreases |segs|
  {
    if i == |segs| {
      assert segs[..i] == segs;
      assert Entries(segs) == Entries(segs[..i]) + [];
    } else {
      var t := segs[..|segs| - 1];
      EntriesSplit(t, i);
      var rest :| Entries(t) == Entries(t[..i]) + rest;
      assert t[..i] == segs[..i];
      assert Entries(segs) == Entries(segs[..i]) + (rest + segs[|segs| - 1].entries);
    }
  }

  /** What follows entry j of segment i. */
  lemma RestAfter(segs: seq<Segment>, i: nat, j: nat) returns (rest: seq<Entry>)
    requires i < |segs| && j < |segs[i].entries|
    ensures Entries(segs) == Entries(segs[..i]) + segs[i].entries[..j + 1] + rest
  {
    EntriesSplit(segs, i + 1);
    var later :| Entries(segs) == Entries(segs[..i + 1]) + later;
    assert segs[..i + 1][..i] == segs[..i];
    var lines := segs[i].entries;
    assert lines == lines[..j + 1] + lines[j + 1..];
    rest := lines[j + 1..] + later;
  }

  lemma RejectEarly(segs: seq<Segment>, i: nat, j: nat, from: Point, anchor: Option<Point>)
    requires i < |segs| && j < |segs[i].entries|
    requires var done := Entries(segs[..i]) + segs[i].entries[..j + 1];
             !Chain(done, from) || !AnchorMatches(done, from, anchor)
    ensures !Chain(Entries(segs), from) || !AnchorMatches(Entries(segs), from, anchor)
  {
    var rest := RestAfter(segs, i, j);
    if Chain(Entries(segs), from) && AnchorMatches(Entries(segs), from, anchor) {
      PrefixChecked(Entries(segs[..i]) + segs[i].entries[..j + 1], rest, from, anchor);
    }
  }

  /** Progress of the loop: everything read so far is a chain that agrees with the anchor. */
  ghost predicate Verified(done: seq<Entry>, from: Point, anchor: Option<Point>, expected: nat, previous: Mac,
                           matched: bool) {
    && Chain(done, from) && AnchorMatches(done, from, anchor)
    && expected == from.sequence + |done| + 1 && End(done, from).mac == previous
    && End(done, from).sequence + 1 == expected
    && (matched <==> AnchorReached(|done|, from, anchor))
  }

  lemma VerifiedNext(done: seq<Entry>, from: Point, anchor: Option<Point>, previous: Mac, matched: bool, e: Entry)
    requires Verified(done, from, anchor, from.sequence + |done| + 1, previous, matched)
    ensures Chain(done + [e], from) <==> Follows(Point(from.sequence + |done|, previous), e)
    ensures AnchorMatches(done + [e], from, anchor) <==>
              (anchor.Some? && anchor.value.sequence == from.sequence + |done| + 1 ==> anchor.value.mac == e.mac)
    ensures Chain(done + [e], from) && AnchorMatches(done + [e], from, anchor) ==>
              Verified(done + [e], from, anchor, from.sequence + |done| + 2, e.mac,
                       matched || (anchor.Some? && anchor.value.sequence == from.sequence + |done| + 1))
  {
    ChainSnoc(done, from, e);
    var t := done + [e];
    assert t[|done|] == e;
    assert forall i :: 0 <= i < |done| ==> t[i] == done[i];
  }

  method VerifyChain(segs: seq<Segment>, anchor: Option<Point>, cp: Option<Checkpoint>) returns (r: Result<Point>)
    ensures r.Ok? <==> Whole(segs) && Accepted(Entries(segs), cp, anchor)
    ensures r.Ok? ==> r.value == End(Entries(segs), Start(cp))
    ensures r.Err? ==> r.error == Format
  {
    ghost var from := Start(cp);
    var expected: nat := if cp.Some? then cp.value.at.sequence + 1 else 1;
    var previous := if cp.Some? then cp.value.at.mac else ZeroMac;
    var matched := anchor.None? || anchor.value.sequence <= (if cp.Some? then cp.value.at.sequence else 0);
    for i := 0 to |segs|
      invariant forall k :: 0 <= k < i ==> !segs[k].torn
      invariant Verified(Entries(segs[..i]), from, anchor, expected, previous, matched)
    {
      if segs[i].torn { return Err(Format); }
      var lines := segs[i].entries;
      assert lines[..0] == [] && Entries(segs[..i]) + [] == Entries(segs[..i]);
      for j := 0 to |lines|
        invariant Verified(Entries(segs[..i]) + lines[..j], from, anchor, expected, previous, matched)
      {
        var e := lines[j];
        ghost var done := Entries(segs[..i]) + lines[..j];
        assert done + [e] == Entries(segs[..i]) + lines[..j + 1];
        VerifiedNext(done, from, anchor, previous, matched, e);
        if e.unsigned.schema != SCHEMA || e.unsigned.sequence != expected || e.unsigned.previous != previous ||
           e.mac != MacOf(e.unsigned) {
          RejectEarly(segs, i, j, from, anchor);
          return Err(Format);
        }
        previous := e.mac;
        if anchor.Some? && anchor.value.sequence == e.unsigned.sequence {
          if anchor.value.mac != e.mac {
            RejectEarly(segs, i, j, from, anchor);
            return Err(Format);
          }
          matched := true;
        }
        expected := expected + 1;
      }
      assert lines[..|lines|] == lines && segs[..i + 1][..i] == segs[..i];
    }
    assert segs[..|segs|] == segs;
    var sequence := expected - 1;
    if anchor.Some? && (anchor.value.sequence > sequence || !matched) { return Err(Format); }
    return Ok(Point(sequence, previous));
  }

  /** Equal MACs at one position fix everything before it. */
  lemma {:induction false} SameMacSamePast(a: seq<Entry>, b: seq<Entry>, from: Point, k: nat)
    requires Chain(a, from) && Chain(b, from) && k < |a| && k < |b| && a[k].mac == b[k].mac
    ensures forall i :: 0 <= i <= k ==> a[i] == b[i]
  {
    assert Linked(a, from, k) && Linked(b, from, k);
    if k > 0 { SameMacSamePast(a, b, from, k - 1); }
  }

  /** Two logs accepted with the same checkpoint and anchor agree entry for entry up to the anchor. */
  lemma AgreeUpToAnchor(a: seq<Entry>, b: seq<Entry>, cp: Option<Checkpoint>, anchor: Point)
    requires Accepted(a, cp, Some(anchor)) && Accepted(b, cp, Some(anchor)) && anchor.sequence > Start(cp).sequence
    ensures var n := anchor.sequence - Start(cp).sequence;
            n <= |a| && n <= |b| && a[..n] == b[..n]
  {
    SameMacSamePast(a, b, Start(cp), anchor.sequence - Start(cp).sequence - 1);
  }

  /** So a log that is shorter than the anchor, or differs from the accepted one anywhere below it, is
      rejected. */
  lemma TamperingIsRejected(a: seq<Entry>, b: seq<Entry>, cp: Option<Checkpoint>, anchor: Point)
    requires Accepted(a, cp, Some(anchor)) && anchor.sequence > Start(cp).sequence
    requires var n := anchor.sequence - Start(cp).sequence; |b| < n || a[..n] != b[..n]
    ensures !Accepted(b, cp, Some(anchor))
  {
    if Accepted(b, cp, Some(anchor)) { AgreeUpToAnchor(a, b, cp, anchor); }
  }
}
