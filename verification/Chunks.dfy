/** Cutting a record list into chunks and putting it together again
    (extension/src/cookie-chunks.ts, native-host/src/dispatcher.rs). */
module Chunks {
  import opened Base
  import EngineSpec
  import RemovalHost

  const TARGET: nat := 409_600
  const MAX_CHUNKS: nat := 65_536
  const MAX_RECORDS: nat := 100_000

  // ---------------------------------------------------------------------------------------------
  // Cutting
  // ---------------------------------------------------------------------------------------------

  /** Bytes of the records of a chunk as JSON, with the commas between them. */
  function Inner<T>(size: T -> nat, c: seq<T>): nat {
    if c == [] then 0
    else if |c| == 1 then size(c[0])
    else Inner(size, c[..|c| - 1]) + 1 + size(c[|c| - 1])
  }

  /** Bytes of a chunk encoded as a JSON array. */
  function Encoded<T>(size: T -> nat, c: seq<T>): nat { 2 + Inner(size, c) }

  lemma InnerSnoc<T>(size: T -> nat, c: seq<T>, r: T)
    ensures Inner(size, c + [r]) == if c == [] then size(r) else Inner(size, c) + 1 + size(r)
  {
    assert (c + [r])[..|c|] == c;
  }

  /** Every record fits beside the comma before it; the first one has none. */
  predicate Fits<T>(size: T -> nat, records: seq<T>) {
    forall i :: 0 <= i < |records| ==> size(records[i]) + (if i == 0 then 0 else 1) <= TARGET
  }

  function Pair<T>(size: T -> nat, chunks: seq<seq<T>>, i: nat): nat
    requires i + 1 < |chunks|
  {
    Encoded(size, chunks[i]) + Encoded(size, chunks[i + 1])
  }

  /** Two neighbouring chunks together exceed the target. */
  predicate Tight<T>(size: T -> nat, chunks: seq<seq<T>>) {
    forall i :: 0 <= i < |chunks| - 1 ==> Pair(size, chunks, i) > TARGET
  }

  predicate Bounded<T>(size: T -> nat, chunks: seq<seq<T>>) {
    forall i :: 0 <= i < |chunks| ==> Encoded(size, chunks[i]) <= TARGET + 2
  }

  predicate NonEmpty<T(==)>(chunks: seq<seq<T>>) { forall i :: 0 <= i < |chunks| ==> chunks[i] != [] }

  predicate IsChunking<T(==)>(size: T -> nat, records: seq<T>, chunks: seq<seq<T>>) {
    && Flatten(chunks) == records
    && (if records == [] then chunks == [[]] else chunks != [] && NonEmpty(chunks))
    && Bounded(size, chunks) && Tight(size, chunks)
  }

  lemma TightSnoc<T>(size: T -> nat, chunks: seq<seq<T>>, c: seq<T>)
    requires Tight(size, chunks) && (chunks != [] ==> Encoded(size, chunks[|chunks| - 1]) + Encoded(size, c) > TARGET)
    ensures Tight(size, chunks + [c])
  {
    var t := chunks + [c];
    forall i | 0 <= i < |t| - 1
      ensures Pair(size, t, i) > TARGET
    {
      assert i + 1 < |chunks| ==> Pair(size, t, i) == Pair(size, chunks, i);
    }
  }

  /** The chunker's state after the records in `done`: the chunks closed so far and the open one. The
      running byte count may be one too high, because a record that opens a chunk keeps the comma it
      was measured with. */
  ghost predicate Progress<T>(size: T -> nat, done: seq<T>, chunks: seq<seq<T>>, current: seq<T>, bytes: nat) {
    && Flatten(chunks) + current == done
    && (done != [] ==> current != []) && (done == [] ==> chunks == [])
    && Encoded(size, current) <= bytes <= Encoded(size, current) + 1
    && Encoded(size, current) <= TARGET + 2
    && NonEmpty(chunks) && Bounded(size, chunks) && Tight(size, chunks)
    && (chunks != [] ==> Encoded(size, chunks[|chunks| - 1]) + Encoded(size, current) > TARGET)
  }

  lemma ProgressPush<T>(size: T -> nat, done: seq<T>, chunks: seq<seq<T>>, current: seq<T>, bytes: nat, r: T)
    requires Progress(size, done, chunks, current, bytes)
    requires var more := size(r) + (if current == [] then 0 else 1);
             more <= TARGET && (current == [] || bytes + more <= TARGET)
    ensures Progress(size, done + [r], chunks, current + [r], bytes + size(r) + (if current == [] then 0 else 1))
  {
    InnerSnoc(size, current, r);
    assert Flatten(chunks) + (current + [r]) == done + [r];
  }

  lemma ProgressCut<T>(size: T -> nat, done: seq<T>, chunks: seq<seq<T>>, current: seq<T>, bytes: nat, r: T)
    requires Progress(size, done, chunks, current, bytes) && current != []
    requires size(r) + 1 <= TARGET < bytes + size(r) + 1
    ensures Progress(size, done + [r], chunks + [current], [r], 2 + size(r) + 1)
  {
    TightSnoc(size, chunks, current);
    FlattenSnoc(chunks, current);
    InnerSnoc(size, [], r);
    assert [] + [r] == [r];
  }

  lemma ProgressClose<T>(size: T -> nat, done: seq<T>, chunks: seq<seq<T>>, current: seq<T>, bytes: nat)
    requires Progress(size, done, chunks, current, bytes) && done != []
    ensures IsChunking(size, done, chunks + [current])
  {
    TightSnoc(size, chunks, current);
    FlattenSnoc(chunks, current);
  }

  lemma FitsNext<T>(size: T -> nat, records: seq<T>, i: nat)
    requires i < |records| && Fits(size, records[..i])
    ensures Fits(size, records[..i + 1]) <==> size(records[i]) + (if i == 0 then 0 else 1) <= TARGET
    ensures !Fits(size, records[..i + 1]) ==> !Fits(size, records)
  {
    var t := records[..i + 1];
    assert t[i] == records[i] && forall k :: 0 <= k < i ==> t[k] == records[..i][k];
  }

  /** One turn of the loop: the record joins the open chunk, or closes it and opens the next. */
  method AddRecord<T(==)>(size: T -> nat, ghost done: seq<T>, chunks: seq<seq<T>>, current: seq<T>, currentBytes: nat,
                          record: T)
    returns (chunks': seq<seq<T>>, current': seq<T>, bytes': nat)
    requires Progress(size, done, chunks, current, currentBytes)
    requires size(record) + (if current == [] then 0 else 1) <= TARGET
    ensures Progress(size, done + [record], chunks', current', bytes')
  {
    var bytes := size(record) + (if |current| == 0 then 0 else 1);
    if |current| > 0 && currentBytes + bytes > TARGET {
      ProgressCut(size, done, chunks, current, currentBytes, record);
      return chunks + [current], [record], 2 + bytes;
    }
    ProgressPush(size, done, chunks, current, currentBytes, record);
    return chunks, current + [record], currentBytes + bytes;
  }

  method ChunkRecords<T(==)>(size: T -> nat, records: seq<T>) returns (r: Result<seq<seq<T>>>)
    ensures r.Ok? <==> Fits(size, records)
    ensures r.Ok? ==> IsChunking(size, records, r.value)
  {
    if |records| == 0 { return Ok([[]]); }
    var chunks: seq<seq<T>>, current: seq<T>, currentBytes: nat := [], [], 2;
    for i := 0 to |records|
      invariant Fits(size, records[..i])
      invariant Progress(size, records[..i], chunks, current, currentBytes)
    {
      FitsNext(size, records, i);
      OpenChunk(size, records[..i], chunks, current, currentBytes);
      if size(records[i]) + (if |current| == 0 then 0 else 1) > TARGET { return Err(Protocol); }
      chunks, current, currentBytes := AddRecord(size, records[..i], chunks, current, currentBytes, records[i]);
      assert records[..i + 1] == records[..i] + [records[i]];
    }
    assert records[..|records|] == records;
    ProgressClose(size, records, chunks, current, currentBytes);
    return Ok(chunks + [current]);
  }

  lemma OpenChunk<T>(size: T -> nat, done: seq<T>, chunks: seq<seq<T>>, current: seq<T>, bytes: nat)
    requires Progress(size, done, chunks, current, bytes)
    ensures current == [] <==> done == []
  {
  }

  lemma FlattenSnoc<T>(chunks: seq<seq<T>>, c: seq<T>)
    ensures Flatten(chunks + [c]) == Flatten(chunks) + c
  {
    assert (chunks + [c])[..|chunks|] == chunks;
  }

  function TotalEncoded<T>(size: T -> nat, chunks: seq<seq<T>>): nat {
    if chunks == [] then 0 else Encoded(size, chunks[0]) + TotalEncoded(size, chunks[1..])
  }

  /** At most 2 * total / target + 1 chunks. */
  lemma {:induction false} ChunkCount<T>(size: T -> nat, chunks: seq<seq<T>>)
    requires Tight(size, chunks)
    ensures |chunks| > 0 ==> (|chunks| - 1) * TARGET <= 2 * TotalEncoded(size, chunks)
    decreases |chunks|
  {
    if |chunks| >= 2 {
      var rest := chunks[2..];
      assert chunks[1..][1..] == rest && chunks[1..][0] == chunks[1];
      forall i | 0 <= i < |rest| - 1
        ensures Pair(size, rest, i) > TARGET
      {
        assert Pair(size, rest, i) == Pair(size, chunks, i + 2);
      }
      ChunkCount(size, rest);
      assert Pair(size, chunks, 0) > TARGET;
    }
  }

  /** So a snapshot within the host's byte limit never exceeds its chunk limit. */
  lemma ChunkLimitNeverHit<T>(size: T -> nat, records: seq<T>, chunks: seq<seq<T>>)
    requires IsChunking(size, records, chunks) && TotalEncoded(size, chunks) <= EngineSpec.MAX_SNAPSHOT_BYTES
    ensures |chunks| <= 164 < MAX_CHUNKS
  {
    ChunkCount(size, chunks);
    assert TARGET == 409_600 && EngineSpec.MAX_SNAPSHOT_BYTES == 33_554_432;
    AtMost164(|chunks|, TotalEncoded(size, chunks));
  }

  lemma AtMost164(n: nat, total: nat)
    requires n > 0 && (n - 1) * 409_600 <= 2 * total && total <= 33_554_432
    ensures n <= 164
  {
  }

  // ---------------------------------------------------------------------------------------------
  // Assembling in the extension
  // ---------------------------------------------------------------------------------------------

  datatype Pending<T> = Pending(leaseId: string, chunkCount: nat, recordCount: nat, nextChunk: nat, records: seq<T>)

  datatype Piece<T> = Piece(key: string, leaseId: string, chunkIndex: nat, chunkCount: nat, recordCount: nat,
                            records: seq<T>)

  /** One transfer's buffer before and after a piece; None means that no transfer is pending. */
  function Accept<T>(pending: Option<Pending<T>>, m: Piece<T>): (Option<Pending<T>>, Result<Option<seq<T>>>) {
    if m.chunkCount < 1 || m.chunkCount > MAX_CHUNKS || m.recordCount > MAX_RECORDS then (pending, Err(Protocol))
    else if pending.None? && m.chunkIndex != 0 then (pending, Err(Protocol))
    else
      var p := if pending.Some? then pending.value else Pending(m.leaseId, m.chunkCount, m.recordCount, 0, []);
      if p.leaseId != m.leaseId || p.chunkCount != m.chunkCount || p.recordCount != m.recordCount ||
         p.nextChunk != m.chunkIndex then (None, Err(Protocol))
      else if m.chunkIndex + 1 < m.chunkCount && |m.records| == 0 then (Some(p), Err(Protocol))
      else if |p.records| + |m.records| > m.recordCount then (Some(p), Err(Protocol))
      else
        var q := p.(records := p.records + m.records, nextChunk := p.nextChunk + 1);
        if q.nextChunk < m.chunkCount then (Some(q), Ok(None))
        else (None, if |q.records| != m.recordCount then Err(Protocol) else Ok(Some(q.records)))
  }

  function Lookup<T>(pending: map<string, Pending<T>>, key: string): Option<Pending<T>> {
    if key in pending then Some(pending[key]) else None
  }

  function Update<T>(pending: map<string, Pending<T>>, key: string, p: Option<Pending<T>>): map<string, Pending<T>> {
    if p.Some? then pending[key := p.value] else pending - {key}
  }

  class OrderedChunkAssembler<T(==)> {
    var pending: map<string, Pending<T>>

    constructor ()
      ensures pending == map[]
    {
      pending := map[];
    }

    method Receive(m: Piece<T>) returns (r: Result<Option<seq<T>>>)
      modifies this
      ensures var (p, answer) := Accept(Lookup(old(pending), m.key), m);
              r == answer && pending == Update(old(pending), m.key, p)
    {
      if m.chunkCount < 1 || m.chunkCount > MAX_CHUNKS || m.recordCount > MAX_RECORDS {
        assert m.key !in pending ==> pending - {m.key} == pending;
        return Err(Protocol);
      }
      if m.key !in pending {
        assert pending - {m.key} == pending;
        if m.chunkIndex != 0 { return Err(Protocol); }
        pending := pending[m.key := Pending(m.leaseId, m.chunkCount, m.recordCount, 0, [])];
      }
      var current := pending[m.key];
      assert pending - {m.key} == old(pending) - {m.key};
      if current.leaseId != m.leaseId || current.chunkCount != m.chunkCount || current.recordCount != m.recordCount ||
         current.nextChunk != m.chunkIndex {
        pending := pending - {m.key};
        return Err(Protocol);
      }
      if m.chunkIndex + 1 < m.chunkCount && |m.records| == 0 { return Err(Protocol); }
      if |current.records| + |m.records| > m.recordCount { return Err(Protocol); }
      current := current.(records := current.records + m.records).(nextChunk := current.nextChunk + 1);
      pending := pending[m.key := current];
      if current.nextChunk < m.chunkCount { return Ok(None); }
      pending := pending - {m.key};
      if |current.records| != m.recordCount { return Err(Protocol); }
      return Ok(Some(current.records));
    }
  }

  // ---------------------------------------------------------------------------------------------
  // Round trip
  // ---------------------------------------------------------------------------------------------

  /** The pieces of a record list sent under one key. */
  function PieceAt<T>(key: string, leaseId: string, records: seq<T>, chunks: seq<seq<T>>, i: nat): Piece<T>
    requires i < |chunks|
  {
    Piece(key, leaseId, i, |chunks|, |records|, chunks[i])
  }

  /** The buffer after the first n pieces. */
  function Halfway<T>(leaseId: string, records: seq<T>, chunks: seq<seq<T>>, n: nat): Option<Pending<T>>
    requires n <= |chunks|
  {
    if n == 0 || n == |chunks| then None else Some(Pending(leaseId, |chunks|, |records|, n, Flatten(chunks[..n])))
  }

  /** Each piece is accepted, and the last one returns exactly the records. */
  lemma PieceAccepted<T>(size: T -> nat, key: string, leaseId: string, records: seq<T>, chunks: seq<seq<T>>, n: nat)
    requires IsChunking(size, records, chunks) && |records| <= MAX_RECORDS && n < |chunks| <= MAX_CHUNKS
    ensures Accept(Halfway(leaseId, records, chunks, n), PieceAt(key, leaseId, records, chunks, n)) ==
              (Halfway(leaseId, records, chunks, n + 1), Ok(if n + 1 == |chunks| then Some(records) else None))
  {
    FlattenNext(chunks, n);
    FlattenPrefix(chunks, n + 1);
    assert n == 0 ==> Flatten(chunks[..n]) == [];
    assert chunks[..|chunks|] == chunks;
  }

  /** All messages on one connection, whatever their keys: the answers to one key's pieces. */
  function Answers<T>(pending: map<string, Pending<T>>, pieces: seq<Piece<T>>, key: string): seq<Result<Option<seq<T>>>>
    decreases |pieces|
  {
    if pieces == [] then []
    else
      var (p, answer) := Accept(Lookup(pending, pieces[0].key), pieces[0]);
      var rest := Answers(Update(pending, pieces[0].key, p), pieces[1..], key);
      if pieces[0].key == key then [answer] + rest else rest
  }

  /** The answers to the pieces of a single transfer. */
  function AnswersAlone<T>(pending: Option<Pending<T>>, pieces: seq<Piece<T>>): seq<Result<Option<seq<T>>>>
    decreases |pieces|
  {
    if pieces == [] then []
    else
      var (p, answer) := Accept(pending, pieces[0]);
      [answer] + AnswersAlone(p, pieces[1..])
  }

  function OfKey<T>(pieces: seq<Piece<T>>, key: string): seq<Piece<T>> {
    if pieces == [] then [] else if pieces[0].key == key then [pieces[0]] + OfKey(pieces[1..], key)
    else OfKey(pieces[1..], key)
  }

  /** Transfers under different keys never mix: each key is answered as if it were alone. */
  lemma {:induction false} KeysNeverMix<T>(pending: map<string, Pending<T>>, pieces: seq<Piece<T>>, key: string)
    ensures Answers(pending, pieces, key) == AnswersAlone(Lookup(pending, key), OfKey(pieces, key))
    decreases |pieces|
  {
    if pieces != [] {
      var m := pieces[0];
      var (p, answer) := Accept(Lookup(pending, m.key), m);
      var next := Update(pending, m.key, p);
      KeysNeverMix(next, pieces[1..], key);
      if m.key == key {
        assert Lookup(next, key) == p;
        assert OfKey(pieces, key)[1..] == OfKey(pieces[1..], key);
      } else {
        assert Lookup(next, key) == Lookup(pending, key);
      }
    }
  }

  function Pieces<T>(key: string, leaseId: string, records: seq<T>, chunks: seq<seq<T>>, n: nat): seq<Piece<T>>
    requires n <= |chunks|
    decreases |chunks| - n
  {
    if n == |chunks| then []
    else [PieceAt(key, leaseId, records, chunks, n)] + Pieces(key, leaseId, records, chunks, n + 1)
  }

  lemma {:induction false} AssembleAlone<T>(size: T -> nat, key: string, leaseId: string, records: seq<T>,
                                            chunks: seq<seq<T>>, n: nat)
    requires IsChunking(size, records, chunks) && |records| <= MAX_RECORDS && n < |chunks| <= MAX_CHUNKS
    ensures var answers := AnswersAlone(Halfway(leaseId, records, chunks, n), Pieces(key, leaseId, records, chunks, n));
            |answers| == |chunks| - n && answers[|answers| - 1] == Ok(Some(records))
            && forall i :: 0 <= i < |answers| - 1 ==> answers[i] == Ok(None)
    decreases |chunks| - n
  {
    PieceAccepted(size, key, leaseId, records, chunks, n);
    var ps := Pieces(key, leaseId, records, chunks, n);
    assert ps[1..] == Pieces(key, leaseId, records, chunks, n + 1);
    if n + 1 < |chunks| {
      AssembleAlone(size, key, leaseId, records, chunks, n + 1);
    }
  }

  /** Chunking followed by assembling is the identity, under any interleaving with other transfers. */
  lemma ChunkThenAssemble<T>(size: T -> nat, key: string, leaseId: string, records: seq<T>, chunks: seq<seq<T>>,
                             pending: map<string, Pending<T>>, pieces: seq<Piece<T>>)
    requires IsChunking(size, records, chunks) && |records| <= MAX_RECORDS && |chunks| <= MAX_CHUNKS
    requires key !in pending && OfKey(pieces, key) == Pieces(key, leaseId, records, chunks, 0)
    ensures var answers := Answers(pending, pieces, key);
            |answers| == |chunks| && answers[|answers| - 1] == Ok(Some(records))
            && forall i :: 0 <= i < |answers| - 1 ==> answers[i] == Ok(None)
  {
    KeysNeverMix(pending, pieces, key);
    AssembleAlone(size, key, leaseId, records, chunks, 0);
  }

  // ---------------------------------------------------------------------------------------------
  // Any pieces at all
  // ---------------------------------------------------------------------------------------------

  function RecordsOf<T>(ps: seq<Piece<T>>): seq<T> {
    if ps == [] then [] else RecordsOf(ps[..|ps| - 1]) + ps[|ps| - 1].records
  }

  /** Piece i has its place, is announced as the first one was, is not empty unless it is the last, and what
      has come with it stays within the announced number of records, which the last one reaches. */
  predicate InPlace<T(==)>(ps: seq<Piece<T>>, i: nat)
    requires i < |ps|
  {
    && 1 <= ps[i].chunkCount <= 65_536 && ps[i].recordCount <= 100_000
    && ps[i].leaseId == ps[0].leaseId && ps[i].chunkCount == ps[0].chunkCount
    && ps[i].recordCount == ps[0].recordCount && ps[i].chunkIndex == i
    && (i + 1 < ps[0].chunkCount ==> ps[i].records != [])
    && |RecordsOf(ps[..i + 1])| <= ps[0].recordCount
    && (i + 1 == ps[0].chunkCount ==> |RecordsOf(ps[..i + 1])| == ps[0].recordCount)
  }

  predicate Transfer<T(==)>(ps: seq<Piece<T>>) { forall i :: 0 <= i < |ps| ==> InPlace(ps, i) }

  /** The buffer of one transfer after these pieces, and whether every one was taken. */
  function Taken<T>(ps: seq<Piece<T>>): (Option<Pending<T>>, bool) {
    if ps == [] then (None, true)
    else
      var (p, ok) := Taken(ps[..|ps| - 1]);
      var (n, r) := Accept(p, ps[|ps| - 1]);
      (n, ok && r.Ok?)
  }

  /** The buffer that a well-formed transfer leaves: none before it and after its end. */
  function BufferOf<T>(ps: seq<Piece<T>>): Option<Pending<T>> {
    if ps == [] || |ps| == ps[0].chunkCount then None
    else Some(Pending(ps[0].leaseId, ps[0].chunkCount, ps[0].recordCount, |ps|, RecordsOf(ps)))
  }

  lemma TransferSnoc<T>(ps: seq<Piece<T>>)
    requires ps != []
    ensures Transfer(ps) <==> Transfer(ps[..|ps| - 1]) && InPlace(ps, |ps| - 1)
  {
    var before := ps[..|ps| - 1];
    forall i: nat | i < |before|
      ensures InPlace(ps, i) <==> InPlace(before, i)
    {
      assert before[..i + 1] == ps[..i + 1];
    }
  }

  lemma TakenFirst<T>(m: Piece<T>)
    ensures var (n, r) := Accept(None, m);
            && (r.Ok? <==> InPlace([m], 0)) && (r.Ok? ==> n == BufferOf([m]))
            && (r.Ok? ==> r.value == if 1 == m.chunkCount then Some(m.records) else None)
  {
    assert [m][..1] == [m] && [m][..0] == [];
    assert RecordsOf([m]) == m.records;
  }

  /** The tests of a piece that continues a transfer, put together. */
  predicate Continues<T(==)>(p: Pending<T>, m: Piece<T>) {
    && 1 <= m.chunkCount <= 65_536 && m.recordCount <= 100_000
    && m.leaseId == p.leaseId && m.chunkCount == p.chunkCount && m.recordCount == p.recordCount
    && m.chunkIndex == p.nextChunk
    && (m.chunkIndex + 1 < m.chunkCount ==> m.records != [])
    && |p.records| + |m.records| <= m.recordCount
    && (m.chunkIndex + 1 >= m.chunkCount ==> |p.records| + |m.records| == m.recordCount)
  }

  lemma ContinuesIff<T>(p: Pending<T>, m: Piece<T>)
    ensures var (n, r) := Accept(Some(p), m);
            var all := p.records + m.records;
            && (r.Ok? <==> Continues(p, m))
            && (r.Ok? ==> (n, r) == if m.chunkIndex + 1 < m.chunkCount then
                                      (Some(p.(records := all, nextChunk := p.nextChunk + 1)), Ok(None))
                                    else (None, Ok(Some(all))))
  {
  }

  lemma TakenLater<T>(p: Pending<T>, ps: seq<Piece<T>>)
    requires |ps| > 1 && |ps| - 1 < ps[0].chunkCount && InPlace(ps[..|ps| - 1], 0)
    requires p == Pending(ps[0].leaseId, ps[0].chunkCount, ps[0].recordCount, |ps| - 1, RecordsOf(ps[..|ps| - 1]))
    ensures var (n, r) := Accept(Some(p), ps[|ps| - 1]);
            && (r.Ok? <==> InPlace(ps, |ps| - 1)) && (r.Ok? ==> n == BufferOf(ps))
            && (r.Ok? ==> r.value == if |ps| == ps[0].chunkCount then Some(RecordsOf(ps)) else None)
  {
    ContinuesIff(p, ps[|ps| - 1]);
    assert ps[..|ps|] == ps;
  }

  lemma TakenStep<T>(ps: seq<Piece<T>>)
    requires ps != [] && |ps| - 1 < ps[0].chunkCount && Transfer(ps[..|ps| - 1])
    ensures var (n, r) := Accept(BufferOf(ps[..|ps| - 1]), ps[|ps| - 1]);
            && (r.Ok? <==> Transfer(ps)) && (r.Ok? ==> n == BufferOf(ps))
            && (r.Ok? ==> r.value == if |ps| == ps[0].chunkCount then Some(RecordsOf(ps)) else None)
  {
    TransferSnoc(ps);
    if |ps| == 1 {
      TakenFirst(ps[0]);
      assert ps == [ps[0]] && RecordsOf(ps) == ps[0].records;
    } else {
      TakenLater(BufferOf(ps[..|ps| - 1]).value, ps);
    }
  }

  /** Whatever pieces arrive for a new transfer, up to its announced number all of them are taken if and only
      if they are the beginning of one well-formed transfer; it ends with exactly their records in order. */
  lemma {:induction false} TakenIff<T>(ps: seq<Piece<T>>)
    requires ps != [] ==> |ps| <= ps[0].chunkCount
    ensures Taken(ps).1 <==> Transfer(ps)
    ensures Transfer(ps) ==> Taken(ps).0 == BufferOf(ps)
    ensures Transfer(ps) && ps != [] ==>
              Accept(Taken(ps[..|ps| - 1]).0, ps[|ps| - 1]).1 ==
                Ok(if |ps| == ps[0].chunkCount then Some(RecordsOf(ps)) else None)
  {
    if ps != [] {
      TakenIff(ps[..|ps| - 1]);
      TransferSnoc(ps);
      if Transfer(ps[..|ps| - 1]) { TakenStep(ps); }
    }
  }

  /** A piece that does not continue the pending transfer ends it: nothing of it is kept, and only a first
      piece is taken next. */
  lemma MisplacedEnds<T>(p: Pending<T>, m: Piece<T>, next: Piece<T>)
    requires 1 <= m.chunkCount <= 65_536 && m.recordCount <= 100_000
    requires m.chunkIndex != p.nextChunk || m.leaseId != p.leaseId || m.chunkCount != p.chunkCount
             || m.recordCount != p.recordCount
    ensures Accept(Some(p), m) == (None, Err(Protocol))
    ensures next.chunkIndex != 0 ==> Accept(None, next) == (None, Err(Protocol))
  {
  }

  // ---------------------------------------------------------------------------------------------
  // Assembling in the host
  // ---------------------------------------------------------------------------------------------

  function Sum(sizes: seq<nat>): nat { if sizes == [] then 0 else Sum(sizes[..|sizes| - 1]) + sizes[|sizes| - 1] }

  lemma {:induction false} SumPrefix(sizes: seq<nat>, i: nat)
    requires i < |sizes|
    ensures Sum(sizes[..i + 1]) == Sum(sizes[..i]) + sizes[i] <= Sum(sizes)
    decreases |sizes| - i
  {
    assert sizes[..i + 1][..i] == sizes[..i];
    if i + 1 < |sizes| { SumPrefix(sizes, i + 1); } else { assert sizes[..i + 1] == sizes; }
  }

  /** The host's removal buffer after the first n chunks of a prepare. */
  function HostBuffer(q: EngineSpec.Pending, p: RemovalHost.Prepare, n: nat): (EngineSpec.Pending, bool)
    requires p.Valid() && n <= |p.chunks|
  {
    if n == 0 then (q, true)
    else
      var (q', ok) := HostBuffer(q, p, n - 1);
      var (q'', r) := EngineSpec.AppendV7Chunk(q', RemovalHost.ChunkAt(p, n - 1));
      (q'', ok && r.Ok?)
  }

  /** Within the host's limits every chunk of a prepare is taken, and the buffer ends as the snapshot. */
  lemma {:induction false} HostAssembles(q: EngineSpec.Pending, p: RemovalHost.Prepare, n: nat)
    requires p.Valid() && n <= |p.chunks| <= EngineSpec.MAX_CHUNKS
    requires |Flatten(p.chunks)| <= EngineSpec.MAX_SNAPSHOT_COOKIES
    requires Sum(p.sizes) <= EngineSpec.MAX_SNAPSHOT_BYTES
    requires q.nextChunk == 0 && q.cookies == [] && q.bytes == 0 && q.chunkCount.None?
    ensures var (r, ok) := HostBuffer(q, p, n);
            && ok && r.nextChunk == n && r.cookies == Flatten(p.chunks[..n]) && r.bytes == Sum(p.sizes[..n])
            && (r.chunkCount.Some? ==> r.chunkCount.value == |p.chunks|)
            && (n == |p.chunks| ==> r.cookies == Flatten(p.chunks))
  {
    if n > 0 {
      HostAssembles(q, p, n - 1);
      FlattenNext(p.chunks, n - 1);
      FlattenPrefix(p.chunks, n);
      SumPrefix(p.sizes, n - 1);
    }
    assert p.chunks[..|p.chunks|] == p.chunks;
  }
}
