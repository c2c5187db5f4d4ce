/** The vault record's byte format and the input of the snapshot tag
    (native-host/src/vault/format.rs, native-host/src/operation/fingerprint.rs). */
module Codec {
  import opened Base

  type Byte = x: nat | x < 256
  type Bytes = seq<Byte>

  const MAGIC: Bytes := [0x46, 0x43, 0x50, 0x56]
  const FORMAT_VERSION: nat := 1
  const AEAD_ALG: nat := 1
  const WRAP_ALG: nat := 1
  const WRAPPED_DEK_BYTES: nat := 256
  const NONCE_BYTES: nat := 12
  const TAG_BYTES: nat := 16
  const HEADER_BYTES: nat := 318
  const MAX_CIPHERTEXT_BYTES: nat := 4_194_304

  datatype VaultHeader = VaultHeader(groupId: Bytes, kekKeyId: Bytes, nonce: Bytes, wrappedDek: Bytes,
                                     ciphertextLen: nat)

  datatype VaultRecord = VaultRecord(header: VaultHeader, ciphertext: Bytes, tag: Bytes)

  // ---------------------------------------------------------------------------------------------
  // Little-endian numbers
  // ---------------------------------------------------------------------------------------------

  function Little(n: nat, width: nat): (b: Bytes)
    ensures |b| == width
  {
    if width == 0 then [] else [n % 256] + Little(n / 256, width - 1)
  }

  function FromLittle(b: Bytes): nat {
    if b == [] then 0 else b[0] + 256 * FromLittle(b[1..])
  }

  function Power256(width: nat): nat { if width == 0 then 1 else 256 * Power256(width - 1) }

  lemma {:induction false} LittleRoundTrip(n: nat, width: nat)
    requires n < Power256(width)
    ensures FromLittle(Little(n, width)) == n
  {
    if width > 0 { LittleRoundTrip(n / 256, width - 1); }
  }

  lemma LowByte(low: Byte, rest: nat)
    ensures (low + 256 * rest) % 256 == low && (low + 256 * rest) / 256 == rest
  {
  }

  lemma {:induction false} FromLittleRoundTrip(b: Bytes)
    ensures FromLittle(b) < Power256(|b|) && Little(FromLittle(b), |b|) == b
  {
    if b != [] {
      FromLittleRoundTrip(b[1..]);
      LowByte(b[0], FromLittle(b[1..]));
    }
  }

  lemma Widths()
    ensures Power256(2) == 65_536 && Power256(4) == 4_294_967_296 && Power256(8) == U64_MAX + 1
  {
    assert Power256(1) == 256 && Power256(2) == 65_536;
    assert Power256(3) == 16_777_216 && Power256(4) == 4_294_967_296;
    assert Power256(5) == 0x100_0000_0000 && Power256(6) == 0x1_0000_0000_0000 && Power256(7) == 0x100_0000_0000_0000;
  }

  // ---------------------------------------------------------------------------------------------
  // Fields laid end to end
  // ---------------------------------------------------------------------------------------------

  /** cuts[i] and cuts[i + 1] delimit field i. */
  ghost predicate CutsOf(fields: seq<Bytes>, cuts: seq<nat>) {
    |cuts| == |fields| + 1 && cuts[0] == 0 && forall i :: 0 <= i < |fields| ==> cuts[i + 1] == cuts[i] + |fields[i]|
  }

  lemma {:induction false} FlattenLength(fields: seq<Bytes>, cuts: seq<nat>, n: nat)
    requires CutsOf(fields, cuts) && n <= |fields|
    ensures |Flatten(fields[..n])| == cuts[n]
  {
    if n > 0 {
      FlattenLength(fields, cuts, n - 1);
      FlattenNext(fields, n - 1);
    }
  }

  lemma {:induction false} FieldBefore(fields: seq<Bytes>, cuts: seq<nat>, i: nat, n: nat)
    requires CutsOf(fields, cuts) && i < n <= |fields|
    ensures cuts[i + 1] <= |Flatten(fields[..n])| && Flatten(fields[..n])[cuts[i]..cuts[i + 1]] == fields[i]
  {
    FlattenLength(fields, cuts, n);
    FlattenNext(fields, n - 1);
    FlattenLength(fields, cuts, n - 1);
    if i + 1 < n { FieldBefore(fields, cuts, i, n - 1); }
  }

  /** Reading a field back from the concatenation. */
  lemma FieldAt(fields: seq<Bytes>, cuts: seq<nat>, i: nat)
    requires CutsOf(fields, cuts) && i < |fields|
    ensures |Flatten(fields)| == cuts[|fields|] && cuts[i] <= cuts[i + 1] <= |Flatten(fields)|
    ensures Flatten(fields)[cuts[i]..cuts[i + 1]] == fields[i]
  {
    FieldBefore(fields, cuts, i, |fields|);
    FlattenLength(fields, cuts, |fields|);
    assert fields[..|fields|] == fields;
  }

  predicate IsPiece(b: Bytes, fields: seq<Bytes>, cuts: seq<nat>, i: nat) {
    i < |fields| && i + 1 < |cuts| && cuts[i] <= cuts[i + 1] <= |b| && fields[i] == b[cuts[i]..cuts[i + 1]]
  }

  /** Putting the pieces of a byte string together again. */
  lemma {:induction false} Reassemble(b: Bytes, fields: seq<Bytes>, cuts: seq<nat>, n: nat)
    requires CutsOf(fields, cuts) && n <= |fields| && cuts[n] <= |b|
    requires forall i :: 0 <= i < n ==> IsPiece(b, fields, cuts, i)
    ensures Flatten(fields[..n]) == b[..cuts[n]]
  {
    if n > 0 {
      assert IsPiece(b, fields, cuts, n - 1);
      Reassemble(b, fields, cuts, n - 1);
      FlattenNext(fields, n - 1);
      assert b[..cuts[n]] == b[..cuts[n - 1]] + b[cuts[n - 1]..cuts[n]];
    }
  }

  // ---------------------------------------------------------------------------------------------
  // The record
  // ---------------------------------------------------------------------------------------------

  predicate IsNil(id: Bytes) { forall i :: 0 <= i < |id| ==> id[i] == 0 }

  /** Records the source can hold: fixed-width arrays have their width, and validate succeeds. */
  predicate Sized(r: VaultRecord) {
    && |r.header.groupId| == 16 && |r.header.kekKeyId| == 16 && |r.header.nonce| == NONCE_BYTES && |r.tag| == TAG_BYTES
    && r.header.ciphertextLen < Power256(4)
  }

  predicate Valid(r: VaultRecord) { HeaderValid(r.header) && |r.ciphertext| == r.header.ciphertextLen }

  function HeaderFields(h: VaultHeader): (f: seq<Bytes>)
    ensures |f| == 11
  {
    [MAGIC, Little(FORMAT_VERSION, 2), Little(HEADER_BYTES, 2), h.groupId, Little(AEAD_ALG, 2), Little(WRAP_ALG, 2),
     h.kekKeyId, h.nonce, Little(WRAPPED_DEK_BYTES, 2), h.wrappedDek, Little(h.ciphertextLen, 4)]
  }

  function Fields(r: VaultRecord): (f: seq<Bytes>)
    ensures |f| == 13
  {
    HeaderFields(r.header) + [r.ciphertext, r.tag]
  }

  function Cuts(ciphertextLen: nat): (c: seq<nat>)
    ensures |c| == 14
  {
    [0, 4, 6, 8, 24, 26, 28, 44, 56, 58, 314, 318, 318 + ciphertextLen, 334 + ciphertextLen]
  }

  function Layout(r: VaultRecord): Bytes { Flatten(Fields(r)) }

  /** Appending the next field to what is written so far. */
  lemma WrittenNext(fields: seq<Bytes>, k: nat, bytes: Bytes)
    requires k < |fields| && bytes == Flatten(fields[..k])
    ensures bytes + fields[k] == Flatten(fields[..k + 1])
  {
    FlattenNext(fields, k);
  }

  lemma NothingWritten(fields: seq<Bytes>)
    ensures Flatten(fields[..0]) == [] && Flatten(fields[..|fields|]) == Flatten(fields)
  {
    assert fields[..|fields|] == fields;
  }

  predicate HeaderValid(h: VaultHeader) {
    !IsNil(h.groupId) && |h.wrappedDek| == WRAPPED_DEK_BYTES && h.ciphertextLen <= MAX_CIPHERTEXT_BYTES
  }

  method EncodeHeader(h: VaultHeader) returns (result: Result<Bytes>)
    ensures result == if HeaderValid(h) then Ok(Flatten(HeaderFields(h))) else Err(Format)
    ensures result.Ok? <==>
              (exists i :: 0 <= i < |h.groupId| && h.groupId[i] != 0) && |h.wrappedDek| == 256
              && h.ciphertextLen <= 4_194_304
  {
    if IsNil(h.groupId) { return Err(Format); }
    if |h.wrappedDek| != WRAPPED_DEK_BYTES { return Err(Format); }
    if h.ciphertextLen > MAX_CIPHERTEXT_BYTES { return Err(Format); }
    var bytes: Bytes;
    ghost var f := HeaderFields(h);
    NothingWritten(f);
    bytes := [];
    WrittenNext(f, 0, bytes);
    bytes := bytes + MAGIC;
    WrittenNext(f, 1, bytes);
    bytes := bytes + Little(FORMAT_VERSION, 2);
    WrittenNext(f, 2, bytes);
    bytes := bytes + Little(HEADER_BYTES, 2);
    WrittenNext(f, 3, bytes);
    bytes := bytes + h.groupId;
    WrittenNext(f, 4, bytes);
    bytes := bytes + Little(AEAD_ALG, 2);
    WrittenNext(f, 5, bytes);
    bytes := bytes + Little(WRAP_ALG, 2);
    WrittenNext(f, 6, bytes);
    bytes := bytes + h.kekKeyId;
    WrittenNext(f, 7, bytes);
    bytes := bytes + h.nonce;
    WrittenNext(f, 8, bytes);
    bytes := bytes + Little(WRAPPED_DEK_BYTES, 2);
    WrittenNext(f, 9, bytes);
    bytes := bytes + h.wrappedDek;
    WrittenNext(f, 10, bytes);
    bytes := bytes + Little(h.ciphertextLen, 4);
    return Ok(bytes);
  }

  method Encode(r: VaultRecord) returns (result: Result<Bytes>)
    ensures result == if Valid(r) then Ok(Layout(r)) else Err(Format)
    ensures result.Ok? ==> |r.ciphertext| == r.header.ciphertextLen <= 4_194_304
  {
    var header := EncodeHeader(r.header);
    if header.Err? || |r.ciphertext| != r.header.ciphertextLen { return Err(Format); }
    var bytes := header.value;
    assert Fields(r)[..11] == HeaderFields(r.header);
    NothingWritten(Fields(r));
    WrittenNext(Fields(r), 11, bytes);
    bytes := bytes + r.ciphertext;
    WrittenNext(Fields(r), 12, bytes);
    bytes := bytes + r.tag;
    return Ok(bytes);
  }

  /** The bytes that decode accepts, read off by position. */
  predicate WellShaped(b: Bytes) {
    && |b| >= HEADER_BYTES + TAG_BYTES
    && b[0..4] == MAGIC
    && FromLittle(b[4..6]) == FORMAT_VERSION && FromLittle(b[6..8]) == HEADER_BYTES
    && FromLittle(b[24..26]) == AEAD_ALG && FromLittle(b[26..28]) == WRAP_ALG
    && FromLittle(b[56..58]) == WRAPPED_DEK_BYTES
    && FromLittle(b[314..318]) <= MAX_CIPHERTEXT_BYTES
    && |b| == HEADER_BYTES + FromLittle(b[314..318]) + TAG_BYTES
    && !IsNil(b[8..24])
  }

  function Extract(b: Bytes): VaultRecord
    requires WellShaped(b)
  {
    var n := FromLittle(b[314..318]);
    VaultRecord(VaultHeader(b[8..24], b[28..44], b[44..56], b[58..314], n), b[318..318 + n], b[318 + n..])
  }

  /** The decoder's reading position. */
  class Cursor {
    const bytes: Bytes
    var position: nat

    ghost predicate Valid() reads this { position <= |bytes| }

    constructor (bytes: Bytes)
      ensures Valid() && this.bytes == bytes && position == 0
    {
      this.bytes := bytes;
      position := 0;
    }

    method Take(length: nat) returns (r: Result<Bytes>)
      requires Valid()
      modifies this
      ensures Valid()
      ensures r.Ok? <==> old(position) + length <= |bytes|
      ensures r.Ok? ==> position == old(position) + length && r.value == bytes[old(position)..position]
      ensures r.Err? ==> r.error == Format && position == old(position)
    {
      var end := position + length;
      if end > |bytes| { return Err(Format); }
      r := Ok(bytes[position..end]);
      position := end;
    }

    method RequireU16(expected: nat) returns (ok: bool)
      requires Valid()
      modifies this
      ensures Valid()
      ensures ok <==> old(position) + 2 <= |bytes| && FromLittle(bytes[old(position)..old(position) + 2]) == expected
      ensures ok ==> position == old(position) + 2
    {
      var field := Take(2);
      return field.Ok? && FromLittle(field.value) == expected;
    }
  }

  /** The fields before the ciphertext, or None where a fixed field is wrong. */
  method DecodeHeader(cursor: Cursor) returns (h: Option<VaultHeader>)
    requires cursor.Valid() && cursor.position == 0 && |cursor.bytes| >= HEADER_BYTES + TAG_BYTES
    modifies cursor
    ensures cursor.Valid()
    ensures var b := cursor.bytes;
            && (h.Some? <==>
                  && b[0..4] == MAGIC && FromLittle(b[4..6]) == FORMAT_VERSION && FromLittle(b[6..8]) == HEADER_BYTES
                  && FromLittle(b[24..26]) == AEAD_ALG && FromLittle(b[26..28]) == WRAP_ALG
                  && FromLittle(b[56..58]) == WRAPPED_DEK_BYTES)
            && (h.Some? ==> cursor.position == HEADER_BYTES)
            && (h.Some? ==> h.value == VaultHeader(b[8..24], b[28..44], b[44..56], b[58..314], FromLittle(b[314..318])))
  {
    var magic := cursor.Take(4);
    if magic.Err? || magic.value != MAGIC { return None; }
    var ok := cursor.RequireU16(FORMAT_VERSION);
    if !ok { return None; }
    ok := cursor.RequireU16(HEADER_BYTES);
    if !ok { return None; }
    var groupId := cursor.Take(16);
    ok := cursor.RequireU16(AEAD_ALG);
    if !ok { return None; }
    ok := cursor.RequireU16(WRAP_ALG);
    if !ok { return None; }
    var kekKeyId := cursor.Take(16);
    var nonce := cursor.Take(NONCE_BYTES);
    ok := cursor.RequireU16(WRAPPED_DEK_BYTES);
    if !ok { return None; }
    var wrappedDek := cursor.Take(WRAPPED_DEK_BYTES);
    var length := cursor.Take(4);
    return Some(VaultHeader(groupId.value, kekKeyId.value, nonce.value, wrappedDek.value, FromLittle(length.value)));
  }

  method Decode(bytes: Bytes) returns (result: Result<VaultRecord>)
    ensures result == if WellShaped(bytes) then Ok(Extract(bytes)) else Err(Format)
  {
    if |bytes| < HEADER_BYTES + TAG_BYTES { return Err(Format); }
    var cursor := new Cursor(bytes);
    var header := DecodeHeader(cursor);
    if header.None? { return Err(Format); }
    var h := header.value;
    if h.ciphertextLen > MAX_CIPHERTEXT_BYTES { return Err(Format); }
    if |bytes| != HEADER_BYTES + h.ciphertextLen + TAG_BYTES { return Err(Format); }
    var ciphertext := cursor.Take(h.ciphertextLen);
    var tag := cursor.Take(TAG_BYTES);
    if IsNil(h.groupId) { return Err(Format); }
    assert bytes[318 + h.ciphertextLen..334 + h.ciphertextLen] == bytes[318 + h.ciphertextLen..];
    return Ok(VaultRecord(h, ciphertext.value, tag.value));
  }

  // ---------------------------------------------------------------------------------------------
  // Bijection
  // ---------------------------------------------------------------------------------------------

  lemma RecordCuts(r: VaultRecord)
    requires Valid(r) && Sized(r)
    ensures CutsOf(Fields(r), Cuts(r.header.ciphertextLen))
  {
  }

  lemma LayoutField(r: VaultRecord, i: nat)
    requires Valid(r) && Sized(r) && i < 13
    ensures var c := Cuts(r.header.ciphertextLen);
            |Layout(r)| == 334 + r.header.ciphertextLen && c[i] <= c[i + 1] <= |Layout(r)|
            && Layout(r)[c[i]..c[i + 1]] == Fields(r)[i]
  {
    RecordCuts(r);
    FieldAt(Fields(r), Cuts(r.header.ciphertextLen), i);
  }

  lemma LayoutFixed(r: VaultRecord)
    requires Valid(r) && Sized(r)
    ensures var b := Layout(r);
            && |b| == 334 + r.header.ciphertextLen && b[0..4] == MAGIC && b[4..6] == Little(FORMAT_VERSION, 2)
            && b[6..8] == Little(HEADER_BYTES, 2)
            && b[24..26] == Little(AEAD_ALG, 2) && b[26..28] == Little(WRAP_ALG, 2)
            && b[56..58] == Little(WRAPPED_DEK_BYTES, 2)
  {
    LayoutField(r, 0);
    LayoutField(r, 1);
    LayoutField(r, 2);
    LayoutField(r, 4);
    LayoutField(r, 5);
    LayoutField(r, 8);
  }

  lemma LayoutFree(r: VaultRecord)
    requires Valid(r) && Sized(r)
    ensures var b, n := Layout(r), r.header.ciphertextLen;
            && |b| == 334 + n && b[8..24] == r.header.groupId && b[28..44] == r.header.kekKeyId
            && b[44..56] == r.header.nonce
            && b[58..314] == r.header.wrappedDek && b[314..318] == Little(n, 4) && b[318..318 + n] == r.ciphertext
            && b[318 + n..] == r.tag
  {
    LayoutField(r, 3);
    LayoutField(r, 6);
    LayoutField(r, 7);
    LayoutField(r, 9);
    LayoutField(r, 10);
    LayoutField(r, 11);
    LayoutField(r, 12);
    assert Layout(r)[318 + r.header.ciphertextLen..334 + r.header.ciphertextLen] ==
             Layout(r)[318 + r.header.ciphertextLen..];
  }

  /** Decoding what was encoded gives the record back. */
  lemma DecodeEncode(r: VaultRecord)
    requires Valid(r) && Sized(r)
    ensures WellShaped(Layout(r)) && Extract(Layout(r)) == r
  {
    Widths();
    LayoutFixed(r);
    LayoutFree(r);
    LittleRoundTrip(FORMAT_VERSION, 2);
    LittleRoundTrip(HEADER_BYTES, 2);
    LittleRoundTrip(AEAD_ALG, 2);
    LittleRoundTrip(WRAPPED_DEK_BYTES, 2);
    LittleRoundTrip(r.header.ciphertextLen, 4);
  }

  /** Four digits to the base 256, the lowest first. */
  function Positional(a: nat, b: nat, c: nat, d: nat): nat { a + 256 * b + 65_536 * c + 16_777_216 * d }

  lemma FromLittleFour(l: Bytes)
    requires |l| >= 4
    ensures FromLittle(l) == Positional(l[0], l[1], l[2], l[3]) + 4_294_967_296 * FromLittle(l[4..])
  {
    assert l[1..][1..] == l[2..] && l[2..][1..] == l[3..] && l[3..][1..] == l[4..];
    assert FromLittle(l[3..]) == l[3] + 256 * FromLittle(l[4..]);
    assert FromLittle(l[2..]) == l[2] + 256 * FromLittle(l[3..]);
    assert FromLittle(l[1..]) == l[1] + 256 * FromLittle(l[2..]);
  }

  /** The encoding byte for byte: where each field lies, and numbers with their low byte first. */
  lemma EncodedBytes(r: VaultRecord)
    requires Valid(r) && Sized(r)
    ensures var b, n := Layout(r), |r.ciphertext|;
            && |b| == 334 + n
            && b[0..8] == [0x46, 0x43, 0x50, 0x56, 1, 0, 62, 1] && b[8..24] == r.header.groupId
            && b[24..28] == [1, 0, 1, 0] && b[28..44] == r.header.kekKeyId && b[44..56] == r.header.nonce
            && b[56..58] == [0, 1] && b[58..314] == r.header.wrappedDek
            && n == Positional(b[314], b[315], b[316], b[317])
            && b[318..318 + n] == r.ciphertext && b[318 + n..] == r.tag
  {
    LayoutFixed(r);
    LayoutFree(r);
    Widths();
    var b, n := Layout(r), |r.ciphertext|;
    TwoBytes(FORMAT_VERSION);
    TwoBytes(HEADER_BYTES);
    TwoBytes(AEAD_ALG);
    TwoBytes(WRAP_ALG);
    TwoBytes(WRAPPED_DEK_BYTES);
    assert b[0..8] == b[0..4] + b[4..6] + b[6..8] && b[24..28] == b[24..26] + b[26..28];
    LittleRoundTrip(n, 4);
    FromLittleFour(b[314..318]);
    assert b[314..318][4..] == [];
    assert forall i :: 0 <= i < 4 ==> b[314 + i] == b[314..318][i];
  }

  lemma TwoBytes(n: nat)
    ensures Little(n, 2) == [n % 256, n / 256 % 256]
  {
    assert Little(n / 256, 1) == [n / 256 % 256] + Little(n / 256 / 256, 0);
  }

  lemma LittleIs(b: Bytes, n: nat)
    requires FromLittle(b) == n
    ensures Little(n, |b|) == b
  {
    FromLittleRoundTrip(b);
  }

  lemma ExtractValid(b: Bytes)
    requires WellShaped(b)
    ensures Valid(Extract(b)) && Sized(Extract(b))
  {
    Widths();
  }

  lemma ExtractField(b: Bytes, i: nat)
    requires WellShaped(b) && i < 13
    ensures IsPiece(b, Fields(Extract(b)), Cuts(FromLittle(b[314..318])), i)
  {
    LittleIs(b[4..6], FORMAT_VERSION);
    LittleIs(b[6..8], HEADER_BYTES);
    LittleIs(b[24..26], AEAD_ALG);
    LittleIs(b[26..28], WRAP_ALG);
    LittleIs(b[56..58], WRAPPED_DEK_BYTES);
    LittleIs(b[314..318], FromLittle(b[314..318]));
    var n := FromLittle(b[314..318]);
    assert b[318 + n..] == b[318 + n..334 + n];
  }

  /** Encoding what was decoded gives the bytes back, so every accepted string is the encoding of
      exactly one record. */
  lemma EncodeDecode(b: Bytes)
    requires WellShaped(b)
    ensures Valid(Extract(b)) && Sized(Extract(b)) && Layout(Extract(b)) == b
  {
    ExtractValid(b);
    var r := Extract(b);
    RecordCuts(r);
    var f, c := Fields(r), Cuts(FromLittle(b[314..318]));
    assert CutsOf(f, c);
    forall i | 0 <= i < 13
      ensures IsPiece(b, f, c, i)
    {
      ExtractField(b, i);
    }
    Reassemble(b, f, c, 13);
    assert Fields(r)[..13] == Fields(r) && b[..c[13]] == b;
  }

  /** No accepted string is a proper prefix of another: truncated or extended input is rejected. */
  lemma LengthIsExact(b: Bytes, extra: Bytes)
    requires WellShaped(b) && extra != []
    ensures !WellShaped(b + extra)
  {
    assert (b + extra)[314..318] == b[314..318];
  }

  // ---------------------------------------------------------------------------------------------
  // The input of the snapshot tag
  // ---------------------------------------------------------------------------------------------

  datatype TagContext = TagContext(profileId: Bytes, groupId: Bytes, operationId: Bytes, operationSequence: nat,
                                   baseVaultSequence: nat)

  const TAG_DOMAIN: Bytes := [0x46, 0x43, 0x50, 0x53, 0x4E, 0x41, 0x50, 0x31]

  predicate ContextSized(c: TagContext) {
    |c.profileId| == |c.groupId| == |c.operationId| == 16 && c.operationSequence < Power256(8)
    && c.baseVaultSequence < Power256(8)
  }

  function TagFields(c: TagContext, snapshot: Bytes): (f: seq<Bytes>)
    ensures |f| == 7
  {
    [TAG_DOMAIN, c.profileId, c.groupId, c.operationId, Little(c.operationSequence, 8), Little(c.baseVaultSequence, 8),
     snapshot]
  }

  method TagInput(c: TagContext, snapshot: Bytes) returns (input: Bytes)
    ensures input == Flatten(TagFields(c, snapshot))
  {
    ghost var f := TagFields(c, snapshot);
    NothingWritten(f);
    input := [];
    WrittenNext(f, 0, input);
    input := input + TAG_DOMAIN;
    WrittenNext(f, 1, input);
    input := input + c.profileId;
    WrittenNext(f, 2, input);
    input := input + c.groupId;
    WrittenNext(f, 3, input);
    input := input + c.operationId;
    WrittenNext(f, 4, input);
    input := input + Little(c.operationSequence, 8);
    WrittenNext(f, 5, input);
    input := input + Little(c.baseVaultSequence, 8);
    WrittenNext(f, 6, input);
    input := input + snapshot;
  }

  function TagCuts(n: nat): (c: seq<nat>)
    ensures |c| == 8
  {
    [0, 8, 24, 40, 56, 64, 72, 72 + n]
  }

  lemma TagField(c: TagContext, snapshot: Bytes, i: nat)
    requires ContextSized(c) && i < 7
    ensures var b, k := Flatten(TagFields(c, snapshot)), TagCuts(|snapshot|);
            |b| == 72 + |snapshot| && k[i] <= k[i + 1] <= |b| && b[k[i]..k[i + 1]] == TagFields(c, snapshot)[i]
  {
    FieldAt(TagFields(c, snapshot), TagCuts(|snapshot|), i);
  }

  function EightBytes(b: Bytes): nat
    requires |b| == 8
  {
    Positional(b[0], b[1], b[2], b[3]) + 4_294_967_296 * Positional(b[4], b[5], b[6], b[7])
  }

  lemma LittleEight(n: nat)
    requires n < Power256(8)
    ensures EightBytes(Little(n, 8)) == n
  {
    LittleRoundTrip(n, 8);
    var l := Little(n, 8);
    FromLittleFour(l);
    FromLittleFour(l[4..]);
    assert l[4..][4..] == [];
  }

  /** The tag's input byte for byte: the domain "FCPSNAP1", three identifiers, two numbers with their low
      byte first, and the snapshot. */
  lemma TagBytes(c: TagContext, snapshot: Bytes)
    requires ContextSized(c)
    ensures var b := Flatten(TagFields(c, snapshot));
            && |b| == 72 + |snapshot| && b[0..8] == [0x46, 0x43, 0x50, 0x53, 0x4E, 0x41, 0x50, 0x31]
            && b[8..24] == c.profileId && b[24..40] == c.groupId && b[40..56] == c.operationId
            && EightBytes(b[56..64]) == c.operationSequence && EightBytes(b[64..72]) == c.baseVaultSequence
            && b[72..] == snapshot
  {
    TagField(c, snapshot, 0);
    TagField(c, snapshot, 1);
    TagField(c, snapshot, 2);
    TagField(c, snapshot, 3);
    TagField(c, snapshot, 4);
    TagField(c, snapshot, 5);
    TagField(c, snapshot, 6);
    LittleEight(c.operationSequence);
    LittleEight(c.baseVaultSequence);
    var b := Flatten(TagFields(c, snapshot));
    assert b[72..] == b[72..72 + |snapshot|];
  }

  /** Two tag inputs are equal only for the same context and snapshot, so a tag binds them all. */
  lemma TagInputInjective(a: TagContext, s: Bytes, b: TagContext, t: Bytes)
    requires ContextSized(a) && ContextSized(b) && Flatten(TagFields(a, s)) == Flatten(TagFields(b, t))
    ensures a == b && s == t
  {
    forall i | 0 <= i < 7
      ensures TagFields(a, s)[i] == TagFields(b, t)[i]
    {
      TagField(a, s, i);
      TagField(b, t, i);
    }
    assert a.profileId == TagFields(a, s)[1] && a.groupId == TagFields(a, s)[2] && a.operationId == TagFields(a, s)[3];
    assert b.profileId == TagFields(b, t)[1] && b.groupId == TagFields(b, t)[2] && b.operationId == TagFields(b, t)[3];
    assert s == TagFields(a, s)[6] && t == TagFields(b, t)[6];
    assert Little(a.operationSequence, 8) == TagFields(a, s)[4] && Little(b.operationSequence, 8) == TagFields(b, t)[4];
    assert Little(a.baseVaultSequence, 8) == TagFields(a, s)[5] && Little(b.baseVaultSequence, 8) == TagFields(b, t)[5];
    LittleRoundTrip(a.operationSequence, 8);
    LittleRoundTrip(b.operationSequence, 8);
    LittleRoundTrip(a.baseVaultSequence, 8);
    LittleRoundTrip(b.baseVaultSequence, 8);
  }
}
