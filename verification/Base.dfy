/** Types shared by every component: options, error results, identifiers and cookie records. */
module Base {

  datatype Option<+T> = None | Some(value: T)

  /** The error families the host reports; the text of a message is not part of the model. */
  datatype Error = Protocol | Format | Capability | Io

  datatype Result<+T> = Ok(value: T) | Err(error: Error)

  type Uuid = nat

  const NIL: Uuid := 0

  const U64_MAX: nat := 0xFFFF_FFFF_FFFF_FFFF

  /** How replacing a file ends: done, failed with the file as it was, or failed with the file already
      replaced. */
  datatype WriteOutcome = Replaced | FailsBefore | FailsAfter

  datatype SameSite = NoRestriction | Lax | Strict | Unspecified

  datatype PartitionKey = PartitionKey(topLevelSite: Option<string>, hasCrossSiteAncestor: Option<bool>)

  datatype CookieRecord = CookieRecord(
    domain: string,
    expirationDate: Option<real>,
    hostOnly: bool,
    httpOnly: bool,
    name: string,
    partitionKey: Option<PartitionKey>,
    path: string,
    sameSite: SameSite,
    secure: bool,
    session: bool,
    storeId: string,
    value: string)

  /** The concatenation of a list of chunks. */
  function Flatten<T>(chunks: seq<seq<T>>): seq<T> {
    if chunks == [] then [] else Flatten(chunks[..|chunks| - 1]) + chunks[|chunks| - 1]
  }

  lemma FlattenNext<T>(chunks: seq<seq<T>>, i: nat)
    requires i < |chunks|
    ensures Flatten(chunks[..i + 1]) == Flatten(chunks[..i]) + chunks[i]
  {
    assert chunks[..i + 1][..i] == chunks[..i];
  }

  lemma {:induction false} FlattenPrefix<T>(chunks: seq<seq<T>>, i: nat)
    requires i <= |chunks|
    ensures |Flatten(chunks[..i])| <= |Flatten(chunks)|
    decreases |chunks| - i
  {
    if i < |chunks| {
      FlattenNext(chunks, i);
      FlattenPrefix(chunks, i + 1);
    } else {
      assert chunks[..i] == chunks;
    }
  }
}
