/** Guarded removal in the extension: reading a group's cookies, the removal plan and the removal
    loop (extension/src/guarded-removal.ts, extension/src/background.ts, extension/src/protocol.ts).

    The identity of a cookie is an arbitrary function of its record here; module CookieIdentity says
    what that function is. */
module GuardedRemoval {
  import opened Base

  type Identity = CookieRecord -> string

  predicate Unique(id: Identity, s: seq<CookieRecord>) {
    forall i, j :: 0 <= i < j < |s| ==> id(s[i]) != id(s[j])
  }

  /** A reading of the browser: one record for each identity found, namely the last one found. */
  ghost predicate IsReading(id: Identity, found: seq<CookieRecord>, read: seq<CookieRecord>) {
    && Unique(id, read)
    && (forall c :: c in read <==> LastOf(id, found, c))
  }

  predicate LastOf(id: Identity, found: seq<CookieRecord>, c: CookieRecord) {
    exists k :: 0 <= k < |found| && found[k] == c && forall m :: k < m < |found| ==> id(found[m]) != id(c)
  }

  /** The map that the plan builds from records: a later record replaces an earlier one. */
  function ByIdentity(id: Identity, s: seq<CookieRecord>): map<string, CookieRecord> {
    if s == [] then map[]
    else ByIdentity(id, s[..|s| - 1])[id(s[|s| - 1]) := s[|s| - 1]]
  }

  lemma {:induction false} ByIdentityKeys(id: Identity, s: seq<CookieRecord>, k: string)
    requires k in ByIdentity(id, s)
    ensures id(ByIdentity(id, s)[k]) == k
  {
    if k != id(s[|s| - 1]) {
      ByIdentityKeys(id, s[..|s| - 1], k);
    }
  }

  lemma LastOfSnoc(id: Identity, t: seq<CookieRecord>, d: CookieRecord, c: CookieRecord)
    ensures LastOf(id, t + [d], c) <==> d == c || (id(d) != id(c) && LastOf(id, t, c))
  {
    var s := t + [d];
    if LastOf(id, s, c) && d != c {
      var k :| 0 <= k < |s| && s[k] == c && forall m :: k < m < |s| ==> id(s[m]) != id(c);
      assert s[|t|] == d;
      assert forall m :: k < m < |t| ==> t[m] == s[m];
      assert t[k] == c;
    }
    if d == c {
      assert s[|t|] == c;
    } else if id(d) != id(c) && LastOf(id, t, c) {
      var k :| 0 <= k < |t| && t[k] == c && forall m :: k < m < |t| ==> id(t[m]) != id(c);
      assert s[k] == c;
      assert forall m :: k < m < |s| ==> s[m] == if m == |t| then d else t[m];
    }
  }

  lemma {:induction false} ByIdentityIsLast(id: Identity, s: seq<CookieRecord>, c: CookieRecord)
    ensures id(c) in ByIdentity(id, s) && ByIdentity(id, s)[id(c)] == c <==> LastOf(id, s, c)
  {
    if s != [] {
      var t, d := s[..|s| - 1], s[|s| - 1];
      ByIdentityIsLast(id, t, c);
      LastOfSnoc(id, t, d, c);
      assert s == t + [d];
    }
  }

  lemma UniqueLast(id: Identity, s: seq<CookieRecord>, c: CookieRecord)
    requires Unique(id, s)
    ensures LastOf(id, s, c) <==> c in s
  {
    if c in s {
      var k :| 0 <= k < |s| && s[k] == c;
      assert forall m :: k < m < |s| ==> id(s[m]) != id(s[k]);
    }
  }

  /** The last record found with the identity of c. */
  lemma {:induction false} SomeLast(id: Identity, found: seq<CookieRecord>, c: CookieRecord)
    returns (last: CookieRecord)
    requires c in found
    ensures last in found && id(last) == id(c) && LastOf(id, found, last)
  {
    var t, d := found[..|found| - 1], found[|found| - 1];
    assert found == t + [d];
    if id(d) == id(c) {
      last := d;
      LastOfSnoc(id, t, d, d);
    } else {
      last := SomeLast(id, t, c);
      LastOfSnoc(id, t, d, last);
    }
  }

  /** A reading shows every cookie found if and only if no two different cookies share an identity; in
      any case it shows one cookie for each identity found. */
  lemma ReadingShowsAllIff(id: Identity, found: seq<CookieRecord>, read: seq<CookieRecord>)
    requires IsReading(id, found, read)
    ensures (forall c :: c in found ==> c in read) <==>
              (forall a, b :: a in found && b in found && id(a) == id(b) ==> a == b)
    ensures forall c :: c in found ==> HasIdentity(id, read, id(c))
    ensures forall c :: c in read ==> c in found
  {
    forall c | c in found
      ensures exists r :: r in read && id(r) == id(c) && r in found
    {
      var last := SomeLast(id, found, c);
      assert last in read;
    }
    forall c | c in read
      ensures c in found
    {
      assert LastOf(id, found, c);
    }
    if forall c :: c in found ==> c in read {
      forall a, b | a in found && b in found && id(a) == id(b)
        ensures a == b
      {
        var i :| 0 <= i < |read| && read[i] == a;
        var j :| 0 <= j < |read| && read[j] == b;
        assert i == j;
      }
    }
  }

  function Kept(inScope: CookieRecord -> bool, found: seq<CookieRecord>): seq<CookieRecord> {
    if found == [] then []
    else
      var rest, last := Kept(inScope, found[..|found| - 1]), found[|found| - 1];
      if inScope(last) then rest + [last] else rest
  }

  /** A map from identities and the order in which they were first met. */
  predicate Listed(unique: map<string, CookieRecord>, order: seq<string>) {
    && (forall k :: 0 <= k < |order| ==> order[k] in unique)
    && (forall k :: k in unique ==> k in order)
    && (forall a, b :: 0 <= a < b < |order| ==> order[a] != order[b])
  }

  lemma ListedNext(unique: map<string, CookieRecord>, order: seq<string>, k: string, c: CookieRecord)
    requires Listed(unique, order)
    ensures Listed(unique[k := c], if k in unique then order else order + [k])
  {
  }

  method ListValues(unique: map<string, CookieRecord>, order: seq<string>) returns (read: seq<CookieRecord>)
    requires Listed(unique, order)
    ensures |read| == |order| && forall k :: 0 <= k < |order| ==> read[k] == unique[order[k]]
  {
    read := [];
    for i := 0 to |order|
      invariant |read| == i && forall k :: 0 <= k < i ==> read[k] == unique[order[k]]
    {
      read := read + [unique[order[i]]];
    }
  }

  /** The record found last among those of its identity that are in scope. */
  ghost predicate LastInScope(id: Identity, inScope: CookieRecord -> bool, found: seq<CookieRecord>, c: CookieRecord) {
    exists k :: 0 <= k < |found| && found[k] == c && inScope(c)
      && forall m :: k < m < |found| && inScope(found[m]) ==> id(found[m]) != id(c)
  }

  lemma LastInScopeSnoc(id: Identity, inScope: CookieRecord -> bool, t: seq<CookieRecord>, d: CookieRecord,
                        c: CookieRecord)
    ensures LastInScope(id, inScope, t + [d], c) <==>
              (inScope(d) && d == c) || (!(inScope(d) && id(d) == id(c)) && LastInScope(id, inScope, t, c))
  {
    var s := t + [d];
    assert s[|t|] == d && forall m :: 0 <= m < |t| ==> s[m] == t[m];
    if LastInScope(id, inScope, t, c) {
      var k :| 0 <= k < |t| && t[k] == c && inScope(c)
               && forall m :: k < m < |t| && inScope(t[m]) ==> id(t[m]) != id(c);
      assert s[k] == c;
    }
    if LastInScope(id, inScope, s, c) {
      var k :| 0 <= k < |s| && s[k] == c && inScope(c)
               && forall m :: k < m < |s| && inScope(s[m]) ==> id(s[m]) != id(c);
      if k < |t| {
        assert t[k] == c;
        forall m | k < m < |t| && inScope(t[m])
          ensures id(t[m]) != id(c)
        {
          assert s[m] == t[m];
        }
        assert inScope(d) ==> id(s[|t|]) != id(c);
      }
    }
  }

  lemma {:induction false} KeptIff(id: Identity, inScope: CookieRecord -> bool, found: seq<CookieRecord>,
                                   c: CookieRecord)
    ensures LastOf(id, Kept(inScope, found), c) <==> LastInScope(id, inScope, found, c)
  {
    if found != [] {
      var t, d := found[..|found| - 1], found[|found| - 1];
      KeptIff(id, inScope, t, c);
      assert found == t + [d];
      LastInScopeSnoc(id, inScope, t, d, c);
      LastOfSnoc(id, Kept(inScope, t), d, c);
    }
  }

  /** One read of the browser: the cookies of this group, one for each identity. */
  method GetCookies(id: Identity, inScope: CookieRecord -> bool, found: seq<CookieRecord>)
    returns (read: seq<CookieRecord>)
    ensures IsReading(id, Kept(inScope, found), read)
    ensures Unique(id, read) && forall c :: c in read <==> LastInScope(id, inScope, found, c)
  {
    var unique: map<string, CookieRecord> := map[];
    var order: seq<string> := [];
    for i := 0 to |found|
      invariant unique == ByIdentity(id, Kept(inScope, found[..i]))
      invariant Listed(unique, order)
    {
      KeptSnoc(id, inScope, found, i);
      var cookie := found[i];
      if inScope(cookie) {
        var k := id(cookie);
        ListedNext(unique, order, k, cookie);
        if k !in unique { order := order + [k]; }
        unique := unique[k := cookie];
      }
    }
    assert found[..|found|] == found;
    read := ListValues(unique, order);
    ListingIsReading(id, Kept(inScope, found), order, read);
    forall c
      ensures c in read <==> LastInScope(id, inScope, found, c)
    {
      KeptIff(id, inScope, found, c);
    }
  }

  lemma KeptSnoc(id: Identity, inScope: CookieRecord -> bool, found: seq<CookieRecord>, i: nat)
    requires i < |found|
    ensures var before, c := ByIdentity(id, Kept(inScope, found[..i])), found[i];
            ByIdentity(id, Kept(inScope, found[..i + 1])) == if inScope(c) then before[id(c) := c] else before
  {
    assert found[..i + 1][..i] == found[..i];
    var before := Kept(inScope, found[..i]);
    assert (before + [found[i]])[..|before|] == before;
  }

  lemma ListingIsReading(id: Identity, found: seq<CookieRecord>, order: seq<string>, read: seq<CookieRecord>)
    requires Listed(ByIdentity(id, found), order)
    requires |read| == |order| && forall k :: 0 <= k < |order| ==> read[k] == ByIdentity(id, found)[order[k]]
    ensures IsReading(id, found, read)
  {
    forall k | 0 <= k < |order|
      ensures id(read[k]) == order[k]
    {
      ByIdentityKeys(id, found, order[k]);
    }
    forall c
      ensures c in read <==> LastOf(id, found, c)
    {
      ByIdentityIsLast(id, found, c);
      if LastOf(id, found, c) {
        var k :| 0 <= k < |order| && order[k] == id(c);
        assert read[k] == c;
      }
    }
  }

  // ---------------------------------------------------------------------------------------------
  // The plan
  // ---------------------------------------------------------------------------------------------

  datatype Verdict = Done | Delete(record: CookieRecord) | Mutation

  predicate HasIdentity(id: Identity, s: seq<CookieRecord>, k: string) { exists j :: 0 <= j < |s| && id(s[j]) == k }

  /** The first index from `i` on whose identity is still present, or the length. */
  function FirstPresent(id: Identity, authorized: seq<CookieRecord>, i: nat, current: seq<CookieRecord>): (k: nat)
    requires i <= |authorized|
    ensures i <= k <= |authorized|
    ensures k < |authorized| ==> HasIdentity(id, current, id(authorized[k]))
    ensures forall j :: i <= j < k ==> !HasIdentity(id, current, id(authorized[j]))
    decreases |authorized| - i
  {
    if i == |authorized| || HasIdentity(id, current, id(authorized[i])) then i
    else FirstPresent(id, authorized, i + 1, current)
  }

  predicate Expected(id: Identity, remaining: seq<CookieRecord>, c: CookieRecord) { LastOf(id, remaining, c) }

  /** The plan's next decision and its position afterwards. */
  function NextStep(id: Identity, authorized: seq<CookieRecord>, i: nat, current: seq<CookieRecord>): (nat, Verdict)
    requires i <= |authorized|
  {
    if exists c :: c in current && !Expected(id, authorized[i..], c) then (i, Mutation)
    else
      var k := FirstPresent(id, authorized, i, current);
      if k < |authorized| then (k + 1, Delete(authorized[k]))
      else (k, if current == [] then Done else Mutation)
  }

  /** Mutation is reported exactly when some present record is not an expected one: the plan's last
      fall-through never decides. Done is reported exactly on an empty scope. */
  lemma NextStepMeaning(id: Identity, authorized: seq<CookieRecord>, i: nat, current: seq<CookieRecord>)
    requires i <= |authorized|
    ensures var (_, v) := NextStep(id, authorized, i, current);
            && (v.Mutation? <==> exists c :: c in current && !Expected(id, authorized[i..], c))
            && (v.Done? <==> current == [])
  {
    var k := FirstPresent(id, authorized, i, current);
    if current != [] && forall c :: c in current ==> Expected(id, authorized[i..], c) {
      var c := current[0];
      assert Expected(id, authorized[i..], c);
      var m :| 0 <= m < |authorized[i..]| && authorized[i..][m] == c;
      assert authorized[i + m] == c && HasIdentity(id, current, id(authorized[i + m]));
      assert k < |authorized|;
    }
    if current == [] {
      assert k < |authorized| ==> !HasIdentity(id, current, id(authorized[k]));
    }
  }

  /** A record chosen for deletion is present exactly as authorised, comes from the part of the list
      not yet handled, and the position moves past it. */
  lemma DeleteIsExact(id: Identity, authorized: seq<CookieRecord>, i: nat, current: seq<CookieRecord>)
    requires i <= |authorized| && Unique(id, authorized)
    ensures var (n, v) := NextStep(id, authorized, i, current);
            && i <= n <= |authorized|
            && (v.Delete? ==> i < n && v.record == authorized[n - 1] && v.record in current)
            && (v.Delete? ==> forall c :: c in current && id(c) == id(v.record) ==> c == v.record)
            && (v.Delete? ==> forall j :: i <= j < n - 1 ==> authorized[j] !in current)
  {
    var (n, v) := NextStep(id, authorized, i, current);
    if v.Delete? {
      var rest := authorized[i..];
      forall c | c in current && id(c) == id(v.record)
        ensures c == v.record
      {
        assert Expected(id, rest, c);
        var m :| 0 <= m < |rest| && rest[m] == c;
        assert authorized[i + m] == c;
      }
      var j :| 0 <= j < |current| && id(current[j]) == id(v.record);
      assert current[j] == v.record;
    }
  }

  class GuardedRemovalPlan {
    const identity: Identity
    const authorized: seq<CookieRecord>
    var nextIndex: nat

    ghost predicate Valid() reads this { nextIndex <= |authorized| }

    constructor (identity: Identity, authorized: seq<CookieRecord>)
      ensures Valid() && this.identity == identity && this.authorized == authorized && nextIndex == 0
    {
      this.identity := identity;
      this.authorized := authorized;
      nextIndex := 0;
    }

    method Present(current: seq<CookieRecord>, k: string) returns (found: bool)
      ensures found <==> HasIdentity(identity, current, k)
    {
      for j := 0 to |current|
        invariant forall m :: 0 <= m < j ==> identity(current[m]) != k
      {
        if identity(current[j]) == k { return true; }
      }
      return false;
    }

    method Find(current: seq<CookieRecord>, k: string) returns (found: Option<CookieRecord>)
      ensures found.Some? ==> found.value in current && identity(found.value) == k
      ensures found.None? ==> !HasIdentity(identity, current, k)
    {
      for j := 0 to |current|
        invariant forall m :: 0 <= m < j ==> identity(current[m]) != k
      {
        if identity(current[j]) == k { return Some(current[j]); }
      }
      return None;
    }

    method ExpectedMap(remaining: seq<CookieRecord>) returns (expected: map<string, CookieRecord>)
      ensures expected == ByIdentity(identity, remaining)
    {
      expected := map[];
      for j := 0 to |remaining|
        invariant expected == ByIdentity(identity, remaining[..j])
      {
        expected := expected[identity(remaining[j]) := remaining[j]];
        assert remaining[..j + 1][..j] == remaining[..j];
      }
      assert remaining[..|remaining|] == remaining;
    }

    method Next(current: seq<CookieRecord>) returns (v: Verdict)
      requires Valid()
      modifies this`nextIndex
      ensures Valid()
      ensures (nextIndex, v) == NextStep(identity, authorized, old(nextIndex), current)
    {
      var remaining := authorized[nextIndex..];
      var expected := ExpectedMap(remaining);
      for j := 0 to |current|
        invariant nextIndex == old(nextIndex)
        invariant forall m :: 0 <= m < j ==> Expected(identity, remaining, current[m])
      {
        var k := identity(current[j]);
        ByIdentityIsLast(identity, remaining, current[j]);
        if k !in expected || expected[k] != current[j] {
          assert current[j] in current && !Expected(identity, remaining, current[j]);
          return Mutation;
        }
      }
      while nextIndex < |authorized|
        invariant old(nextIndex) <= nextIndex <= |authorized|
        invariant FirstPresent(identity, authorized, old(nextIndex), current) ==
                    FirstPresent(identity, authorized, nextIndex, current)
      {
        var candidate := authorized[nextIndex];
        nextIndex := nextIndex + 1;
        var present := Present(current, identity(candidate));
        if present { return Delete(candidate); }
      }
      return if |current| == 0 then Done else Mutation;
    }
  }

  // ---------------------------------------------------------------------------------------------
  // The removal loop
  // ---------------------------------------------------------------------------------------------

  /** cookieRoundTripMatches: whole-second rounding of a persistent expiry is the only difference
      admitted. */
  predicate RoundTripMatches(id: Identity, expected: CookieRecord, actual: CookieRecord) {
    && id(expected) == id(actual)
    && expected.value == actual.value && expected.hostOnly == actual.hostOnly && expected.httpOnly == actual.httpOnly
    && expected.secure == actual.secure && expected.session == actual.session && expected.sameSite == actual.sameSite
    && (!expected.session ==>
          && expected.expirationDate.Some? && actual.expirationDate.Some?
          && -1.0 <= expected.expirationDate.value - actual.expirationDate.value <= 1.0)
  }

  /** What that test demands of a record that is found unchanged: a persistent one has an expiry. */
  predicate Removable(c: CookieRecord) { c.session || c.expirationDate.Some? }

  datatype Outcome = Outcome(success: bool, remaining: nat)

  /** Every deleted record was authorised, was present exactly so in the read before its deletion,
      and that read held nothing that was not authorised. */
  ghost predicate Justified(authorized: seq<CookieRecord>, removed: seq<CookieRecord>, readAt: seq<nat>,
                            observe: nat -> seq<CookieRecord>) {
    && |removed| == |readAt|
    && (forall k :: 0 <= k < |removed| ==> removed[k] in authorized && removed[k] in observe(readAt[k]))
    && (forall k, c :: 0 <= k < |removed| && c in observe(readAt[k]) ==> c in authorized)
  }

  /** Every deleted record was gone at the read that followed. */
  ghost predicate Effective(id: Identity, removed: seq<CookieRecord>, readAt: seq<nat>,
                            observe: nat -> seq<CookieRecord>) {
    && |removed| == |readAt|
    && forall k :: 0 <= k < |removed| ==> !HasIdentity(id, observe(readAt[k] + 1), id(removed[k]))
  }

  /** The deleted records are distinct and lie before position i of the authorised list. */
  ghost predicate Behind(id: Identity, authorized: seq<CookieRecord>, i: nat, removed: seq<CookieRecord>) {
    && Unique(id, removed)
    && forall k :: 0 <= k < |removed| ==> Earlier(authorized, i, removed[k])
  }

  ghost predicate Earlier(authorized: seq<CookieRecord>, i: nat, c: CookieRecord) {
    exists m :: 0 <= m < i && m < |authorized| && authorized[m] == c
  }

  /** The loop's account so far: position i, and whether every deletion took effect. */
  ghost predicate Account(id: Identity, authorized: seq<CookieRecord>, i: nat, removed: seq<CookieRecord>,
                          readAt: seq<nat>,
                          observe: nat -> seq<CookieRecord>, effective: bool) {
    && Justified(authorized, removed, readAt, observe)
    && Behind(id, authorized, i, removed)
    && (effective ==> Effective(id, removed, readAt, observe))
  }

  /** The part of the list behind the last deleted record. */
  ghost predicate Position(authorized: seq<CookieRecord>, i: nat, removed: seq<CookieRecord>) {
    i <= |authorized| && if removed == [] then i == 0 else i > 0 && removed[|removed| - 1] == authorized[i - 1]
  }

  /** What the last reads must show for the loop to report a failure: a cookie at the end, a cookie that is
      not authorised or was already passed, a record that cannot be deleted as it was found, or the
      record just deleted. */
  ghost predicate FailsBy(id: Identity, authorized: seq<CookieRecord>, removed: seq<CookieRecord>, readAt: seq<nat>,
                          observe: nat -> seq<CookieRecord>, n: nat)
    requires n > 0
  {
    || observe(n - 1) != []
    || (n > 1 && exists i: nat, c :: Position(authorized, i, removed) && c in observe(n - 2) && c !in authorized[i..])
    || (n > 1 && exists c :: c in observe(n - 2) && c in authorized && !Removable(c))
    || (n > 2 && removed != [] && |readAt| == |removed| && readAt[|readAt| - 1] == n - 3
        && HasIdentity(id, observe(n - 2), id(removed[|removed| - 1])))
  }

  /** A browser that only the loop changes: read 2k shows, in any order, exactly the records from k on,
      and read 2k + 1 no longer shows record k. */
  ghost predicate Undisturbed(id: Identity, authorized: seq<CookieRecord>, observe: nat -> seq<CookieRecord>) {
    && (forall c :: c in authorized ==> Removable(c))
    && (forall k :: 0 <= k <= |authorized| ==> UndisturbedAt(id, authorized, observe, k, 2 * k))
    && observe(2 * |authorized| + 1) == []
  }

  ghost predicate UndisturbedAt(id: Identity, authorized: seq<CookieRecord>, observe: nat -> seq<CookieRecord>, k: nat,
                                r: nat)
    requires k <= |authorized|
  {
    && SameRecords(observe(r), authorized[k..])
    && (k < |authorized| ==> !HasIdentity(id, observe(r + 1), id(authorized[k])))
  }

  ghost predicate SameRecords(a: seq<CookieRecord>, b: seq<CookieRecord>) { forall c :: c in a <==> c in b }

  lemma UndisturbedStep(id: Identity, authorized: seq<CookieRecord>, k: nat, current: seq<CookieRecord>)
    requires Unique(id, authorized) && k <= |authorized| && SameRecords(current, authorized[k..])
    ensures NextStep(id, authorized, k, current) ==
              if k < |authorized| then (k + 1, Delete(authorized[k])) else (k, Done)
    ensures k == |authorized| <==> current == []
  {
    var rest := authorized[k..];
    HasFirst(current);
    forall c
      ensures Expected(id, rest, c) <==> c in current
    {
      UniqueLast(id, rest, c);
    }
    if k < |authorized| {
      assert rest[0] in current;
      assert HasIdentity(id, current, id(authorized[k]));
    } else {
      assert rest == [];
    }
  }

  lemma HasFirst(s: seq<CookieRecord>)
    ensures s == [] || s[0] in s
  {
  }

  lemma MutationFails(id: Identity, authorized: seq<CookieRecord>, i: nat, removed: seq<CookieRecord>,
                      readAt: seq<nat>, observe: nat -> seq<CookieRecord>, r: nat)
    requires Unique(id, authorized) && Position(authorized, i, removed)
    requires NextStep(id, authorized, i, observe(r)).1.Mutation?
    ensures FailsBy(id, authorized, removed, readAt, observe, r + 2)
  {
    NextStepMeaning(id, authorized, i, observe(r));
    var c :| c in observe(r) && !Expected(id, authorized[i..], c);
    UniqueLast(id, authorized[i..], c);
    assert c in observe(r + 2 - 2) && c !in authorized[i..];
  }

  lemma UnremovableFails(id: Identity, authorized: seq<CookieRecord>, removed: seq<CookieRecord>, readAt: seq<nat>,
                         observe: nat -> seq<CookieRecord>, r: nat, c: CookieRecord)
    requires c in observe(r) && c in authorized && !Removable(c)
    ensures FailsBy(id, authorized, removed, readAt, observe, r + 2)
  {
    assert c in observe(r + 2 - 2);
  }

  lemma PersistingFails(id: Identity, authorized: seq<CookieRecord>, removed: seq<CookieRecord>, readAt: seq<nat>,
                        observe: nat -> seq<CookieRecord>, r: nat, c: CookieRecord)
    requires |readAt| == |removed| && HasIdentity(id, observe(r + 1), id(c))
    ensures FailsBy(id, authorized, removed + [c], readAt + [r], observe, r + 3)
  {
    assert (removed + [c])[|removed|] == c && (readAt + [r])[|readAt|] == r;
    assert HasIdentity(id, observe(r + 3 - 2), id(c));
  }

  /** What the loop did: whether no step failed, the records handed to the browser's delete call with the
      reads that preceded them, and how many decisions and reads it took. */
  datatype Trace = Trace(success: bool, removed: seq<CookieRecord>, readAt: seq<nat>, steps: nat, observed: nat)

  /** The loop from position i and read r on, with what it has done before. */
  function LoopFrom(id: Identity, authorized: seq<CookieRecord>, i: nat, removed: seq<CookieRecord>, readAt: seq<nat>,
                    steps: nat, r: nat, observe: nat -> seq<CookieRecord>): Trace
    requires i <= |authorized|
    decreases |authorized| - i
  {
    var (n, v) := NextStep(id, authorized, i, observe(r));
    match v
    case Mutation => Trace(false, removed, readAt, steps + 1, r + 1)
    case Done => Trace(true, removed, readAt, steps + 1, r + 1)
    case Delete(c) =>
      if !RoundTripMatches(id, c, c) then Trace(false, removed, readAt, steps + 1, r + 1)
      else if HasIdentity(id, observe(r + 1), id(c)) then
        Trace(false, removed + [c], readAt + [r], steps + 1, r + 2)
      else LoopFrom(id, authorized, n, removed + [c], readAt + [r], steps + 1, r + 2, observe)
  }

  function LoopTrace(id: Identity, authorized: seq<CookieRecord>, observe: nat -> seq<CookieRecord>): Trace {
    LoopFrom(id, authorized, 0, [], [], 0, 0, observe)
  }

  lemma {:induction false} LoopKeeps(id: Identity, authorized: seq<CookieRecord>, i: nat, removed: seq<CookieRecord>,
                                     readAt: seq<nat>, steps: nat, r: nat, observe: nat -> seq<CookieRecord>)
    requires Unique(id, authorized) && i <= |authorized| && steps <= i
    requires Account(id, authorized, i, removed, readAt, observe, true)
    ensures var t := LoopFrom(id, authorized, i, removed, readAt, steps, r, observe);
            && 1 <= t.steps <= |authorized| + 1 && t.observed > r
            && Justified(authorized, t.removed, t.readAt, observe) && Unique(id, t.removed)
            && (t.success ==> observe(t.observed - 1) == [] && Effective(id, t.removed, t.readAt, observe))
    decreases |authorized| - i
  {
    DecisionFacts(id, authorized, i, observe(r));
    var (n, v) := NextStep(id, authorized, i, observe(r));
    if v.Delete? && RoundTripMatches(id, v.record, v.record) {
      AccountNext(id, authorized, i, n, removed, readAt, observe, r);
      if !HasIdentity(id, observe(r + 1), id(v.record)) {
        LoopKeeps(id, authorized, n, removed + [v.record], readAt + [r], steps + 1, r + 2, observe);
      }
    }
  }

  /** The loop ends with this turn, or goes on behind the deleted record. */
  lemma LoopTurn(id: Identity, authorized: seq<CookieRecord>, i: nat, removed: seq<CookieRecord>, readAt: seq<nat>,
                 steps: nat, r: nat, observe: nat -> seq<CookieRecord>)
    requires i <= |authorized|
    ensures var (n, v) := NextStep(id, authorized, i, observe(r));
            var goesOn := v.Delete? && RoundTripMatches(id, v.record, v.record)
                          && !HasIdentity(id, observe(r + 1), id(v.record));
            && (goesOn ==>
                  i < n <= |authorized|
                  && LoopFrom(id, authorized, i, removed, readAt, steps, r, observe) ==
                       LoopFrom(id, authorized, n, removed + [v.record], readAt + [r], steps + 1, r + 2, observe))
            && (!goesOn ==>
                  LoopFrom(id, authorized, i, removed, readAt, steps, r, observe) ==
                    if v.Delete? && RoundTripMatches(id, v.record, v.record) then
                      Trace(false, removed + [v.record], readAt + [r], steps + 1, r + 2)
                    else Trace(v.Done?, removed, readAt, steps + 1, r + 1))
  {
  }

  lemma TurnFails(id: Identity, authorized: seq<CookieRecord>, i: nat, removed: seq<CookieRecord>, readAt: seq<nat>,
                  r: nat, observe: nat -> seq<CookieRecord>)
    requires Unique(id, authorized) && Position(authorized, i, removed) && |readAt| == |removed|
    ensures var v := NextStep(id, authorized, i, observe(r)).1;
            && (v.Mutation? || (v.Delete? && !RoundTripMatches(id, v.record, v.record)) ==>
                  FailsBy(id, authorized, removed, readAt, observe, r + 2))
            && (v.Delete? && HasIdentity(id, observe(r + 1), id(v.record)) ==>
                  FailsBy(id, authorized, removed + [v.record], readAt + [r], observe, r + 3))
  {
    var v := NextStep(id, authorized, i, observe(r)).1;
    DecisionFacts(id, authorized, i, observe(r));
    if v.Mutation? {
      MutationFails(id, authorized, i, removed, readAt, observe, r);
    } else if v.Delete? {
      if !RoundTripMatches(id, v.record, v.record) {
        UnremovableFails(id, authorized, removed, readAt, observe, r, v.record);
      }
      if HasIdentity(id, observe(r + 1), id(v.record)) {
        PersistingFails(id, authorized, removed, readAt, observe, r, v.record);
      }
    }
  }

  lemma NextPosition(authorized: seq<CookieRecord>, n: nat, removed: seq<CookieRecord>)
    requires 0 < n <= |authorized|
    ensures Position(authorized, n, removed + [authorized[n - 1]])
  {
  }

  /** A failure has its reason in what the last reads showed. */
  ghost predicate Reasoned(id: Identity, authorized: seq<CookieRecord>, observe: nat -> seq<CookieRecord>, t: Trace) {
    !t.success ==> FailsBy(id, authorized, t.removed, t.readAt, observe, t.observed + 1)
  }

  lemma LastTurnReasoned(id: Identity, authorized: seq<CookieRecord>, i: nat, removed: seq<CookieRecord>,
                         readAt: seq<nat>, steps: nat, r: nat, observe: nat -> seq<CookieRecord>)
    requires Unique(id, authorized) && Position(authorized, i, removed) && |readAt| == |removed|
    ensures var v := NextStep(id, authorized, i, observe(r)).1;
            && (!(v.Delete? && RoundTripMatches(id, v.record, v.record)) ==>
                  Reasoned(id, authorized, observe, Trace(v.Done?, removed, readAt, steps + 1, r + 1)))
            && (v.Delete? && HasIdentity(id, observe(r + 1), id(v.record)) ==>
                  Reasoned(id, authorized, observe,
                           Trace(false, removed + [v.record], readAt + [r], steps + 1, r + 2)))
  {
    TurnFails(id, authorized, i, removed, readAt, r, observe);
  }

  lemma {:induction false} LoopReasoned(id: Identity, authorized: seq<CookieRecord>, i: nat, removed: seq<CookieRecord>,
                                        readAt: seq<nat>, steps: nat, r: nat, observe: nat -> seq<CookieRecord>)
    requires Unique(id, authorized) && Position(authorized, i, removed) && |readAt| == |removed|
    ensures Reasoned(id, authorized, observe, LoopFrom(id, authorized, i, removed, readAt, steps, r, observe))
    decreases |authorized| - i
  {
    var (n, v) := NextStep(id, authorized, i, observe(r));
    LoopTurn(id, authorized, i, removed, readAt, steps, r, observe);
    if v.Delete? && RoundTripMatches(id, v.record, v.record) && !HasIdentity(id, observe(r + 1), id(v.record)) {
      DeleteIsExact(id, authorized, i, observe(r));
      NextPosition(authorized, n, removed);
      LoopReasoned(id, authorized, n, removed + [v.record], readAt + [r], steps + 1, r + 2, observe);
    } else {
      LastTurnReasoned(id, authorized, i, removed, readAt, steps, r, observe);
    }
  }

  lemma UndisturbedTurn(id: Identity, authorized: seq<CookieRecord>, k: nat, readAt: seq<nat>, r: nat,
                        observe: nat -> seq<CookieRecord>)
    requires Unique(id, authorized) && k <= |authorized| && UndisturbedAt(id, authorized, observe, k, r)
    requires forall c :: c in authorized ==> Removable(c)
    ensures LoopFrom(id, authorized, k, authorized[..k], readAt, k, r, observe) ==
              if k == |authorized| then Trace(true, authorized, readAt, k + 1, r + 1)
              else LoopFrom(id, authorized, k + 1, authorized[..k + 1], readAt + [r], k + 1, r + 2, observe)
  {
    UndisturbedStep(id, authorized, k, observe(r));
    if k < |authorized| {
      assert authorized[k] in authorized && Removable(authorized[k]);
      assert authorized[..k] + [authorized[k]] == authorized[..k + 1];
    } else {
      assert authorized[..k] == authorized;
    }
  }

  /** In a browser that only the loop changes, the loop removes every record, in order, and succeeds. */
  lemma {:induction false} LoopUndisturbed(id: Identity, authorized: seq<CookieRecord>, k: nat, readAt: seq<nat>,
                                           r: nat, observe: nat -> seq<CookieRecord>)
    requires Unique(id, authorized) && k <= |authorized| && Undisturbed(id, authorized, observe) && r == 2 * k
    ensures var t := LoopFrom(id, authorized, k, authorized[..k], readAt, k, r, observe);
            t.success && t.removed == authorized && t.steps == |authorized| + 1 && t.observed == 2 * |authorized| + 1
    decreases |authorized| - k
  {
    assert UndisturbedAt(id, authorized, observe, k, 2 * k);
    UndisturbedTurn(id, authorized, k, readAt, r, observe);
    if k < |authorized| { LoopUndisturbed(id, authorized, k + 1, readAt + [r], r + 2, observe); }
  }

  lemma LoopUndisturbedWhole(id: Identity, authorized: seq<CookieRecord>, observe: nat -> seq<CookieRecord>)
    requires Unique(id, authorized) && Undisturbed(id, authorized, observe)
    ensures var t := LoopTrace(id, authorized, observe);
            t.success && t.removed == authorized && t.steps == |authorized| + 1 && observe(t.observed) == []
  {
    assert authorized[..0] == [];
    LoopUndisturbed(id, authorized, 0, [], 0, observe);
  }

  lemma LoopTraceKeeps(id: Identity, authorized: seq<CookieRecord>, observe: nat -> seq<CookieRecord>)
    requires Unique(id, authorized)
    ensures var t := LoopTrace(id, authorized, observe);
            && 1 <= t.steps <= |authorized| + 1 && t.observed > 0
            && Justified(authorized, t.removed, t.readAt, observe) && Unique(id, t.removed)
            && (t.success ==> observe(t.observed - 1) == [] && Effective(id, t.removed, t.readAt, observe))
  {
    LoopKeeps(id, authorized, 0, [], [], 0, 0, observe);
  }

  lemma LoopTraceReasoned(id: Identity, authorized: seq<CookieRecord>, observe: nat -> seq<CookieRecord>)
    requires Unique(id, authorized)
    ensures var t := LoopTrace(id, authorized, observe);
            !t.success || observe(t.observed) != [] ==>
              FailsBy(id, authorized, t.removed, t.readAt, observe, t.observed + 1)
  {
    LoopReasoned(id, authorized, 0, [], [], 0, 0, observe);
  }

  /** The removal loop, turn by turn, up to the point where it breaks off. */
  method RemovalLoop(id: Identity, authorized: seq<CookieRecord>, observe: nat -> seq<CookieRecord>)
    returns (success: bool, removed: seq<CookieRecord>, readAt: seq<nat>, steps: nat, observed: nat)
    requires Unique(id, authorized)
    ensures Trace(success, removed, readAt, steps, observed) == LoopTrace(id, authorized, observe)
  {
    var plan := new GuardedRemovalPlan(id, authorized);
    var finished := false;
    success, removed, readAt, steps, observed := true, [], [], 0, 0;
    while !finished
      invariant plan.Valid() && plan.identity == id && plan.authorized == authorized
      invariant LoopTrace(id, authorized, observe) ==
                  if finished then Trace(success, removed, readAt, steps, observed)
                  else LoopFrom(id, authorized, plan.nextIndex, removed, readAt, steps, observed, observe)
      invariant !finished ==> success
      decreases !finished, |authorized| - plan.nextIndex
    {
      var current := observe(observed);
      DecisionFacts(id, authorized, plan.nextIndex, current);
      var v := plan.Next(current);
      steps, observed := steps + 1, observed + 1;
      match v
      case Mutation => success, finished := false, true;
      case Done => finished := true;
      case Delete(record) =>
        var actual := plan.Find(current, id(record));
        if actual.None? || !RoundTripMatches(id, record, actual.value) {
          success, finished := false, true;
        } else {
          removed, readAt := removed + [actual.value], readAt + [observed - 1];
          var after := observe(observed);
          observed := observed + 1;
          var still := plan.Present(after, id(record));
          if still { success, finished := false, true; }
        }
    }
  }

  /** The whole loop against a browser that may add, change or drop cookies between any two reads:
      `observe(k)` is what read number k returns. `removed` lists the records handed to the
      browser's delete call and `readAt[k]` the read that preceded the k-th deletion. */
  method RemoveAuthorized(id: Identity, authorized: seq<CookieRecord>, observe: nat -> seq<CookieRecord>)
    returns (out: Outcome, removed: seq<CookieRecord>, readAt: seq<nat>, steps: nat, observed: nat)
    requires Unique(id, authorized)
    ensures 1 <= steps <= |authorized| + 1
    ensures Justified(authorized, removed, readAt, observe)
    ensures Unique(id, removed)
    ensures observed > 0 && out.remaining == |observe(observed - 1)|
    ensures out.success ==> out.remaining == 0 && observed > 1 && observe(observed - 2) == []
    ensures out.success ==> Effective(id, removed, readAt, observe)
    ensures !out.success ==> FailsBy(id, authorized, removed, readAt, observe, observed)
    ensures Undisturbed(id, authorized, observe) ==> out.success && removed == authorized && steps == |authorized| + 1
  {
    var success;
    success, removed, readAt, steps, observed := RemovalLoop(id, authorized, observe);
    LoopTraceKeeps(id, authorized, observe);
    LoopTraceReasoned(id, authorized, observe);
    if Undisturbed(id, authorized, observe) { LoopUndisturbedWhole(id, authorized, observe); }
    var remaining := |observe(observed)|;
    observed := observed + 1;
    out := Outcome(success && remaining == 0, remaining);
  }

  /** Deleting the record at position n - 1, read in observation r, keeps the account of the loop. */
  lemma AccountNext(id: Identity, authorized: seq<CookieRecord>, i: nat, n: nat, removed: seq<CookieRecord>,
                    readAt: seq<nat>, observe: nat -> seq<CookieRecord>, r: nat)
    requires Unique(id, authorized) && i < n <= |authorized|
    requires Account(id, authorized, i, removed, readAt, observe, true)
    requires authorized[n - 1] in observe(r) && forall c :: c in observe(r) ==> c in authorized
    ensures Account(id, authorized, n, removed + [authorized[n - 1]], readAt + [r], observe,
                    !HasIdentity(id, observe(r + 1), id(authorized[n - 1])))
    ensures Account(id, authorized, n, removed + [authorized[n - 1]], readAt + [r], observe, false)
  {
  }

  /** Everything the loop needs to know of one decision. */
  lemma DecisionFacts(id: Identity, authorized: seq<CookieRecord>, i: nat, current: seq<CookieRecord>)
    requires i <= |authorized| && Unique(id, authorized)
    ensures var (n, v) := NextStep(id, authorized, i, current);
            && i <= n <= |authorized|
            && (v.Done? ==> current == [])
            && (v.Delete? ==> i < n && v.record == authorized[n - 1] && v.record in current)
            && (v.Delete? ==> forall c :: c in current ==> c in authorized && (id(c) == id(v.record) ==> c == v.record))
  {
    NextStepMeaning(id, authorized, i, current);
    DeleteIsExact(id, authorized, i, current);
    if !NextStep(id, authorized, i, current).1.Mutation? { ExpectedAreAuthorized(id, authorized, i, current); }
  }

  lemma ExpectedAreAuthorized(id: Identity, authorized: seq<CookieRecord>, i: nat, current: seq<CookieRecord>)
    requires i <= |authorized| && !NextStep(id, authorized, i, current).1.Mutation?
    ensures forall c :: c in current ==> c in authorized
  {
    NextStepMeaning(id, authorized, i, current);
    forall c | c in current
      ensures c in authorized
    {
      assert Expected(id, authorized[i..], c);
    }
  }

  // ---------------------------------------------------------------------------------------------
  // Comparing two snapshots
  // ---------------------------------------------------------------------------------------------

  predicate SnapshotsEqual(id: Identity, expected: seq<CookieRecord>, actual: seq<CookieRecord>) {
    && |expected| == |actual|
    && (forall c :: c in expected ==> id(c) in ByIdentity(id, actual) && ByIdentity(id, actual)[id(c)] == c)
  }

  function Elements(s: seq<CookieRecord>): set<CookieRecord> { set c | c in s }

  lemma {:induction false} UniqueSize(id: Identity, s: seq<CookieRecord>)
    requires Unique(id, s)
    ensures |Elements(s)| == |s|
  {
    if s != [] {
      var t, c := s[..|s| - 1], s[|s| - 1];
      UniqueSize(id, t);
      assert Elements(s) == Elements(t) + {c};
      assert c !in t;
    }
  }

  lemma SubsetOfSameSize(a: set<CookieRecord>, b: set<CookieRecord>)
    requires a <= b && |a| == |b|
    ensures a == b
  {
    assert b == a + (b - a);
    assert |b - a| == 0;
  }

  /** On two readings of the browser the comparison decides equality as sets, whatever the order. */
  lemma SnapshotsEqualMeaning(id: Identity, expected: seq<CookieRecord>, actual: seq<CookieRecord>)
    requires Unique(id, expected) && Unique(id, actual)
    ensures SnapshotsEqual(id, expected, actual) <==> Elements(expected) == Elements(actual)
  {
    UniqueSize(id, expected);
    UniqueSize(id, actual);
    forall c
      ensures id(c) in ByIdentity(id, actual) && ByIdentity(id, actual)[id(c)] == c <==> c in actual
    {
      ByIdentityIsLast(id, actual, c);
      UniqueLast(id, actual, c);
    }
    if SnapshotsEqual(id, expected, actual) {
      SubsetOfSameSize(Elements(expected), Elements(actual));
    }
    if Elements(expected) == Elements(actual) {
      forall c | c in expected
        ensures c in actual
      {
        assert c in Elements(expected);
      }
    }
  }
}
