/** The identity string of a cookie (extension/src/protocol.ts). */
module CookieIdentity {
  import opened Base
  import opened Scopes
  import GR = GuardedRemoval

  const SEPARATOR: char := '\0'

  /** The origin of a URL, or None where parsing fails: a parameter of the model. */
  type Origin = string -> Option<string>

  function NormalizeTopLevelSite(origin: Origin, site: string): string {
    if site == "" then ""
    else match origin(site)
      case Some(o) => Lower(o)
      case None => var s := Lower(site); if s != [] && s[|s| - 1] == '/' then s[..|s| - 1] else s
  }

  function Join(fields: seq<string>): string {
    if fields == [] then ""
    else if |fields| == 1 then fields[0]
    else fields[0] + [SEPARATOR] + Join(fields[1..])
  }

  function Fields(origin: Origin, c: CookieRecord): (f: seq<string>)
    ensures |f| == 6
  {
    var site := if c.partitionKey.Some?
    && c.partitionKey.value.topLevelSite.Some? then c.partitionKey.value.topLevelSite.value else "";
    var ancestor := if c.partitionKey.Some? then c.partitionKey.value.hasCrossSiteAncestor else None;
    [c.name, NormalizeCookieDomain(c.domain), c.path, c.storeId, NormalizeTopLevelSite(origin, site),
     if ancestor == Some(true) then "1" else if ancestor == Some(false) then "0" else ""]
  }

  function Identity(origin: Origin, c: CookieRecord): string { Join(Fields(origin, c)) }

  predicate SeparatorFree(fields: seq<string>) {
    forall i :: 0 <= i < |fields| ==> SEPARATOR !in fields[i]
  }

  lemma FirstSeparator(a: string, x: string)
    requires SEPARATOR !in a
    ensures var l := a + [SEPARATOR] + x;
            l[|a|] == SEPARATOR && (forall k :: 0 <= k < |a| ==> l[k] != SEPARATOR) && l[..|a|] == a
            && l[|a| + 1..] == x
  {
    var l := a + [SEPARATOR] + x;
    assert forall k :: 0 <= k < |a| ==> l[k] == a[k];
  }

  lemma SplitAtSeparator(a: string, x: string, b: string, y: string)
    requires SEPARATOR !in a && SEPARATOR !in b && a + [SEPARATOR] + x == b + [SEPARATOR] + y
    ensures a == b && x == y
  {
    FirstSeparator(a, x);
    FirstSeparator(b, y);
  }

  /** The joiner is unambiguous: equal identities come from equal fields. */
  lemma {:induction false} JoinInjective(f: seq<string>, g: seq<string>)
    requires |f| == |g| && SeparatorFree(f) && SeparatorFree(g) && Join(f) == Join(g)
    ensures f == g
  {
    if |f| > 1 {
      SplitAtSeparator(f[0], Join(f[1..]), g[0], Join(g[1..]));
      JoinInjective(f[1..], g[1..]);
      assert f == [f[0]] + f[1..] && g == [g[0]] + g[1..];
    }
  }

  function Bare(domain: string): string { if domain != [] && domain[0] == '.' then domain[1..] else domain }

  function SiteOf(c: CookieRecord): string {
    match c.partitionKey
    case Some(PartitionKey(Some(site), _)) => site
    case _ => ""
  }

  function AncestorOf(c: CookieRecord): Option<bool> {
    match c.partitionKey
    case Some(k) => k.hasCrossSiteAncestor
    case None => None
  }

  /** One cookie to the extension: name, path, store and partition agree, and the domains do but for a
      leading dot and the case of letters. */
  predicate SameCookie(origin: Origin, a: CookieRecord, b: CookieRecord) {
    && a.name == b.name && a.path == b.path && a.storeId == b.storeId
    && SameText(Bare(a.domain), Bare(b.domain))
    && NormalizeTopLevelSite(origin, SiteOf(a)) == NormalizeTopLevelSite(origin, SiteOf(b))
    && AncestorOf(a) == AncestorOf(b)
  }

  function Flag(ancestor: Option<bool>): string {
    match ancestor
    case Some(true) => "1"
    case Some(false) => "0"
    case None => ""
  }

  lemma FlagDecides(a: Option<bool>, b: Option<bool>)
    ensures Flag(a) == Flag(b) <==> a == b
  {
    assert "1"[0] != "0"[0];
  }

  lemma FieldsAre(origin: Origin, c: CookieRecord)
    ensures Fields(origin, c) == [c.name, Lower(Bare(c.domain)), c.path, c.storeId,
                                  NormalizeTopLevelSite(origin, SiteOf(c)), Flag(AncestorOf(c))]
  {
  }

  lemma FieldsDecide(origin: Origin, a: CookieRecord, b: CookieRecord)
    ensures Fields(origin, a) == Fields(origin, b) <==> SameCookie(origin, a, b)
  {
    LowerIff(Bare(a.domain), Bare(b.domain));
    FieldsAre(origin, a);
    FieldsAre(origin, b);
    FlagDecides(AncestorOf(a), AncestorOf(b));
  }

  lemma IdentityDecides(origin: Origin, a: CookieRecord, b: CookieRecord)
    requires SeparatorFree(Fields(origin, a)) && SeparatorFree(Fields(origin, b))
    ensures Identity(origin, a) == Identity(origin, b) <==> SameCookie(origin, a, b)
  {
    FieldsDecide(origin, a, b);
    if Identity(origin, a) == Identity(origin, b) { JoinInjective(Fields(origin, a), Fields(origin, b)); }
  }

  /** A host-only cookie and a domain cookie with the same name, host and path are two cookies for the
      browser and one for the extension: a reading shows only the one found last. */
  lemma HostOnlyTwinIsHidden(origin: Origin, id: GR.Identity, c: CookieRecord, twin: CookieRecord,
                             read: seq<CookieRecord>)
    requires forall r :: id(r) == Identity(origin, r)
    requires c.domain == [] || c.domain[0] != '.'
    requires twin == c.(domain := "." + c.domain, hostOnly := false, value := twin.value)
    requires GR.IsReading(id, [c, twin], read)
    ensures Identity(origin, c) == Identity(origin, twin)
    ensures read == [twin]
  {
    assert StripDot(twin.domain) == c.domain;
    assert Fields(origin, c) == Fields(origin, twin);
    var found := [c, twin];
    assert found[1] == twin;
    assert GR.LastOf(id, found, twin);
    forall i | 0 <= i < |read|
      ensures read[i] == twin
    {
      assert GR.LastOf(id, found, read[i]);
      assert id(c) == id(twin);
    }
    GR.UniqueSize(id, read);
    assert twin in read && GR.Elements(read) == {twin};
  }

  /** With fields free of the separator, a reading hides some cookie if and only if two different cookies
      agree in name, normalised domain, path, store and partition. */
  lemma ReadingHidesIff(origin: Origin, id: GR.Identity, found: seq<CookieRecord>, read: seq<CookieRecord>)
    requires forall r :: id(r) == Identity(origin, r)
    requires forall c :: c in found ==> SeparatorFree(Fields(origin, c))
    requires GR.IsReading(id, found, read)
    ensures (exists c :: c in found && c !in read) <==>
              (exists a, b :: a in found && b in found && a != b && SameCookie(origin, a, b))
  {
    GR.ReadingShowsAllIff(id, found, read);
    forall a, b | a in found && b in found
      ensures id(a) == id(b) <==> SameCookie(origin, a, b)
    {
      assert id(a) == Identity(origin, a) && id(b) == Identity(origin, b);
      IdentityDecides(origin, a, b);
    }
    ShownIff(origin, id, found, read);
  }

  lemma ShownIff(origin: Origin, id: GR.Identity, found: seq<CookieRecord>, read: seq<CookieRecord>)
    requires forall a, b :: a in found && b in found ==> (id(a) == id(b) <==> SameCookie(origin, a, b))
    requires (forall c :: c in found ==> c in read) <==>
               (forall a, b :: a in found && b in found && id(a) == id(b) ==> a == b)
    ensures (exists c :: c in found && c !in read) <==>
              (exists a, b :: a in found && b in found && a != b && SameCookie(origin, a, b))
  {
    assert (forall a, b :: a in found && b in found && id(a) == id(b) ==> a == b) <==>
             (forall a, b :: a in found && b in found && SameCookie(origin, a, b) ==> a == b);
  }
}
