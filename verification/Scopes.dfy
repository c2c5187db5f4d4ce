/** Account-group scopes: what a valid config is and which group owns a host
    (native-host/src/config.rs, extension/src/protocol.ts). */
module Scopes {
  import opened Base

  const MAX_GROUPS: nat := 32
  const MAX_SCOPE_LEN: nat := 253

  // ---------------------------------------------------------------------------------------------
  // Domain text
  // ---------------------------------------------------------------------------------------------

  function LowerChar(c: char): char { if 'A' <= c <= 'Z' then c + 32 as char else c }

  function Lower(s: string): (r: string)
    ensures |r| == |s| && forall i :: 0 <= i < |s| ==> r[i] == LowerChar(s[i])
  {
    seq(|s|, i requires 0 <= i < |s| => LowerChar(s[i]))
  }

  /** The extension drops one leading dot. */
  function StripDot(s: string): string { if s != [] && s[0] == '.' then s[1..] else s }

  /** The host drops all leading dots. */
  function TrimDots(s: string): (r: string)
    ensures r == [] || r[0] != '.'
  {
    if s != [] && s[0] == '.' then TrimDots(s[1..]) else s
  }

  function NormalizeCookieDomain(s: string): string { Lower(StripDot(s)) }

  function NormalizeScope(s: string): string { Lower(TrimDots(s)) }

  predicate EndsWith(s: string, t: string) { |t| <= |s| && s[|s| - |t|..] == t }

  /** A host is the scope itself or a subdomain of it. */
  predicate Under(scope: string, host: string) { host == scope || EndsWith(host, "." + scope) }

  predicate Overlap(a: string, b: string) { Under(a, b) || Under(b, a) }

  // ---------------------------------------------------------------------------------------------
  // Labels
  // ---------------------------------------------------------------------------------------------

  /** The labels with one more character in front. */
  function Prefixed(c: char, rest: seq<string>): seq<string>
    requires rest != []
  {
    if c == '.' then [""] + rest else [[c] + rest[0]] + rest[1..]
  }

  /** The labels of a name: what stands between its dots. */
  function Labels(s: string): (l: seq<string>)
    ensures |l| >= 1
  {
    if s == [] then [""]
    else
      Prefixed(s[0], Labels(s[1..]))
  }

  function Dotted(l: seq<string>): string
    requires l != []
  {
    if |l| == 1 then l[0] else l[0] + "." + Dotted(l[1..])
  }

  lemma DottedFirst(l: seq<string>, c: char)
    requires l != []
    ensures Dotted([[c] + l[0]] + l[1..]) == [c] + Dotted(l)
  {
    var n := [[c] + l[0]] + l[1..];
    assert n[0] == [c] + l[0] && n[1..] == l[1..];
  }

  /** The labels hold no dot, and put together with dots they are the name: so they are the only such
      list, and two names with the same labels are the same. */
  lemma {:induction false} LabelsMeaning(s: string)
    ensures Dotted(Labels(s)) == s && forall l :: l in Labels(s) ==> '.' !in l
  {
    if s != [] {
      LabelsMeaning(s[1..]);
      var rest := Labels(s[1..]);
      if s[0] == '.' {
        assert ([""] + rest)[1..] == rest;
      } else {
        DottedFirst(rest, s[0]);
        assert rest[0] in rest && forall l :: l in rest[1..] ==> l in rest;
      }
    }
  }

  lemma PrefixedJoin(c: char, r: seq<string>, b: seq<string>)
    requires r != []
    ensures Prefixed(c, r + b) == Prefixed(c, r) + b
  {
    assert (r + b)[1..] == r[1..] + b;
  }

  lemma LabelsCons(c: char, s: string)
    ensures Labels([c] + s) == Prefixed(c, Labels(s))
  {
    assert ([c] + s)[1..] == s;
  }

  lemma {:induction false} LabelsJoin(a: string, b: string)
    ensures Labels(a + "." + b) == Labels(a) + Labels(b)
  {
    if a == [] {
      LabelsCons('.', b);
      assert a + "." + b == ['.'] + b;
    } else {
      LabelsJoin(a[1..], b);
      LabelsCons(a[0], a[1..] + "." + b);
      LabelsCons(a[0], a[1..]);
      PrefixedJoin(a[0], Labels(a[1..]), Labels(b));
      assert a + "." + b == [a[0]] + (a[1..] + "." + b) && a == [a[0]] + a[1..];
    }
  }

  /** The last labels of b are exactly a's. */
  predicate IsTail(a: seq<string>, b: seq<string>) { |a| <= |b| && b[|b| - |a|..] == a }

  lemma DottedTail(l: seq<string>, k: nat)
    requires 0 < k < |l|
    ensures Dotted(l) == Dotted(l[..k]) + "." + Dotted(l[k..])
    decreases k
  {
    if k == 1 {
      assert l[..1][0] == l[0];
    } else {
      DottedTail(l[1..], k - 1);
      assert l[1..][..k - 1] == l[..k][1..] && l[1..][k - 1..] == l[k..] && l[..k][0] == l[0];
    }
  }

  lemma UnderTail(scope: string, host: string)
    requires Under(scope, host)
    ensures IsTail(Labels(scope), Labels(host))
  {
    if host != scope {
      var a := host[..|host| - |scope| - 1];
      assert host == a + ("." + scope) == a + "." + scope;
      LabelsJoin(a, scope);
    }
  }

  lemma TailUnder(scope: string, host: string)
    requires IsTail(Labels(scope), Labels(host))
    ensures Under(scope, host)
  {
    LabelsMeaning(scope);
    LabelsMeaning(host);
    var k := |Labels(host)| - |Labels(scope)|;
    if k > 0 { DottedSplit(Labels(host), k, scope); }
  }

  lemma DottedSplit(l: seq<string>, k: nat, scope: string)
    requires 0 < k < |l| && Dotted(l[k..]) == scope
    ensures Under(scope, Dotted(l))
  {
    DottedTail(l, k);
    DottedEnds(Dotted(l[..k]), scope);
  }

  lemma DottedEnds(a: string, scope: string)
    ensures Under(scope, a + "." + scope)
  {
    assert a + "." + scope == a + ("." + scope);
  }

  /** A host lies under a scope if and only if the scope's labels are the host's last ones: "b.example" is
      under "example" and "badexample" is not. */
  lemma UnderIff(scope: string, host: string)
    ensures Under(scope, host) <==> IsTail(Labels(scope), Labels(host))
  {
    if Under(scope, host) { UnderTail(scope, host); }
    if IsTail(Labels(scope), Labels(host)) { TailUnder(scope, host); }
  }

  /** Equal but for the case of ASCII letters. */
  predicate SameText(a: string, b: string) {
    |a| == |b| && forall i :: 0 <= i < |a| ==> SameLetter(a[i], b[i])
  }

  predicate SameLetter(a: char, b: char) {
    || a == b
    || ('A' <= a <= 'Z' && b as int == a as int + 32)
    || ('A' <= b <= 'Z' && a as int == b as int + 32)
  }

  lemma LowerIff(a: string, b: string)
    ensures Lower(a) == Lower(b) <==> SameText(a, b)
  {
    if Lower(a) == Lower(b) {
      forall i | 0 <= i < |a|
        ensures SameLetter(a[i], b[i])
      {
        assert Lower(a)[i] == Lower(b)[i];
      }
    }
    if SameText(a, b) {
      forall i | 0 <= i < |a|
        ensures Lower(a)[i] == Lower(b)[i]
      {
        assert SameLetter(a[i], b[i]);
      }
    }
  }

  lemma LowerOnce(s: string)
    ensures SameText(s, Lower(s)) && forall c :: c in Lower(s) ==> !('A' <= c <= 'Z')
  {
    forall i | 0 <= i < |s|
      ensures SameLetter(s[i], Lower(s)[i]) && !('A' <= Lower(s)[i] <= 'Z')
    {
    }
  }

  /** A scope without empty labels: no dot at either end and no two in a row. */
  predicate DotsApart(s: string) {
    && s != [] && s[0] != '.' && s[|s| - 1] != '.'
    && forall i :: 0 <= i < |s| - 1 ==> !(s[i] == '.' && s[i + 1] == '.')
  }

  predicate Filled(l: seq<string>) { forall i :: 0 <= i < |l| ==> l[i] != "" }

  /** No dot at the end and no two in a row. */
  predicate NoneEmptyAfter(s: string) {
    (s != [] ==> s[|s| - 1] != '.') && forall i :: 0 <= i < |s| - 1 ==> !(s[i] == '.' && s[i + 1] == '.')
  }

  lemma NoneEmptyAfterRest(s: string)
    requires s != []
    ensures NoneEmptyAfter(s) <==>
              NoneEmptyAfter(s[1..]) && (s[0] == '.' ==> |s| > 1 && s[1] != '.')
  {
    var r := s[1..];
    assert forall i :: 0 <= i < |r| ==> r[i] == s[i + 1];
    if NoneEmptyAfter(s) {
      forall i | 0 <= i < |r| - 1
        ensures !(r[i] == '.' && r[i + 1] == '.')
      {
        assert !(s[i + 1] == '.' && s[i + 2] == '.');
      }
    }
    if NoneEmptyAfter(r) && (s[0] == '.' ==> |s| > 1 && s[1] != '.') {
      forall i | 0 <= i < |s| - 1
        ensures !(s[i] == '.' && s[i + 1] == '.')
      {
        if i > 0 { assert !(r[i - 1] == '.' && r[i] == '.'); }
      }
    }
  }

  lemma FirstLabel(s: string)
    ensures Labels(s)[0] == "" <==> s == [] || s[0] == '.'
  {
  }

  lemma FilledSplit(l: seq<string>)
    requires l != []
    ensures Filled(l) <==> l[0] != "" && Filled(l[1..])
  {
    assert l == [l[0]] + l[1..];
  }

  lemma {:induction false} LaterLabels(s: string)
    ensures Filled(Labels(s)[1..]) <==> NoneEmptyAfter(s)
  {
    if s != [] {
      var r := s[1..];
      LaterLabels(r);
      NoneEmptyAfterRest(s);
      FirstLabel(r);
      FilledSplit(Labels(r));
      if s[0] == '.' {
        assert Labels(s)[1..] == Labels(r);
      } else {
        assert Labels(s)[1..] == Labels(r)[1..];
      }
    }
  }

  /** That is what it means for every label to be non-empty. */
  lemma DotsApartIff(s: string)
    ensures DotsApart(s) <==> Filled(Labels(s))
  {
    FirstLabel(s);
    LaterLabels(s);
    FilledSplit(Labels(s));
  }

  // ---------------------------------------------------------------------------------------------
  // Ownership
  // ---------------------------------------------------------------------------------------------

  lemma SuffixAt(s: string, t: string, k: nat)
    requires EndsWith(s, t) && k < |t|
    ensures s[|s| - |t| + k] == t[k]
  {
    assert s[|s| - |t|..][k] == t[k];
  }

  /** Two scopes that both cover one host are nested. */
  lemma CommonHostNests(a: string, b: string, host: string)
    requires Under(a, host) && Under(b, host) && |a| <= |b|
    ensures Under(a, b)
  {
    var d := |b| - |a|;
    if host != b && host != a {
      forall k | 0 <= k < |a|
        ensures b[d + k] == a[k]
      {
        SuffixAt(host, "." + a, k + 1);
        SuffixAt(host, "." + b, d + k + 1);
      }
      if d == 0 {
        assert a == b;
      } else {
        SuffixAt(host, "." + a, 0);
        SuffixAt(host, "." + b, d);
        assert b[d - 1] == '.';
        assert b[d - 1..] == "." + a;
      }
    }
  }

  /** Hosts of scopes that do not overlap are disjoint, and overlapping scopes share a host. */
  lemma DisjointScopes(a: string, b: string)
    ensures !Overlap(a, b) <==> forall host :: !(Under(a, host) && Under(b, host))
  {
    if !Overlap(a, b) {
      forall host
        ensures !(Under(a, host) && Under(b, host))
      {
        if Under(a, host) && Under(b, host) {
          if |a| <= |b| { CommonHostNests(a, b, host); } else { CommonHostNests(b, a, host); }
        }
      }
    } else if Under(a, b) {
      assert Under(a, b) && Under(b, b);
    } else {
      assert Under(a, a) && Under(b, a);
    }
  }

  // ---------------------------------------------------------------------------------------------
  // Configs
  // ---------------------------------------------------------------------------------------------

  datatype Group = Group(id: Uuid, displayName: string, scope: string, monitoringOnly: bool)

  datatype Config = Config(version: nat, compatibilityVersion: nat, groups: seq<Group>)

  predicate ScopeChar(c: char) { 'a' <= c <= 'z' || 'A' <= c <= 'Z' || '0' <= c <= '9' || c == '.' || c == '-' }

  /** `registrable` answers for the IPv4 parser and the public-suffix list. */
  predicate ValidScope(s: string, registrable: string -> bool) {
    || s == "localhost"
    || (&& s != [] && |s| <= MAX_SCOPE_LEN
        && s[|s| - 1] != '.'
        && (forall i :: 0 <= i < |s| - 1 ==> !(s[i] == '.' && s[i + 1] == '.'))
        && (forall c :: c in s ==> ScopeChar(c))
        && registrable(s))
  }

  predicate ValidConfig(c: Config, blank: string -> bool, registrable: string -> bool) {
    c.version == 3 && c.compatibilityVersion == 3 && |c.groups| <= MAX_GROUPS
    && GroupsValid(c.groups, blank, registrable)
  }

  predicate ScopesDisjoint(groups: seq<Group>) {
    forall i, j :: 0 <= i < j < |groups| ==> !Overlap(NormalizeScope(groups[i].scope), NormalizeScope(groups[j].scope))
  }

  /** Neither name is the other or inside it. */
  predicate Apart(a: string, b: string) { !IsTail(Labels(a), Labels(b)) && !IsTail(Labels(b), Labels(a)) }

  lemma ApartIff(a: string, b: string)
    ensures Apart(a, b) <==> !Overlap(a, b)
  {
    UnderIff(a, b);
    UnderIff(b, a);
  }

  method OverlapsAny(scope: string, scopes: seq<string>) returns (hit: bool)
    ensures hit <==> exists k :: 0 <= k < |scopes| && Overlap(scopes[k], scope)
    ensures !hit <==> forall k :: 0 <= k < |scopes| ==> Apart(scopes[k], scope)
  {
    forall k | 0 <= k < |scopes|
      ensures Apart(scopes[k], scope) <==> !Overlap(scopes[k], scope)
    {
      ApartIff(scopes[k], scope);
    }
    for k := 0 to |scopes|
      invariant forall m :: 0 <= m < k ==> !Overlap(scopes[m], scope)
    {
      var existing := scopes[k];
      if scope == existing || EndsWith(scope, "." + existing) || EndsWith(existing, "." + scope) { return true; }
    }
    return false;
  }

  /** A character of a label in lower case. */
  predicate LabelChar(c: char) { 'a' <= c <= 'z' || '0' <= c <= '9' || c == '-' }

  /** A name as a browser would have it: labels of letters, digits and hyphens, none empty. */
  predicate WellNamed(s: string, registrable: string -> bool) {
    |s| <= 253 && registrable(s) && Filled(Labels(s)) && Spelled(Labels(s))
  }

  predicate Spelled(l: seq<string>) { forall i :: 0 <= i < |l| ==> forall c :: c in l[i] ==> LabelChar(c) }

  lemma PrefixedSpelled(c: char, rest: seq<string>)
    requires rest != []
    ensures Spelled(Prefixed(c, rest)) <==> Spelled(rest) && (c == '.' || LabelChar(c))
  {
    var all := Prefixed(c, rest);
    if c == '.' {
      assert forall i :: 0 <= i < |rest| ==> all[i + 1] == rest[i];
    } else {
      assert forall i :: 1 <= i < |rest| ==> all[i] == rest[i];
      assert c in all[0] && forall d :: d in rest[0] ==> d in all[0];
    }
  }

  lemma {:induction false} SpelledIff(s: string)
    ensures Spelled(Labels(s)) <==> forall c :: c in s ==> LabelChar(c) || c == '.'
  {
    if s != [] {
      SpelledIff(s[1..]);
      PrefixedSpelled(s[0], Labels(s[1..]));
      assert s == [s[0]] + s[1..];
    }
  }

  /** A normalised scope is accepted if and only if it is "localhost" or a registrable name of at most 253
      characters with well-formed labels. */
  lemma ValidScopeIff(raw: string, registrable: string -> bool)
    ensures var s := NormalizeScope(raw);
            ValidScope(s, registrable) <==> s == "localhost" || WellNamed(s, registrable)
  {
    var s := NormalizeScope(raw);
    NormalizedChars(raw);
    DotsApartIff(s);
    SpelledIff(s);
    assert forall c :: c in s ==> (ScopeChar(c) <==> LabelChar(c) || c == '.');
  }

  lemma NormalizedChars(raw: string)
    ensures var s := NormalizeScope(raw);
            && (s == [] || s[0] != '.') && (forall c :: c in s ==> !('A' <= c <= 'Z'))
  {
    LowerOnce(TrimDots(raw));
  }

  predicate GroupValid(g: Group, blank: string -> bool, registrable: string -> bool) {
    g.id != NIL && !blank(g.displayName) && ValidScope(NormalizeScope(g.scope), registrable)
  }

  /** The groups of a valid config, in the order the loop meets them. */
  predicate GroupsValid(groups: seq<Group>, blank: string -> bool, registrable: string -> bool) {
    && (forall i :: 0 <= i < |groups| ==> GroupValid(groups[i], blank, registrable))
    && (forall i, j :: 0 <= i < j < |groups| ==> groups[i].id != groups[j].id)
    && ScopesDisjoint(groups)
  }

  function IdsOf(groups: seq<Group>): set<Uuid> { set k | 0 <= k < |groups| :: groups[k].id }

  function ScopesOf(groups: seq<Group>): (s: seq<string>)
    ensures |s| == |groups|
  {
    seq(|groups|, k requires 0 <= k < |groups| => NormalizeScope(groups[k].scope))
  }

  lemma IdsSnoc(groups: seq<Group>, g: Group)
    ensures IdsOf(groups + [g]) == IdsOf(groups) + {g.id}
    ensures ScopesOf(groups + [g]) == ScopesOf(groups) + [NormalizeScope(g.scope)]
  {
    var all := groups + [g];
    assert all[|groups|] == g;
    forall id | id in IdsOf(groups)
      ensures id in IdsOf(all)
    {
      var k :| 0 <= k < |groups| && groups[k].id == id;
      assert all[k].id == id;
    }
  }

  predicate Joins(groups: seq<Group>, g: Group, blank: string -> bool, registrable: string -> bool) {
    && GroupValid(g, blank, registrable) && g.id !in IdsOf(groups)
    && forall k :: 0 <= k < |groups| ==> !Overlap(ScopesOf(groups)[k], NormalizeScope(g.scope))
  }

  lemma JoinedValid(groups: seq<Group>, g: Group, blank: string -> bool, registrable: string -> bool)
    requires GroupsValid(groups, blank, registrable) && Joins(groups, g, blank, registrable)
    ensures GroupsValid(groups + [g], blank, registrable)
  {
    var all := groups + [g];
    forall k | 0 <= k < |groups|
      ensures all[k] == groups[k] && groups[k].id != g.id
      ensures !Overlap(NormalizeScope(groups[k].scope), NormalizeScope(g.scope))
    {
      assert groups[k].id in IdsOf(groups);
      assert !Overlap(ScopesOf(groups)[k], NormalizeScope(g.scope));
    }
    assert all[|groups|] == g;
  }

  lemma NotJoined(groups: seq<Group>, g: Group, blank: string -> bool, registrable: string -> bool)
    requires GroupsValid(groups + [g], blank, registrable)
    ensures Joins(groups, g, blank, registrable)
  {
    var all := groups + [g];
    assert GroupValid(all[|groups|], blank, registrable) && all[|groups|] == g;
    forall k | 0 <= k < |groups|
      ensures groups[k].id != g.id && !Overlap(ScopesOf(groups)[k], NormalizeScope(g.scope))
    {
      assert all[k] == groups[k] && all[k].id != all[|groups|].id;
      assert !Overlap(NormalizeScope(all[k].scope), NormalizeScope(all[|groups|].scope));
    }
  }

  lemma MustJoin(groups: seq<Group>, i: nat, blank: string -> bool, registrable: string -> bool)
    requires i < |groups|
    ensures GroupsValid(groups, blank, registrable) ==> Joins(groups[..i], groups[i], blank, registrable)
  {
    if GroupsValid(groups, blank, registrable) {
      GroupsValidPrefix(groups, i + 1, blank, registrable);
      assert groups[..i + 1] == groups[..i] + [groups[i]];
      NotJoined(groups[..i], groups[i], blank, registrable);
    }
  }

  lemma GroupsValidPrefix(groups: seq<Group>, i: nat, blank: string -> bool, registrable: string -> bool)
    requires i <= |groups|
    ensures GroupsValid(groups, blank, registrable) ==> GroupsValid(groups[..i], blank, registrable)
  {
  }

  /** At most 32 groups with distinct ids and visible names, each with a well-formed scope that is neither
      another's nor inside another's, in the current version of the format. */
  predicate Unambiguous(c: Config, blank: string -> bool, registrable: string -> bool) {
    && c.version == 3 && c.compatibilityVersion == 3 && |c.groups| <= 32
    && (forall g :: g in c.groups ==> g.id != 0 && !blank(g.displayName))
    && (forall g :: g in c.groups ==>
          NormalizeScope(g.scope) == "localhost" || WellNamed(NormalizeScope(g.scope), registrable))
    && (forall i, j :: 0 <= i < j < |c.groups| ==> c.groups[i].id != c.groups[j].id)
    && (forall i, j :: 0 <= i < j < |c.groups| ==>
          Apart(NormalizeScope(c.groups[i].scope), NormalizeScope(c.groups[j].scope)))
  }

  lemma UnambiguousIff(c: Config, blank: string -> bool, registrable: string -> bool)
    ensures ValidConfig(c, blank, registrable) <==> Unambiguous(c, blank, registrable)
  {
    forall g: Group
      ensures ValidScope(NormalizeScope(g.scope), registrable) <==>
                NormalizeScope(g.scope) == "localhost" || WellNamed(NormalizeScope(g.scope), registrable)
    {
      ValidScopeIff(g.scope, registrable);
    }
    forall a: string, b: string
      ensures Apart(a, b) <==> !Overlap(a, b)
    {
      ApartIff(a, b);
    }
    assert forall g :: g in c.groups <==> exists i :: 0 <= i < |c.groups| && c.groups[i] == g;
  }

  method Validate(c: Config, blank: string -> bool, registrable: string -> bool) returns (r: Result<()>)
    ensures r == if ValidConfig(c, blank, registrable) then Ok(()) else Err(Format)
    ensures r.Ok? <==> Unambiguous(c, blank, registrable)
  {
    UnambiguousIff(c, blank, registrable);
    if c.version != 3 || c.compatibilityVersion != 3 || |c.groups| > MAX_GROUPS { return Err(Format); }
    var ids: set<Uuid> := {};
    var scopes: seq<string> := [];
    for i := 0 to |c.groups|
      invariant ids == IdsOf(c.groups[..i]) && scopes == ScopesOf(c.groups[..i])
      invariant GroupsValid(c.groups[..i], blank, registrable)
    {
      var g := c.groups[i];
      var scope := NormalizeScope(g.scope);
      var accepted := g.id != NIL && g.id !in ids && !blank(g.displayName);
      if accepted {
        var hit := OverlapsAny(scope, scopes);
        accepted := !hit && ValidScope(scope, registrable);
      }
      MustJoin(c.groups, i, blank, registrable);
      if !accepted { return Err(Format); }
      JoinedValid(c.groups[..i], g, blank, registrable);
      IdsSnoc(c.groups[..i], g);
      assert c.groups[..i + 1] == c.groups[..i] + [g];
      ids, scopes := ids + {g.id}, scopes + [scope];
    }
    assert c.groups[..|c.groups|] == c.groups;
    return Ok(());
  }

  // ---------------------------------------------------------------------------------------------
  // Lookup
  // ---------------------------------------------------------------------------------------------

  /** hostInScope of the extension, which strips only one leading dot from both sides. */
  predicate HostInScope(scope: string, rawHost: string)
  {
    Under(NormalizeCookieDomain(scope), NormalizeCookieDomain(rawHost))
  }

  function FirstMatch(groups: seq<Group>, rawHost: string): Option<Group> {
    if groups == [] then None
    else if HostInScope(groups[0].scope, rawHost) then Some(groups[0])
    else FirstMatch(groups[1..], rawHost)
  }

  lemma {:induction false} TrimIsSuffix(s: string)
    ensures var n := |TrimDots(s)|;
            n <= |s| && TrimDots(s) == s[|s| - n..] && (n < |s| ==> s[|s| - n - 1] == '.')
  {
    if s != [] && s[0] == '.' { TrimIsSuffix(s[1..]); }
  }

  /** What the host drops from a scope is dots only, and all of them. */
  lemma {:induction false} TrimDropsDots(s: string)
    ensures var k := |s| - |TrimDots(s)|;
            && 0 <= k <= |s| && TrimDots(s) == s[k..] && (forall i :: 0 <= i < k ==> s[i] == '.')
            && (k < |s| ==> s[k] != '.')
  {
    if s != [] && s[0] == '.' {
      TrimDropsDots(s[1..]);
      var k := |s| - |TrimDots(s)|;
      assert forall i :: 1 <= i < k ==> s[i] == s[1..][i - 1];
    }
  }

  /** A host is in a scope for the extension if and only if, one leading dot of each and the case of
      letters aside, the scope's labels are the host's last ones. */
  lemma HostInScopeIff(scope: string, rawHost: string)
    ensures var s := if scope != [] && scope[0] == '.' then scope[1..] else scope;
            var h := if rawHost != [] && rawHost[0] == '.' then rawHost[1..] else rawHost;
            HostInScope(scope, rawHost) <==> IsTail(Labels(Lower(s)), Labels(Lower(h)))
  {
    UnderIff(NormalizeCookieDomain(scope), NormalizeCookieDomain(rawHost));
  }

  lemma LowerTrimSuffix(s: string)
    ensures |TrimDots(s)| < |s| ==> EndsWith(Lower(s), "." + Lower(TrimDots(s)))
    ensures |TrimDots(s)| == |s| ==> TrimDots(s) == s
    ensures |TrimDots(s)| <= |s|
  {
    TrimIsSuffix(s);
    var t := TrimDots(s);
    if |t| < |s| {
      var a, b := Lower(s)[|s| - |t| - 1..], "." + Lower(t);
      forall k | 0 <= k < |a|
        ensures a[k] == b[k]
      {
        assert k > 0 ==> b[k] == LowerChar(t[k - 1]);
      }
      assert a == b;
    }
  }

  lemma SuffixOfSuffix(s: string, t: string, u: string)
    requires EndsWith(s, t) && EndsWith(t, u)
    ensures EndsWith(s, u)
  {
    assert s[|s| - |u|..] == s[|s| - |t|..][|t| - |u|..];
  }

  /** What the extension counts as inside a scope, the host's normalised scope covers as well. */
  lemma ExtensionWithinHost(scope: string, rawHost: string)
    requires HostInScope(scope, rawHost)
    ensures Under(NormalizeScope(scope), NormalizeCookieDomain(rawHost))
  {
    var host, one, all := NormalizeCookieDomain(rawHost), NormalizeCookieDomain(scope), NormalizeScope(scope);
    var s := StripDot(scope);
    assert TrimDots(scope) == TrimDots(s);
    LowerTrimSuffix(s);
    if |TrimDots(s)| < |s| {
      if host != one {
        assert ("." + one)[1..] == one;
        SuffixOfSuffix(host, "." + one, one);
      }
      SuffixOfSuffix(host, one, "." + all);
    }
  }

  /** More than one leading dot: the host drops them all, the extension keeps the second. */
  predicate DoubleDot(scope: string) { |scope| >= 2 && scope[0] == '.' && scope[1] == '.' }

  /** A scope with two leading dots does not match its own host in the extension. */
  lemma DoubleDotMissesOwnHost(scope: string)
    requires DoubleDot(scope)
    ensures var host := TrimDots(scope);
            Under(NormalizeScope(scope), NormalizeCookieDomain(host)) && !HostInScope(scope, host)
  {
    TrimIsSuffix(scope[2..]);
    assert TrimDots(scope) == TrimDots(scope[1..]) == TrimDots(scope[2..]);
    var host := TrimDots(scope);
    assert StripDot(host) == host && StripDot(scope) == scope[1..];
    TooLong(Lower(scope[1..]), Lower(host));
  }

  lemma TooLong(scope: string, host: string)
    requires |host| < |scope|
    ensures !Under(scope, host)
  {
  }

  /** The two sides agree on every host if and only if the scope has at most one leading dot. */
  lemma SidesAgreeIff(scope: string)
    ensures (forall h :: HostInScope(scope, h) <==> Under(NormalizeScope(scope), NormalizeCookieDomain(h))) <==>
              !DoubleDot(scope)
  {
    if DoubleDot(scope) {
      DoubleDotMissesOwnHost(scope);
    } else {
      assert StripDot(scope) == TrimDots(scope);
    }
  }

  /** Such a scope passes the host's validation: with it the extension protects nothing of the site. */
  lemma DoubleDotPassesValidation(name: string, blank: string -> bool, registrable: string -> bool)
    requires !blank(name)
    ensures ValidConfig(Config(3, 3, [Group(1, name, "..localhost", false)]), blank, registrable)
    ensures !HostInScope("..localhost", "localhost")
    ensures Under(NormalizeScope("..localhost"), NormalizeCookieDomain("localhost"))
  {
    var scope := "..localhost";
    assert scope[2..] == "localhost" && TrimDots(scope) == TrimDots(scope[1..]) == TrimDots(scope[2..]) == "localhost";
    assert Lower("localhost") == "localhost";
    DoubleDotMissesOwnHost(scope);
  }

  lemma {:induction false} FirstMatchSound(groups: seq<Group>, rawHost: string)
    ensures var m := FirstMatch(groups, rawHost);
            if m.Some? then m.value in groups && HostInScope(m.value.scope, rawHost)
            else forall g :: g in groups ==> !HostInScope(g.scope, rawHost)
  {
    if groups != [] && !HostInScope(groups[0].scope, rawHost) { FirstMatchSound(groups[1..], rawHost); }
  }

  /** In a valid config no host or cookie domain lies in two groups' scopes. */
  lemma OneOwner(groups: seq<Group>, i: nat, j: nat, rawHost: string)
    requires ScopesDisjoint(groups) && i < |groups| && j < |groups|
    requires HostInScope(groups[i].scope, rawHost) && HostInScope(groups[j].scope, rawHost)
    ensures i == j
  {
    ExtensionWithinHost(groups[i].scope, rawHost);
    ExtensionWithinHost(groups[j].scope, rawHost);
    if i != j {
      DisjointScopes(NormalizeScope(groups[i].scope), NormalizeScope(groups[j].scope));
      DisjointScopes(NormalizeScope(groups[j].scope), NormalizeScope(groups[i].scope));
    }
  }

  /** So the first match is the only match, and reordering the groups never changes the owner. */
  lemma LookupIgnoresOrder(groups: seq<Group>, reordered: seq<Group>, rawHost: string)
    requires ScopesDisjoint(groups) && multiset(groups) == multiset(reordered)
    ensures FirstMatch(groups, rawHost) == FirstMatch(reordered, rawHost)
  {
    FirstMatchSound(groups, rawHost);
    FirstMatchSound(reordered, rawHost);
    assert forall g :: g in groups <==> g in multiset(groups);
    assert forall g :: g in reordered <==> g in multiset(reordered);
    var a, b := FirstMatch(groups, rawHost), FirstMatch(reordered, rawHost);
    if a.Some? && b.Some? {
      var i :| 0 <= i < |groups| && groups[i] == a.value;
      var j :| 0 <= j < |groups| && groups[j] == b.value;
      OneOwner(groups, i, j, rawHost);
    }
  }
}
