/** Resource manifests: validation, canonical form, hash, and the no-active-removal rule. */
module Manifests {
  import opened Wrappers
  import opened Strings
  import Sorting

  const VISIBILITY_PUBLIC := "public"
  const VISIBILITY_INTERNAL := "internal"
  const STATUS_ACTIVE := "active"
  const STATUS_DEPRECATED := "deprecated"
  const MANIFEST_SCHEMA_V1 := 1
  const MAX_RESOURCE_SCOPES := 100
  const MAX_DESCRIPTION_LEN := 300
  const MAX_DISPLAY_NAME_LEN := 120
  const MAX_RESOURCE_ID_LEN := 64
  const IDENTITY_SERVICE := "identity"
  const INTERNAL_PREFIX := "internal"
  const ACCOUNT_RESOURCE_ID := "account"
  const SYSTEM_ACCOUNT_PUBLISHER := "system://ctech-account"

  datatype ScopeDefinition = ScopeDefinition(
    scope: string,
    descriptions: map<string, string>,
    description: string,
    descriptionPT: string,
    visibility: string,
    status: string,
    m2m: bool)

  datatype Manifest = Manifest(
    schemaVersion: int,
    resourceServerId: string,
    displayName: string,
    scopes: seq<ScopeDefinition>)

  /** The empty hash of a freshly provisioned resource, or the digest of a canonical manifest.
      A digest is represented by what was digested, so it is injective. */
  datatype Hash = Unset | Digest(canonical: Manifest)

  datatype RegistryError = InvalidResource | ScopeRemoval | RevisionConflict | ResourceNotFound | ResourceAlreadyExists

  // ---------------------------------------------------------------- the scope grammar

  predicate IsSegmentChar(c: char) {
    'a' <= c <= 'z' || '0' <= c <= '9'
  }

  predicate IsSegment(s: string) {
    && s != ""
    && IsSegmentChar(s[0])
    && forall i :: 0 <= i < |s| ==> IsSegmentChar(s[i]) || s[i] in "_-"
  }

  predicate IsOidc(s: string) {
    s in {"openid", "profile", "email", "kyc"}
  }

  /** The OIDC names, service:resource[:action] with wildcards, or internal:service:resource[:action]. */
  predicate IsValidScope(s: string) {
    var parts := Split(s, ':');
    || IsOidc(s)
    || (|parts| in {2, 3} && IsSegment(parts[0])
        && forall i :: 1 <= i < |parts| ==> parts[i] == "*" || IsSegment(parts[i]))
    || (|parts| in {3, 4} && parts[0] == INTERNAL_PREFIX
        && forall i :: 1 <= i < |parts| ==> IsSegment(parts[i]))
  }

  /** Which texts of two parts are scopes. */
  lemma TwoParts(a: string, b: string)
    requires ':' !in a && ':' !in b
    ensures IsValidScope(a + ":" + b) <==> IsSegment(a) && (b == "*" || IsSegment(b))
  {
    hide IsOidc, IsSegment, Split;
    SplitFirst(a, b, ':');
    SplitNone(b, ':');
    OidcHasNoColon(a + ":" + b, |a|);
    var parts := Split(a + ":" + b, ':');
    assert parts == [a, b] && parts[0] == a && parts[1] == b;
  }

  /** Of three parts: a service with resource and action, or the internal one with two segments. */
  lemma ThreeParts(a: string, b: string, c: string)
    requires ':' !in a && ':' !in b && ':' !in c
    ensures IsValidScope(a + ":" + b + ":" + c) <==>
              || (IsSegment(a) && (b == "*" || IsSegment(b)) && (c == "*" || IsSegment(c)))
              || (a == "internal" && IsSegment(b) && IsSegment(c))
  {
    hide IsOidc, IsSegment, Split;
    SplitFirst(a, b + ":" + c, ':');
    SplitFirst(b, c, ':');
    SplitNone(c, ':');
    assert a + ":" + b + ":" + c == a + ":" + (b + ":" + c);
    OidcHasNoColon(a + ":" + b + ":" + c, |a|);
    var parts := Split(a + ":" + b + ":" + c, ':');
    assert parts == [a, b, c] && parts[0] == a && parts[1] == b && parts[2] == c;
  }

  /** Of four parts: the internal service with three segments. */
  lemma FourParts(a: string, b: string, c: string, d: string)
    requires ':' !in a && ':' !in b && ':' !in c && ':' !in d
    ensures IsValidScope(a + ":" + b + ":" + c + ":" + d) <==>
              a == "internal" && IsSegment(b) && IsSegment(c) && IsSegment(d)
  {
    hide IsOidc, IsSegment, Split;
    SplitFirst(a, b + ":" + (c + ":" + d), ':');
    SplitFirst(b, c + ":" + d, ':');
    SplitFirst(c, d, ':');
    SplitNone(d, ':');
    assert a + ":" + b + ":" + c + ":" + d == a + ":" + (b + ":" + (c + ":" + d));
    OidcHasNoColon(a + ":" + b + ":" + c + ":" + d, |a|);
    var parts := Split(a + ":" + b + ":" + c + ":" + d, ':');
    assert parts == [a, b, c, d] && parts[0] == a && parts[1] == b && parts[2] == c && parts[3] == d;
  }

  lemma OidcHasNoColon(s: string, i: nat)
    requires i < |s| && s[i] == ':'
    ensures !IsOidc(s)
  {}

  predicate ValidResourceId(id: string) {
    && 0 < |id| <= MAX_RESOURCE_ID_LEN
    && 'a' <= id[0] <= 'z'
    && forall i :: 0 <= i < |id| ==> IsSegmentChar(id[i]) || id[i] in "_-"
  }

  // ---------------------------------------------------------------- validation

  function EnglishText(d: ScopeDefinition): string {
    if d.description == "" then Lookup(d.descriptions, "en") else d.description
  }

  function PortugueseText(d: ScopeDefinition): string {
    if d.descriptionPT == "" then Lookup(d.descriptions, "pt-BR") else d.descriptionPT
  }

  predicate ConcreteScope(scope: string) {
    IsValidScope(scope) && '*' !in scope && !IsOidc(scope)
  }

  predicate DescriptionsOk(d: ScopeDefinition) {
    && TrimSpace(EnglishText(d)) != "" && ByteLen(EnglishText(d)) <= MAX_DESCRIPTION_LEN
    && TrimSpace(PortugueseText(d)) != "" && ByteLen(PortugueseText(d)) <= MAX_DESCRIPTION_LEN
  }

  function PublicNamespace(id: string): string {
    id + ":"
  }

  function InternalNamespace(id: string): string {
    INTERNAL_PREFIX + ":" + id + ":"
  }

  /** A public scope lives under its owner's name; an internal one under internal:owner and is never m2m. */
  predicate NamespaceOk(id: string, d: ScopeDefinition) {
    || (d.visibility == VISIBILITY_PUBLIC && HasPrefix(d.scope, PublicNamespace(id)))
    || (d.visibility == VISIBILITY_INTERNAL && HasPrefix(d.scope, InternalNamespace(id)) && !d.m2m)
  }

  predicate EntryOk(id: string, d: ScopeDefinition) {
    && ConcreteScope(d.scope)
    && DescriptionsOk(d)
    && NamespaceOk(id, d)
    && d.status in {STATUS_ACTIVE, STATUS_DEPRECATED}
  }

  const Name := (d: ScopeDefinition) => d.scope

  predicate DistinctScopes(scopes: seq<ScopeDefinition>) {
    forall i, j :: 0 <= i < j < |scopes| ==> scopes[i].scope != scopes[j].scope
  }

  predicate HeaderOk(m: Manifest) {
    && m.schemaVersion == MANIFEST_SCHEMA_V1
    && ValidResourceId(m.resourceServerId)
    && m.resourceServerId != IDENTITY_SERVICE && m.resourceServerId != INTERNAL_PREFIX
    && TrimSpace(m.displayName) != "" && ByteLen(m.displayName) <= MAX_DISPLAY_NAME_LEN
    && 0 < |m.scopes| <= MAX_RESOURCE_SCOPES
  }

  predicate ValidManifest(m: Manifest) {
    && HeaderOk(m)
    && (forall i :: 0 <= i < |m.scopes| ==> EntryOk(m.resourceServerId, m.scopes[i]))
    && DistinctScopes(m.scopes)
  }

  method CheckEntry(id: string, entry: ScopeDefinition) returns (ok: bool)
    ensures ok <==> EntryOk(id, entry)
    ensures ok <==>
              && IsValidScope(entry.scope) && '*' !in entry.scope
              && entry.scope !in {"openid", "profile", "email", "kyc"}
              && (var en := if entry.description != "" then entry.description else Lookup(entry.descriptions, "en");
                  TrimSpace(en) != "" && ByteLen(en) <= 300)
              && (var pt := if entry.descriptionPT != "" then entry.descriptionPT
                            else Lookup(entry.descriptions, "pt-BR");
                  TrimSpace(pt) != "" && ByteLen(pt) <= 300)
              && (if entry.visibility == "public" then HasPrefix(entry.scope, id + ":")
                  else entry.visibility == "internal" && HasPrefix(entry.scope, "internal:" + id + ":") && !entry.m2m)
              && (entry.status == "active" || entry.status == "deprecated")
  {
    assert INTERNAL_PREFIX + ":" + id + ":" == "internal:" + id + ":";
    if !ConcreteScope(entry.scope) {
      return false;
    }
    var description := entry.description;
    var descriptionPT := entry.descriptionPT;
    if description == "" {
      description := Lookup(entry.descriptions, "en");
    }
    if descriptionPT == "" {
      descriptionPT := Lookup(entry.descriptions, "pt-BR");
    }
    if TrimSpace(description) == "" || TrimSpace(descriptionPT) == ""
       || ByteLen(description) > MAX_DESCRIPTION_LEN || ByteLen(descriptionPT) > MAX_DESCRIPTION_LEN {
      return false;
    }
    if entry.visibility == VISIBILITY_PUBLIC {
      if !HasPrefix(entry.scope, PublicNamespace(id)) {
        return false;
      }
    } else if entry.visibility == VISIBILITY_INTERNAL {
      if !HasPrefix(entry.scope, InternalNamespace(id)) {
        return false;
      }
      if entry.m2m {
        return false;
      }
    } else {
      return false;
    }
    return entry.status == STATUS_ACTIVE || entry.status == STATUS_DEPRECATED;
  }

  /** Walks the scopes once with the set of names seen so far; accepts exactly the valid manifests. */
  method ValidateManifest(m: Manifest) returns (r: Result<(), RegistryError>)
    ensures r.Ok? <==> ValidManifest(m)
    ensures r.Ok? <==>
              && m.schemaVersion == 1
              && 1 <= |m.resourceServerId| <= 64 && 'a' <= m.resourceServerId[0] <= 'z'
              && (forall i :: 0 <= i < |m.resourceServerId| ==>
                    var c := m.resourceServerId[i]; 'a' <= c <= 'z' || '0' <= c <= '9' || c == '_' || c == '-')
              && m.resourceServerId != "identity" && m.resourceServerId != "internal"
              && TrimSpace(m.displayName) != "" && ByteLen(m.displayName) <= 120
              && 1 <= |m.scopes| <= 100
              && (forall i :: 0 <= i < |m.scopes| ==> EntryOk(m.resourceServerId, m.scopes[i]))
              && (forall i, j :: 0 <= i < j < |m.scopes| ==> m.scopes[i].scope != m.scopes[j].scope)
    ensures r.Err? ==> r.error == InvalidResource
  {
    if !HeaderOk(m) {
      return Err(InvalidResource);
    }
    var ok := CheckScopes(m.resourceServerId, m.scopes);
    return if ok then Ok(()) else Err(InvalidResource);
  }

  method CheckScopes(id: string, scopes: seq<ScopeDefinition>) returns (ok: bool)
    ensures ok <==> (forall i :: 0 <= i < |scopes| ==> EntryOk(id, scopes[i])) && DistinctScopes(scopes)
  {
    hide EntryOk, IsValidScope, HasPrefix, ByteLen, TrimSpace, Lookup;
    var seen: set<string> := {};
    for i := 0 to |scopes|
      invariant forall name :: name in seen <==> Lists(scopes[..i], name)
      invariant forall k :: 0 <= k < i ==> EntryOk(id, scopes[k])
      invariant forall k, l :: 0 <= k < l < i ==> scopes[k].scope != scopes[l].scope
    {
      var entry := scopes[i];
      if entry.scope in seen {
        return false;
      }
      assert scopes[..i + 1] == scopes[..i] + [entry];
      forall name ensures Lists(scopes[..i + 1], name) <==> Lists(scopes[..i], name) || name == entry.scope {
        ListsExtend(scopes[..i], entry, name);
      }
      seen := seen + {entry.scope};
      var passed := CheckEntry(id, entry);
      if !passed {
        assert !EntryOk(id, scopes[i]);
        return false;
      }
    }
    return true;
  }

  // ---------------------------------------------------------------- canonical form and hash

  function Normalize(d: ScopeDefinition): ScopeDefinition {
    d.(descriptions := map[],
       description := TrimSpace(EnglishText(d)),
       descriptionPT := TrimSpace(PortugueseText(d)))
  }

  function NormalizeAll(s: seq<ScopeDefinition>): (r: seq<ScopeDefinition>)
    ensures |r| == |s|
    ensures forall i :: 0 <= i < |s| ==> r[i] == Normalize(s[i])
  {
    seq(|s|, i requires 0 <= i < |s| => Normalize(s[i]))
  }

  function Canonical(m: Manifest): Manifest {
    m.(displayName := TrimSpace(m.displayName),
       scopes := Sorting.SortBy(Name, NormalizeAll(m.scopes)))
  }

  function ManifestHash(m: Manifest): Hash {
    Digest(Canonical(m))
  }

  /** The loop body of canonicalManifest on one scope. */
  method NormalizeEntry(entry: ScopeDefinition) returns (d: ScopeDefinition)
    ensures d == Normalize(entry)
    ensures d.scope == entry.scope && d.visibility == entry.visibility && d.status == entry.status
    ensures d.m2m == entry.m2m && d.descriptions == map[]
    ensures d.description ==
            TrimSpace(if entry.description != "" then entry.description else Lookup(entry.descriptions, "en"))
    ensures d.descriptionPT ==
            TrimSpace(if entry.descriptionPT != "" then entry.descriptionPT else Lookup(entry.descriptions, "pt-BR"))
  {
    d := entry;
    if d.description == "" {
      d := d.(description := Lookup(d.descriptions, "en"));
    }
    if d.descriptionPT == "" {
      d := d.(descriptionPT := Lookup(d.descriptions, "pt-BR"));
    }
    d := d.(descriptions := map[]);
    d := d.(description := TrimSpace(d.description));
    d := d.(descriptionPT := TrimSpace(d.descriptionPT));
  }

  /** canonicalManifest: copies the scopes, rewrites each copy in place, then sorts the copy by name. */
  method CanonicalManifest(m: Manifest) returns (r: Manifest)
    ensures r == Canonical(m)
    ensures r.schemaVersion == m.schemaVersion && r.resourceServerId == m.resourceServerId
    ensures r.displayName == TrimSpace(m.displayName)
  {
    hide Normalize, TrimSpace;
    var scopes := new ScopeDefinition[|m.scopes|](i requires 0 <= i < |m.scopes| => m.scopes[i]);
    for i := 0 to scopes.Length
      invariant forall k :: 0 <= k < i ==> scopes[k] == Normalize(m.scopes[k])
      invariant forall k :: i <= k < scopes.Length ==> scopes[k] == m.scopes[k]
    {
      scopes[i] := NormalizeEntry(scopes[i]);
    }
    assert scopes[..] == NormalizeAll(m.scopes);
    r := m;
    r := r.(displayName := TrimSpace(m.displayName));
    r := r.(scopes := Sorting.SortBy(Name, scopes[..]));
  }

  lemma TrimTwice(s: string)
    ensures TrimSpace(TrimSpace(s)) == TrimSpace(s)
  {
    hide TrimLeft, TrimRight, IsSpace;
  }

  lemma NormalizeTwice(d: ScopeDefinition)
    ensures Normalize(Normalize(d)) == Normalize(d)
  {
    TrimTwice(EnglishText(d));
    TrimTwice(PortugueseText(d));
    hide TrimSpace;
  }

  /** Canonical scopes: sorted by name, without duplicates, each one already normalized. */
  ghost predicate CanonicalScopes(s: seq<ScopeDefinition>) {
    && Sorting.Sorted(Name, s)
    && DistinctScopes(s)
    && forall d :: d in s ==> Normalize(d) == d
  }

  /** What canonicalisation does to a duplicate-free scope list: same scopes, normalized, in name order. */
  lemma CanonicalShape(m: Manifest)
    requires DistinctScopes(m.scopes)
    ensures CanonicalScopes(Canonical(m).scopes)
    ensures multiset(Canonical(m).scopes) == multiset(NormalizeAll(m.scopes))
    ensures |Canonical(m).scopes| == |m.scopes|
  {
    var n := NormalizeAll(m.scopes);
    Sorting.SortBySorts(Name, n);
    var s := Sorting.SortBy(Name, n);
    assert Sorting.DistinctKeys(Name, n);
    Sorting.DistinctIsOrderFree(Name, n, s);
    assert DistinctScopes(s) by {
      forall i, j | 0 <= i < j < |s| ensures s[i].scope != s[j].scope {
        assert Name(s[i]) != Name(s[j]);
      }
    }
    forall d | d in s ensures Normalize(d) == d {
      Sorting.SameElements(s, n, d);
      var i :| 0 <= i < |n| && n[i] == d;
      NormalizeTwice(m.scopes[i]);
    }
  }

  lemma NormalizedFixpoint(s: seq<ScopeDefinition>)
    requires CanonicalScopes(s)
    ensures NormalizeAll(s) == s
    ensures Sorting.SortBy(Name, s) == s
  {
    assert forall i :: 0 <= i < |s| ==> s[i] in s;
    Sorting.SortBySorts(Name, s);
    Sorting.Unique(Name, s, Sorting.SortBy(Name, s));
  }

  /** Canonicalising twice is canonicalising once, and the hash does not change. */
  lemma CanonicalIdempotent(m: Manifest)
    requires DistinctScopes(m.scopes)
    ensures Canonical(Canonical(m)) == Canonical(m)
    ensures ManifestHash(Canonical(m)) == ManifestHash(m)
  {
    CanonicalShape(m);
    NormalizedFixpoint(Canonical(m).scopes);
  }

  function Without(s: seq<ScopeDefinition>, j: nat): seq<ScopeDefinition>
    requires j < |s|
  {
    s[..j] + s[j + 1..]
  }

  lemma NormalizeOneApart(s: seq<ScopeDefinition>, j: nat)
    requires j < |s|
    ensures multiset(s) == multiset(Without(s, j)) + multiset{s[j]}
    ensures multiset(NormalizeAll(s)) == multiset(NormalizeAll(Without(s, j))) + multiset{Normalize(s[j])}
  {
    hide Normalize;
    var n := NormalizeAll(s);
    assert s == s[..j] + [s[j]] + s[j + 1..];
    assert n == n[..j] + [n[j]] + n[j + 1..];
    assert NormalizeAll(Without(s, j)) == n[..j] + n[j + 1..];
  }

  lemma NormalizeAllMultiset(a: seq<ScopeDefinition>, b: seq<ScopeDefinition>)
    requires multiset(a) == multiset(b)
    ensures multiset(NormalizeAll(a)) == multiset(NormalizeAll(b))
    decreases |a|
  {
    hide Normalize;
    assert |a| == |multiset(a)| == |multiset(b)| == |b|;
    if a != [] {
      Sorting.SameElements(a, b, a[0]);
      var j :| 0 <= j < |b| && b[j] == a[0];
      NormalizeOneApart(a, 0);
      NormalizeOneApart(b, j);
      assert multiset(Without(a, 0)) == multiset(a) - multiset{a[0]};
      assert multiset(Without(b, j)) == multiset(b) - multiset{a[0]};
      NormalizeAllMultiset(Without(a, 0), Without(b, j));
    }
  }

  /** Two duplicate-free manifests hash alike exactly when they agree on version, owner, trimmed
      name and the normalized scopes they hold, in whatever order those were written. */
  lemma HashIdentifiesContent(a: Manifest, b: Manifest)
    requires DistinctScopes(a.scopes) && DistinctScopes(b.scopes)
    ensures ManifestHash(a) == ManifestHash(b) <==>
              && a.schemaVersion == b.schemaVersion
              && a.resourceServerId == b.resourceServerId
              && TrimSpace(a.displayName) == TrimSpace(b.displayName)
              && multiset(NormalizeAll(a.scopes)) == multiset(NormalizeAll(b.scopes))
  {
    CanonicalShape(a);
    CanonicalShape(b);
    if multiset(NormalizeAll(a.scopes)) == multiset(NormalizeAll(b.scopes)) {
      assert Sorting.DistinctKeys(Name, Canonical(a).scopes);
      Sorting.Unique(Name, Canonical(a).scopes, Canonical(b).scopes);
    }
  }

  /** Reordering the scopes of a valid manifest changes neither its canonical form nor its hash. */
  lemma OrderDoesNotMatter(a: Manifest, b: Manifest)
    requires ValidManifest(a)
    requires b == a.(scopes := b.scopes)
    requires multiset(a.scopes) == multiset(b.scopes)
    ensures Canonical(a) == Canonical(b)
    ensures ManifestHash(a) == ManifestHash(b)
  {
    assert Sorting.DistinctKeys(Name, a.scopes);
    Sorting.DistinctIsOrderFree(Name, a.scopes, b.scopes);
    assert forall i, j :: 0 <= i < j < |b.scopes| ==> Name(b.scopes[i]) != Name(b.scopes[j]);
    NormalizeAllMultiset(a.scopes, b.scopes);
    HashIdentifiesContent(a, b);
  }

  lemma CanonicalEntry(m: Manifest, d: ScopeDefinition) returns (i: nat)
    requires DistinctScopes(m.scopes)
    requires d in Canonical(m).scopes
    ensures i < |m.scopes| && d == Normalize(m.scopes[i])
  {
    CanonicalShape(m);
    var n := NormalizeAll(m.scopes);
    Sorting.SameElements(Canonical(m).scopes, n, d);
    i :| 0 <= i < |n| && n[i] == d;
  }

  lemma CanonicalContains(m: Manifest, i: nat)
    requires DistinctScopes(m.scopes)
    requires i < |m.scopes|
    ensures Normalize(m.scopes[i]) in Canonical(m).scopes
  {
    CanonicalShape(m);
    var n := NormalizeAll(m.scopes);
    assert n[i] in n;
    Sorting.SameElements(n, Canonical(m).scopes, n[i]);
  }

  lemma NormalizedIsOk(id: string, d: ScopeDefinition)
    requires EntryOk(id, d)
    ensures EntryOk(id, Normalize(d))
  {
    var e, pt := EnglishText(d), PortugueseText(d);
    TrimSpaceShortens(e);
    TrimSpaceShortens(pt);
    TrimTwice(e);
    TrimTwice(pt);
    hide ConcreteScope, PublicNamespace, InternalNamespace, TrimSpace, ByteLen;
    assert EnglishText(Normalize(d)) == TrimSpace(e) && PortugueseText(Normalize(d)) == TrimSpace(pt);
  }

  /** The stored form of a valid manifest is itself a valid manifest. */
  lemma CanonicalIsValid(m: Manifest)
    requires ValidManifest(m)
    ensures ValidManifest(Canonical(m))
  {
    CanonicalShape(m);
    TrimSpaceShortens(m.displayName);
    TrimTwice(m.displayName);
    hide EntryOk, TrimSpace, ByteLen, Normalize, ValidResourceId;
    var c := Canonical(m);
    forall i | 0 <= i < |c.scopes| ensures EntryOk(c.resourceServerId, c.scopes[i]) {
      var j := CanonicalEntry(m, c.scopes[i]);
      NormalizedIsOk(m.resourceServerId, m.scopes[j]);
    }
  }

  // ---------------------------------------------------------------- the no-active-removal rule

  predicate Lists(scopes: seq<ScopeDefinition>, name: string) {
    exists i :: 0 <= i < |scopes| && scopes[i].scope == name
  }

  /** Every active scope of the first list is still named by the second, active or deprecated. */
  predicate NoActiveRemoval(current: seq<ScopeDefinition>, next: seq<ScopeDefinition>) {
    forall i :: 0 <= i < |current| && current[i].status == STATUS_ACTIVE ==> Lists(next, current[i].scope)
  }

  method EnsureNoActiveRemoval(current: seq<ScopeDefinition>, next: Manifest) returns (r: Result<(), RegistryError>)
    ensures r.Ok? <==> NoActiveRemoval(current, next.scopes)
    ensures r.Err? <==> (exists i :: 0 <= i < |current| && current[i].status == "active"
                           && forall j :: 0 <= j < |next.scopes| ==> next.scopes[j].scope != current[i].scope)
    ensures r.Err? ==> r.error == ScopeRemoval
  {
    var nextScopes: map<string, ScopeDefinition> := map[];
    for i := 0 to |next.scopes|
      invariant forall name :: name in nextScopes <==> Lists(next.scopes[..i], name)
    {
      assert next.scopes[..i + 1] == next.scopes[..i] + [next.scopes[i]];
      forall name ensures Lists(next.scopes[..i + 1], name) <==>
        Lists(next.scopes[..i], name) || name == next.scopes[i].scope {
        ListsExtend(next.scopes[..i], next.scopes[i], name);
      }
      nextScopes := nextScopes[next.scopes[i].scope := next.scopes[i]];
    }
    assert next.scopes[..|next.scopes|] == next.scopes;
    for i := 0 to |current|
      invariant forall k :: 0 <= k < i && current[k].status == STATUS_ACTIVE ==> Lists(next.scopes, current[k].scope)
    {
      if current[i].status == STATUS_ACTIVE {
        if current[i].scope !in nextScopes {
          return Err(ScopeRemoval);
        }
      }
    }
    return Ok(());
  }

  lemma ListsExtend(s: seq<ScopeDefinition>, d: ScopeDefinition, name: string)
    ensures Lists(s + [d], name) <==> Lists(s, name) || name == d.scope
  {
    var t := s + [d];
    if Lists(s, name) {
      var i :| 0 <= i < |s| && s[i].scope == name;
      assert t[i].scope == name;
    }
    if name == d.scope {
      assert t[|s|].scope == name;
    }
  }

  /** Canonicalising keeps exactly the scope names. */
  lemma CanonicalKeepsNames(m: Manifest, name: string)
    requires DistinctScopes(m.scopes)
    ensures Lists(m.scopes, name) <==> Lists(Canonical(m).scopes, name)
  {
    var c := Canonical(m).scopes;
    if Lists(m.scopes, name) {
      var i :| 0 <= i < |m.scopes| && m.scopes[i].scope == name;
      CanonicalContains(m, i);
      var j :| 0 <= j < |c| && c[j] == Normalize(m.scopes[i]);
      assert c[j].scope == name;
    }
    if Lists(c, name) {
      var j :| 0 <= j < |c| && c[j].scope == name;
      var i := CanonicalEntry(m, c[j]);
      assert m.scopes[i].scope == name;
    }
  }
}
