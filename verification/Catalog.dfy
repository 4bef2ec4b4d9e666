/**
 * The grantable catalog: the legacy service rows, with every service that a resource server
 * manages replaced by that resource's own scopes, split into a public and an internal service.
 */
module Catalog {
  import opened Strings
  import opened Manifests
  import opened Store

  // ---------------------------------------------------------------- merging

  function Managed(resources: seq<ResourceServer>): set<string> {
    set i | 0 <= i < |resources| :: resources[i].id
  }

  /** The resource a legacy service row stands for: internal:x stands for x. */
  function LegacyId(service: string): string {
    if HasPrefix(service, INTERNAL_PREFIX + ":") then service[|INTERNAL_PREFIX| + 1..] else service
  }

  function ToEntry(d: ScopeDefinition): ScopeEntry {
    ScopeEntry(d.scope, d.description, d.descriptionPT, d.m2m)
  }

  predicate InPublicBucket(d: ScopeDefinition) {
    d.status != STATUS_DEPRECATED && d.visibility != VISIBILITY_INTERNAL
  }

  function Bucket(scopes: seq<ScopeDefinition>, isPublic: bool): seq<ScopeEntry> {
    if scopes == [] then []
    else
      var last := scopes[|scopes| - 1];
      Bucket(scopes[..|scopes| - 1], isPublic) + if InPublicBucket(last) == isPublic then [ToEntry(last)] else []
  }

  function PublicService(r: ResourceServer): ServiceScopes {
    ServiceScopes(r.id, r.displayName, r.audience, Bucket(r.scopes, true), false)
  }

  function InternalService(r: ResourceServer): ServiceScopes {
    ServiceScopes(INTERNAL_PREFIX + ":" + r.id, "Internal \U{2014} " + r.displayName, r.audience,
                  Bucket(r.scopes, false), true)
  }

  function FromResource(r: ResourceServer): seq<ServiceScopes> {
    (if Bucket(r.scopes, true) != [] then [PublicService(r)] else []) +
    (if Bucket(r.scopes, false) != [] then [InternalService(r)] else [])
  }

  function FromResources(resources: seq<ResourceServer>): seq<ServiceScopes> {
    if resources == [] then []
    else FromResources(resources[..|resources| - 1]) + FromResource(resources[|resources| - 1])
  }

  function Kept(legacy: seq<ServiceScopes>, managed: set<string>): seq<ServiceScopes> {
    if legacy == [] then []
    else
      var last := legacy[|legacy| - 1];
      Kept(legacy[..|legacy| - 1], managed) + if LegacyId(last.service) in managed then [] else [last]
  }

  function Merge(legacy: seq<ServiceScopes>, resources: seq<ResourceServer>): seq<ServiceScopes> {
    Kept(legacy, Managed(resources)) + FromResources(resources)
  }

  lemma OneMoreKept(legacy: seq<ServiceScopes>, i: nat, managed: set<string>)
    requires i < |legacy|
    ensures Kept(legacy[..i + 1], managed) ==
            Kept(legacy[..i], managed) + (if LegacyId(legacy[i].service) in managed then [] else [legacy[i]])
  {
    hide LegacyId;
    assert legacy[..i + 1][..i] == legacy[..i];
  }

  lemma OneMoreResource(resources: seq<ResourceServer>, i: nat)
    requires i < |resources|
    ensures FromResources(resources[..i + 1]) == FromResources(resources[..i]) + FromResource(resources[i])
    ensures Managed(resources[..i + 1]) == Managed(resources[..i]) + {resources[i].id}
  {
    hide FromResource;
    assert resources[..i + 1][..i] == resources[..i];
  }

  lemma NothingYet()
    ensures Managed([]) == {} && FromResources([]) == []
  {}

  lemma NothingKept(managed: set<string>)
    ensures Kept([], managed) == []
  {}

  lemma ManagedIds(resources: seq<ResourceServer>, id: string)
    ensures id in Managed(resources) <==> exists r :: r in resources && r.id == id
  {
    if id in Managed(resources) {
      var i :| 0 <= i < |resources| && resources[i].id == id;
      assert resources[i] in resources;
    }
  }

  method WithoutInternal(service: string) returns (id: string)
    ensures id == LegacyId(service)
    ensures forall rest :: service == "internal:" + rest ==> id == rest
    ensures (forall rest :: service != "internal:" + rest) ==> id == service
  {
    id := service;
    if HasPrefix(id, INTERNAL_PREFIX + ":") {
      assert service == "internal:" + service[9..];
      id := id[|INTERNAL_PREFIX| + 1..];
    }
  }

  /** mergeResourceServers, loop by loop. */
  method MergeResourceServers(legacy: seq<ServiceScopes>, resources: seq<ResourceServer>)
    returns (out: seq<ServiceScopes>)
    ensures out == Merge(legacy, resources)
    ensures out == Kept(legacy, Managed(resources)) + FromResources(resources)
    ensures forall svc :: svc in out <==>
              || (svc in legacy && forall r :: r in resources ==> r.id != LegacyId(svc.service))
              || exists r :: r in resources && svc in FromResource(r)
  {
    hide Managed, Kept, FromResources, FromResource, LegacyId;
    NothingYet();
    forall svc ensures svc in Merge(legacy, resources) <==>
        || (svc in legacy && forall r :: r in resources ==> r.id != LegacyId(svc.service))
        || exists r :: r in resources && svc in FromResource(r)
    {
      MergeMeaning(legacy, resources, svc);
      ManagedIds(resources, LegacyId(svc.service));
    }
    assert legacy[..|legacy|] == legacy && resources[..|resources|] == resources;
    assert legacy[..0] == [] && resources[..0] == [];
    var managed: set<string> := {};
    for i := 0 to |resources|
      invariant managed == Managed(resources[..i])
    {
      OneMoreResource(resources, i);
      managed := managed + {resources[i].id};
    }
    out := [];
    NothingKept(managed);
    for i := 0 to |legacy|
      invariant out == Kept(legacy[..i], managed)
    {
      OneMoreKept(legacy, i, managed);
      var id := WithoutInternal(legacy[i].service);
      if id !in managed {
        out := out + [legacy[i]];
      }
    }
    ghost var kept := out;
    for i := 0 to |resources|
      invariant out == kept + FromResources(resources[..i])
    {
      OneMoreResource(resources, i);
      var added := ServicesOf(resources[i]);
      out := out + added;
    }
  }

  /** The entry stands for the definition: its name, texts and m2m mark, and in the internal service exactly if
      it is deprecated or internal. */
  predicate Shows(svc: ServiceScopes, e: ScopeEntry, d: ScopeDefinition) {
    && e.scope == d.scope && e.description == d.description && e.descriptionPT == d.descriptionPT && e.m2m == d.m2m
    && (svc.isInternal <==> d.status == "deprecated" || d.visibility == "internal")
  }

  lemma BucketsShow(r: ResourceServer)
    ensures forall svc, e :: svc in FromResource(r) && e in svc.scopes ==> exists d :: d in r.scopes && Shows(svc, e, d)
    ensures forall d :: d in r.scopes ==> exists svc, e :: svc in FromResource(r) && e in svc.scopes && Shows(svc, e, d)
  {
    hide Bucket;
    BucketMeaning(r.scopes, true);
    BucketMeaning(r.scopes, false);
    forall d | d in r.scopes ensures exists svc, e :: svc in FromResource(r) && e in svc.scopes && Shows(svc, e, d) {
      var svc := if InPublicBucket(d) then PublicService(r) else InternalService(r);
      assert ToEntry(d) in Bucket(r.scopes, InPublicBucket(d));
      assert svc in FromResource(r) && ToEntry(d) in svc.scopes && Shows(svc, ToEntry(d), d);
    }
    forall svc, e | svc in FromResource(r) && e in svc.scopes ensures exists d :: d in r.scopes && Shows(svc, e, d) {
      var d :| d in r.scopes && InPublicBucket(d) == !svc.isInternal && e == ToEntry(d);
      assert Shows(svc, e, d);
    }
  }

  method ServicesOf(r: ResourceServer) returns (added: seq<ServiceScopes>)
    ensures added == FromResource(r)
    ensures |added| <= 2 && forall i, j :: 0 <= i < j < |added| ==> !added[i].isInternal && added[j].isInternal
    ensures forall svc :: svc in added ==> svc.audience == r.audience && svc.scopes != []
    ensures forall svc :: svc in added && !svc.isInternal ==> svc.service == r.id && svc.name == r.displayName
    ensures forall svc :: svc in added && svc.isInternal ==>
              svc.service == "internal:" + r.id && svc.name == "Internal \U{2014} " + r.displayName
    ensures forall svc, e :: svc in added && e in svc.scopes ==> exists d :: d in r.scopes && Shows(svc, e, d)
    ensures forall d :: d in r.scopes ==> exists svc, e :: svc in added && e in svc.scopes && Shows(svc, e, d)
  {
    hide HasPrefix;
    BucketsShow(r);
    var pub: seq<ScopeEntry>, internal: seq<ScopeEntry> := [], [];
    for i := 0 to |r.scopes|
      invariant pub == Bucket(r.scopes[..i], true) && internal == Bucket(r.scopes[..i], false)
    {
      assert r.scopes[..i + 1][..i] == r.scopes[..i];
      var d := r.scopes[i];
      var entry := ScopeEntry(d.scope, d.description, d.descriptionPT, d.m2m);
      if d.status == STATUS_DEPRECATED {
        internal := internal + [entry];
      } else if d.visibility == VISIBILITY_INTERNAL {
        internal := internal + [entry];
      } else {
        pub := pub + [entry];
      }
    }
    assert r.scopes[..|r.scopes|] == r.scopes;
    added := [];
    if |pub| > 0 {
      added := added + [ServiceScopes(r.id, r.displayName, r.audience, pub, false)];
    }
    if |internal| > 0 {
      added := added + [ServiceScopes(INTERNAL_PREFIX + ":" + r.id, "Internal \U{2014} " + r.displayName, r.audience,
                                      internal, true)];
    }
  }

  // ---------------------------------------------------------------- looking scopes up

  predicate HasEntry(svc: ServiceScopes, scope: string) {
    exists e :: e in svc.scopes && e.scope == scope
  }

  predicate HasM2mEntry(svc: ServiceScopes, scope: string) {
    exists e :: e in svc.scopes && e.scope == scope && e.m2m
  }

  predicate Grantable(catalog: seq<ServiceScopes>, scope: string) {
    exists svc :: svc in catalog && !svc.isInternal && HasEntry(svc, scope)
  }

  predicate MachineGrantable(catalog: seq<ServiceScopes>, scope: string) {
    exists svc :: svc in catalog && !svc.isInternal && HasM2mEntry(svc, scope)
  }

  function ScopesOf(svc: ServiceScopes, m2mOnly: bool): set<string> {
    set e | e in svc.scopes && (m2mOnly ==> e.m2m) :: e.scope
  }

  /** The index both validators build: every scope of a non-internal service, or only its m2m ones. */
  method Index(catalog: seq<ServiceScopes>, m2mOnly: bool) returns (index: set<string>)
    ensures forall s :: s in index <==> Allowed(catalog, m2mOnly, s)
  {
    index := {};
    for i := 0 to |catalog|
      invariant forall s :: s in index <==>
                exists k :: 0 <= k < i && !catalog[k].isInternal && s in ScopesOf(catalog[k], m2mOnly)
    {
      var svc := catalog[i];
      if !svc.isInternal {
        var added: set<string> := {};
        for j := 0 to |svc.scopes|
          invariant forall s :: s in added <==>
                    exists k :: 0 <= k < j && (m2mOnly ==> svc.scopes[k].m2m) && svc.scopes[k].scope == s
        {
          if !m2mOnly || svc.scopes[j].m2m {
            added := added + {svc.scopes[j].scope};
          }
        }
        assert added == ScopesOf(svc, m2mOnly);
        index := index + added;
      }
    }
    forall s ensures s in index <==> Allowed(catalog, m2mOnly, s) {
      AllowedAt(catalog, m2mOnly, s);
    }
  }

  lemma AllowedAt(catalog: seq<ServiceScopes>, m2mOnly: bool, s: string)
    ensures Allowed(catalog, m2mOnly, s) <==>
            exists k :: 0 <= k < |catalog| && !catalog[k].isInternal && s in ScopesOf(catalog[k], m2mOnly)
  {
    assert forall svc :: s in ScopesOf(svc, m2mOnly) <==> if m2mOnly then HasM2mEntry(svc, s) else HasEntry(svc, s);
    hide HasEntry, HasM2mEntry, ScopesOf;
    assert forall k :: 0 <= k < |catalog| ==> catalog[k] in catalog;
  }

  predicate Allowed(catalog: seq<ServiceScopes>, m2mOnly: bool, scope: string) {
    if m2mOnly then MachineGrantable(catalog, scope) else Grantable(catalog, scope)
  }

  /** ValidateGrantable and ValidateMachineGrantable on a loaded catalog: the first scope that is
      not allowed, or the empty string. */
  method FirstNotAllowed(catalog: seq<ServiceScopes>, m2mOnly: bool, scopes: seq<string>) returns (bad: string)
    ensures bad == FirstBad(catalog, m2mOnly, scopes)
    ensures || (bad == "" && forall s :: s in scopes ==> Allowed(catalog, m2mOnly, s))
            || (exists i :: 0 <= i < |scopes| && bad == scopes[i] && !Allowed(catalog, m2mOnly, scopes[i])
                  && forall j :: 0 <= j < i ==> Allowed(catalog, m2mOnly, scopes[j]))
  {
    hide Allowed;
    var index := Index(catalog, m2mOnly);
    for i := 0 to |scopes|
      invariant FirstBad(catalog, m2mOnly, scopes) == FirstBad(catalog, m2mOnly, scopes[i..])
      invariant forall j :: 0 <= j < i ==> Allowed(catalog, m2mOnly, scopes[j])
    {
      if scopes[i] !in index {
        return scopes[i];
      }
      assert scopes[i..][1..] == scopes[i + 1..];
    }
    return "";
  }

  function FirstBad(catalog: seq<ServiceScopes>, m2mOnly: bool, scopes: seq<string>): string {
    if scopes == [] then ""
    else if !Allowed(catalog, m2mOnly, scopes[0]) then scopes[0]
    else FirstBad(catalog, m2mOnly, scopes[1..])
  }

  function BeforeBlank(scopes: seq<string>): seq<string> {
    if scopes == [] || scopes[0] == "" then [] else [scopes[0]] + BeforeBlank(scopes[1..])
  }

  /** The empty answer means that every scope is allowed, provided none of them is the empty string or
      the empty string is itself allowed. Otherwise a list with an empty scope gets the empty answer as
      soon as the scopes before it are allowed. */
  lemma {:induction false} AcceptsExactly(catalog: seq<ServiceScopes>, m2mOnly: bool, scopes: seq<string>)
    ensures "" !in scopes || Allowed(catalog, m2mOnly, "") ==>
              (FirstBad(catalog, m2mOnly, scopes) == "" <==> forall s :: s in scopes ==> Allowed(catalog, m2mOnly, s))
    ensures !Allowed(catalog, m2mOnly, "") ==>
              (FirstBad(catalog, m2mOnly, scopes) == "" <==>
               forall s :: s in BeforeBlank(scopes) ==> Allowed(catalog, m2mOnly, s))
  {
    hide Allowed;
    if scopes != [] {
      AcceptsExactly(catalog, m2mOnly, scopes[1..]);
      assert scopes == [scopes[0]] + scopes[1..];
    }
  }

  // ---------------------------------------------------------------- audiences

  predicate Touches(svc: ServiceScopes, requested: set<string>) {
    exists e :: e in svc.scopes && e.scope in requested
  }

  function AudienceList(catalog: seq<ServiceScopes>, requested: set<string>): seq<string> {
    if catalog == [] then []
    else
      var before := AudienceList(catalog[..|catalog| - 1], requested);
      var svc := catalog[|catalog| - 1];
      if svc.audience != "" && Touches(svc, requested)
        && svc.audience !in before then before + [svc.audience] else before
  }

  method AudiencesFor(catalog: seq<ServiceScopes>, scopes: seq<string>) returns (auds: seq<string>)
    ensures auds == AudienceList(catalog, set s | s in scopes)
  {
    var requested := set s | s in scopes;
    var seen: set<string> := {};
    auds := [];
    for i := 0 to |catalog|
      invariant auds == AudienceList(catalog[..i], requested)
      invariant seen == set a | a in auds
    {
      assert catalog[..i + 1][..i] == catalog[..i];
      var svc := catalog[i];
      if svc.audience == "" {
        continue;
      }
      var matches := false;
      var j := 0;
      while j < |svc.scopes| && !matches
        invariant 0 <= j <= |svc.scopes|
        invariant matches <==> exists k :: 0 <= k < j && svc.scopes[k].scope in requested
      {
        matches := svc.scopes[j].scope in requested;
        j := j + 1;
      }
      assert matches <==> Touches(svc, requested);
      if matches && svc.audience !in seen {
        auds := auds + [svc.audience];
        seen := seen + {svc.audience};
      }
    }
    assert catalog[..|catalog|] == catalog;
  }

  ghost predicate NoRepeats(l: seq<string>) {
    forall i, j :: 0 <= i < j < |l| ==> l[i] != l[j]
  }

  predicate Offers(catalog: seq<ServiceScopes>, requested: set<string>, audience: string) {
    audience != "" && exists svc :: svc in catalog && svc.audience == audience && Touches(svc, requested)
  }

  /** The list has no repeats and names exactly the non-empty audiences of the services that list a
      requested scope. */
  lemma {:induction false} AudienceListMeaning(catalog: seq<ServiceScopes>, requested: set<string>)
    ensures NoRepeats(AudienceList(catalog, requested))
    ensures forall a :: a in AudienceList(catalog, requested) <==> Offers(catalog, requested, a)
  {
    hide Touches;
    if catalog != [] {
      var front := catalog[..|catalog| - 1];
      AudienceListMeaning(front, requested);
      assert catalog == front + [catalog[|catalog| - 1]];
    }
  }

  // ---------------------------------------------------------------- what a merged catalog means

  /** A registry row whose scopes came from a validated manifest, or a freshly provisioned one. */
  predicate Validated(r: ResourceServer) {
    && ValidResourceId(r.id) && r.id != IDENTITY_SERVICE && r.id != INTERNAL_PREFIX
    && (forall i :: 0 <= i < |r.scopes| ==> EntryOk(r.id, r.scopes[i]))
    && DistinctScopes(r.scopes)
  }

  ghost predicate ValidatedResources(resources: seq<ResourceServer>) {
    && (forall r :: r in resources ==> Validated(r))
    && (forall i, j :: 0 <= i < j < |resources| ==> resources[i].id != resources[j].id)
  }

  predicate ActivePublic(r: ResourceServer, scope: string) {
    exists d :: d in r.scopes && d.scope == scope && d.status == STATUS_ACTIVE && d.visibility == VISIBILITY_PUBLIC
  }

  predicate ActivePublicM2m(r: ResourceServer, scope: string) {
    exists d :: d in r.scopes && d.scope == scope && d.status == STATUS_ACTIVE && d.visibility == VISIBILITY_PUBLIC
      && d.m2m
  }

  predicate Unmanaged(svc: ServiceScopes, resources: seq<ResourceServer>) {
    LegacyId(svc.service) !in Managed(resources)
  }

  /** Entries keep the order of the definitions. */
  lemma {:induction false} BucketInOrder(a: seq<ScopeDefinition>, b: seq<ScopeDefinition>, isPublic: bool)
    ensures Bucket(a + b, isPublic) == Bucket(a, isPublic) + Bucket(b, isPublic)
  {
    hide InPublicBucket;
    if b == [] {
      assert a + b == a;
    } else {
      BucketInOrder(a, b[..|b| - 1], isPublic);
      assert (a + b)[..|a + b| - 1] == a + b[..|b| - 1];
    }
  }

  lemma {:induction false} BucketMeaning(scopes: seq<ScopeDefinition>, isPublic: bool)
    ensures forall e :: e in Bucket(scopes, isPublic) <==>
              exists d :: d in scopes && InPublicBucket(d) == isPublic && e == ToEntry(d)
  {
    if scopes != [] {
      BucketMeaning(scopes[..|scopes| - 1], isPublic);
      assert scopes == scopes[..|scopes| - 1] + [scopes[|scopes| - 1]];
    }
  }

  lemma {:induction false} KeptMeaning(legacy: seq<ServiceScopes>, managed: set<string>)
    ensures forall svc :: svc in Kept(legacy, managed) <==> svc in legacy && LegacyId(svc.service) !in managed
  {
    hide LegacyId;
    if legacy != [] {
      KeptMeaning(legacy[..|legacy| - 1], managed);
      assert legacy == legacy[..|legacy| - 1] + [legacy[|legacy| - 1]];
    }
  }

  lemma {:induction false} FromResourcesMeaning(resources: seq<ResourceServer>)
    ensures forall svc :: svc in FromResources(resources) <==> exists r :: r in resources && svc in FromResource(r)
  {
    hide FromResource;
    if resources != [] {
      FromResourcesMeaning(resources[..|resources| - 1]);
      assert resources == resources[..|resources| - 1] + [resources[|resources| - 1]];
    }
  }

  lemma MergeMeaning(legacy: seq<ServiceScopes>, resources: seq<ResourceServer>, svc: ServiceScopes)
    ensures svc in Merge(legacy, resources) <==>
              || (svc in legacy && Unmanaged(svc, resources))
              || exists r :: r in resources && svc in FromResource(r)
  {
    hide FromResource, LegacyId;
    KeptMeaning(legacy, Managed(resources));
    FromResourcesMeaning(resources);
  }

  lemma PublicServiceMeaning(r: ResourceServer, scope: string)
    requires Validated(r)
    ensures HasEntry(PublicService(r), scope) <==> ActivePublic(r, scope)
    ensures HasM2mEntry(PublicService(r), scope) <==> ActivePublicM2m(r, scope)
  {
    hide ConcreteScope, DescriptionsOk, ValidResourceId, HasPrefix, DistinctScopes;
    BucketMeaning(r.scopes, true);
    assert forall d :: d in r.scopes ==> EntryOk(r.id, d);
    assert forall d :: d in r.scopes ==>
        (InPublicBucket(d) <==> d.status == STATUS_ACTIVE && d.visibility == VISIBILITY_PUBLIC);
    hide EntryOk, InPublicBucket, Bucket;
    forall d | d in r.scopes && d.scope == scope && d.status == STATUS_ACTIVE && d.visibility == VISIBILITY_PUBLIC
      ensures ToEntry(d) in Bucket(r.scopes, true)
    {}
  }

  lemma EntriesMeaning(r: ResourceServer, scope: string)
    ensures HasEntry(PublicService(r), scope) || HasEntry(InternalService(r), scope) <==> Lists(r.scopes, scope)
  {
    hide InPublicBucket, Bucket;
    BucketMeaning(r.scopes, true);
    BucketMeaning(r.scopes, false);
    if Lists(r.scopes, scope) {
      var i :| 0 <= i < |r.scopes| && r.scopes[i].scope == scope;
      assert ToEntry(r.scopes[i]) in Bucket(r.scopes, InPublicBucket(r.scopes[i]));
    }
    if HasEntry(PublicService(r), scope) || HasEntry(InternalService(r), scope) {
      var e :| (e in Bucket(r.scopes, true) || e in Bucket(r.scopes, false)) && e.scope == scope;
      var d :| d in r.scopes && e == ToEntry(d);
    }
  }

  /** In one validated resource's services, public entries are exactly its active public scopes. */
  lemma ResourceServicesMeaning(r: ResourceServer, scope: string)
    requires Validated(r)
    ensures (exists svc :: svc in FromResource(r) && !svc.isInternal && HasEntry(svc, scope)) <==>
            ActivePublic(r, scope)
    ensures (exists svc :: svc in FromResource(r) && !svc.isInternal && HasM2mEntry(svc, scope)) <==>
            ActivePublicM2m(r, scope)
    ensures (exists svc :: svc in FromResource(r) && HasEntry(svc, scope)) <==> Lists(r.scopes, scope)
    ensures forall svc :: svc in FromResource(r) ==> svc.audience == r.audience
  {
    hide Validated, ActivePublic, ActivePublicM2m, Lists, Bucket;
    PublicServiceMeaning(r, scope);
    EntriesMeaning(r, scope);
    assert Bucket(r.scopes, true) == [] ==> !HasEntry(PublicService(r), scope) && !HasM2mEntry(PublicService(r), scope);
    assert Bucket(r.scopes, false) == [] ==> !HasEntry(InternalService(r), scope);
    hide HasEntry, HasM2mEntry;
    assert Bucket(r.scopes, true) != [] ==> PublicService(r) in FromResource(r);
    assert Bucket(r.scopes, false) != [] ==> InternalService(r) in FromResource(r);
  }

  /** A scope is grantable iff it is active and public in a managed resource, or a non-internal
      legacy service that no resource manages lists it. */
  lemma GrantableMeaning(legacy: seq<ServiceScopes>, resources: seq<ResourceServer>, scope: string)
    requires ValidatedResources(resources)
    ensures Grantable(Merge(legacy, resources), scope) <==>
              || (exists r :: r in resources && ActivePublic(r, scope))
              || (exists svc :: svc in legacy && Unmanaged(svc, resources) && !svc.isInternal && HasEntry(svc, scope))
    ensures MachineGrantable(Merge(legacy, resources), scope) <==>
              || (exists r :: r in resources && ActivePublicM2m(r, scope))
              || (exists svc ::
                    svc in legacy && Unmanaged(svc, resources) && !svc.isInternal && HasM2mEntry(svc, scope))
  {
    hide FromResource, Merge, Validated, HasEntry, HasM2mEntry, ActivePublic, ActivePublicM2m, Unmanaged;
    forall r | r in resources
      ensures (exists svc :: svc in FromResource(r) && !svc.isInternal && HasEntry(svc, scope)) <==>
              ActivePublic(r, scope)
      ensures (exists svc :: svc in FromResource(r) && !svc.isInternal && HasM2mEntry(svc, scope)) <==>
              ActivePublicM2m(r, scope)
    {
      ResourceServicesMeaning(r, scope);
    }
    forall svc ensures svc in Merge(legacy, resources) <==>
        (svc in legacy && Unmanaged(svc, resources)) || exists r :: r in resources && svc in FromResource(r)
    {
      MergeMeaning(legacy, resources, svc);
    }
  }

  lemma NamespaceOwner(r: ResourceServer, d: ScopeDefinition)
    requires Validated(r) && d in r.scopes
    ensures HasPrefix(d.scope, PublicNamespace(r.id)) || HasPrefix(d.scope, InternalNamespace(r.id))
    ensures d.visibility == VISIBILITY_PUBLIC ==> HasPrefix(d.scope, PublicNamespace(r.id))
  {
    hide ConcreteScope, DescriptionsOk, ValidResourceId;
    var i :| 0 <= i < |r.scopes| && r.scopes[i] == d;
    assert EntryOk(r.id, r.scopes[i]);
  }

  /** The same scope name is never listed by two different resources. */
  lemma ScopesNeverCollide(a: ResourceServer, b: ResourceServer, scope: string)
    requires Validated(a) && Validated(b)
    requires Lists(a.scopes, scope) && Lists(b.scopes, scope)
    ensures a.id == b.id
  {
    hide EntryOk, HasPrefix, PublicNamespace, InternalNamespace;
    var i :| 0 <= i < |a.scopes| && a.scopes[i].scope == scope;
    var j :| 0 <= j < |b.scopes| && b.scopes[j].scope == scope;
    NamespaceOwner(a, a.scopes[i]);
    NamespaceOwner(b, b.scopes[j]);
    IdsHaveNoColon(a.id);
    IdsHaveNoColon(b.id);
    NamespacesAreDisjoint(a.id, b.id, scope);
  }

  lemma IdsHaveNoColon(id: string)
    requires ValidResourceId(id)
    ensures ':' !in id
  {}

  lemma NamespacesAreDisjoint(a: string, b: string, scope: string)
    requires ':' !in a && ':' !in b && a != INTERNAL_PREFIX && b != INTERNAL_PREFIX
    requires HasPrefix(scope, PublicNamespace(a)) || HasPrefix(scope, InternalNamespace(a))
    requires HasPrefix(scope, PublicNamespace(b)) || HasPrefix(scope, InternalNamespace(b))
    ensures a == b
  {
    hide InternalNamespace;
    if HasPrefix(scope, InternalNamespace(a)) { InternalRest(a, scope); }
    if HasPrefix(scope, InternalNamespace(b)) { InternalRest(b, scope); }
    if HasPrefix(scope, PublicNamespace(a)) {
      if HasPrefix(scope, PublicNamespace(b)) {
        PrefixBeforeSeparator(scope, a, b, ':');
      } else {
        PrefixBeforeSeparator(scope, a, INTERNAL_PREFIX, ':');
        assert false;
      }
    } else if HasPrefix(scope, PublicNamespace(b)) {
      PrefixBeforeSeparator(scope, b, INTERNAL_PREFIX, ':');
      assert false;
    } else {
      PrefixBeforeSeparator(scope[|INTERNAL_PREFIX| + 1..], a, b, ':');
    }
  }

  lemma InternalRest(id: string, scope: string)
    requires HasPrefix(scope, InternalNamespace(id))
    ensures HasPrefix(scope, PublicNamespace(INTERNAL_PREFIX))
    ensures HasPrefix(scope[|INTERNAL_PREFIX| + 1..], PublicNamespace(id))
  {
    assert InternalNamespace(id) == PublicNamespace(INTERNAL_PREFIX) + PublicNamespace(id);
    assert scope == InternalNamespace(id) + scope[|InternalNamespace(id)|..];
  }

  /** Requesting scopes of one resource, deprecated ones included, always resolves to that resource's
      audience, and to nothing else exactly when every unmanaged legacy service that also lists one
      of them carries the same audience or none. */
  lemma AudienceOfResourceScopes(legacy: seq<ServiceScopes>, resources: seq<ResourceServer>, r: ResourceServer,
                                 requested: set<string>)
    requires ValidatedResources(resources) && r in resources && r.audience != ""
    requires requested != {} && forall s :: s in requested ==> Lists(r.scopes, s)
    ensures r.audience in AudienceList(Merge(legacy, resources), requested)
    ensures AudienceList(Merge(legacy, resources), requested) == [r.audience] <==>
              forall svc ::
                svc in legacy && Unmanaged(svc, resources) && svc.audience != "" && Touches(svc, requested) ==>
                  svc.audience == r.audience
  {
    hide FromResource, Merge, Validated, AudienceList, Unmanaged;
    var catalog := Merge(legacy, resources);
    var l := AudienceList(catalog, requested);
    AudienceListMeaning(catalog, requested);
    forall svc ensures svc in catalog <==>
        (svc in legacy && Unmanaged(svc, resources)) || exists r :: r in resources && svc in FromResource(r)
    {
      MergeMeaning(legacy, resources, svc);
    }
    assert r.audience in l by {
      var s :| s in requested;
      ResourceServicesMeaning(r, s);
      var svc :| svc in FromResource(r) && HasEntry(svc, s);
      assert svc in catalog && Touches(svc, requested);
      assert Offers(catalog, requested, r.audience);
    }
    forall q, svc | q in resources && svc in FromResource(q) && Touches(svc, requested)
      ensures svc.audience == r.audience
    {
      var e :| e in svc.scopes && e.scope in requested;
      assert HasEntry(svc, e.scope);
      ResourceServicesMeaning(q, e.scope);
      ScopesNeverCollide(q, r, e.scope);
      SameIdSameRow(resources, q, r);
    }
    if forall svc :: svc in legacy && Unmanaged(svc, resources) && svc.audience != "" && Touches(svc, requested) ==>
      svc.audience == r.audience {
      forall a | a in l ensures a == r.audience {
        assert Offers(catalog, requested, a);
      }
      OneElement(l, r.audience);
    }
    if l == [r.audience] {
      forall svc | svc in legacy && Unmanaged(svc, resources) && svc.audience != "" && Touches(svc, requested)
        ensures svc.audience == r.audience
      {
        assert Offers(catalog, requested, svc.audience);
      }
    }
  }

  lemma SameIdSameRow(resources: seq<ResourceServer>, a: ResourceServer, b: ResourceServer)
    requires ValidatedResources(resources) && a in resources && b in resources && a.id == b.id
    ensures a == b
  {
    var i :| 0 <= i < |resources| && resources[i] == a;
    var j :| 0 <= j < |resources| && resources[j] == b;
    assert i == j;
  }

  lemma OneElement(l: seq<string>, x: string)
    requires x in l && NoRepeats(l) && forall a :: a in l ==> a == x
    ensures l == [x]
  {
    assert |l| > 1 ==> l[0] != l[1];
    assert forall i :: 0 <= i < |l| ==> l[i] in l;
  }
}
