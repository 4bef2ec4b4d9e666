/**
 * The client_credentials grant: what a machine token may carry, from the registry's tables to the
 * issued scopes.
 */
module MachineScopes {
  import opened Wrappers
  import opened Strings
  import opened Manifests
  import opened Store
  import opened Catalog
  import opened OauthClients
  import Registry
  import RegistrySafety

  datatype TokenError = InvalidClient | UnauthorizedClient | InvalidScope

  datatype MachineToken = MachineToken(scopes: seq<string>, audience: seq<string>)

  /** machineScopesForDeveloperClient: all or nothing. */
  method ScopesForDeveloperClient(catalog: seq<ServiceScopes>, ownerActive: bool, client: OAuthClient,
                                  requested: seq<string>)
    returns (r: Result<seq<string>, TokenError>)
    ensures r.Ok? <==> ownerActive && FirstBad(catalog, true, client.allowedScopes) == ""
                       && forall s :: s in requested ==> s in client.allowedScopes
    ensures r.Ok? ==> r.value == requested
    ensures r == Err(InvalidScope) <==> ownerActive && FirstBad(catalog, true, client.allowedScopes) == "" && !r.Ok?
    ensures r == Err(UnauthorizedClient) <==> !ownerActive || FirstBad(catalog, true, client.allowedScopes) != ""
  {
    if !ownerActive {
      return Err(UnauthorizedClient);
    }
    var bad := FirstNotAllowed(catalog, true, client.allowedScopes);
    if bad != "" {
      return Err(UnauthorizedClient);
    }
    for i := 0 to |requested|
      invariant forall k :: 0 <= k < i ==> requested[k] in client.allowedScopes
    {
      if requested[i] !in client.allowedScopes {
        return Err(InvalidScope);
      }
    }
    return Ok(requested);
  }

  function TokenWith(selfAudience: string, later: seq<ServiceScopes>,
                     scopes: seq<string>): Result<MachineToken, TokenError> {
    if scopes == [] then Err(InvalidScope)
    else Ok(MachineToken(scopes, [selfAudience] + AudienceList(later, set s | s in scopes)))
  }

  /** What a client_credentials request gets. The catalog is loaded once for the check and once more for
      the audiences; later is the second one. */
  function IssuedTo(selfAudience: string, catalog: seq<ServiceScopes>, later: seq<ServiceScopes>,
                    found: Option<OAuthClient>, secretOk: bool,
                    ownerActive: bool, requested: seq<string>): Result<MachineToken, TokenError> {
    if found.None? then Err(InvalidClient)
    else if found.value.isPublic then Err(UnauthorizedClient)
    else if !secretOk then Err(InvalidClient)
    else if found.value.firstParty then TokenWith(selfAudience, later, FilterScopes(found.value, requested))
    else if !ownerActive || FirstBad(catalog, true, found.value.allowedScopes) != "" then Err(UnauthorizedClient)
    else if exists s :: s in requested && s !in found.value.allowedScopes then Err(InvalidScope)
    else TokenWith(selfAudience, later, requested)
  }

  /** clientCredentials after the lookup of the client; the secret check arrives as a flag. */
  method ClientCredentials(selfAudience: string, catalog: seq<ServiceScopes>, later: seq<ServiceScopes>,
                           found: Option<OAuthClient>, secretOk: bool, ownerActive: bool, requested: seq<string>)
    returns (r: Result<MachineToken, TokenError>)
    ensures r == IssuedTo(selfAudience, catalog, later, found, secretOk, ownerActive, requested)
    ensures r.Ok? ==> found.Some? && !found.value.isPublic && secretOk && r.value.scopes != []
    ensures r.Ok? ==> forall s :: s in r.value.scopes ==> s in requested && s in found.value.allowedScopes
    ensures r.Ok? && !found.value.firstParty ==>
              ownerActive && FirstBad(catalog, true, found.value.allowedScopes) == "" && r.value.scopes == requested
    ensures r.Ok? ==> r.value.audience == [selfAudience] + AudienceList(later, set s | s in r.value.scopes)
    ensures r == Err(InvalidClient) <==> found.None? || (!found.value.isPublic && !secretOk)
    ensures r == Err(UnauthorizedClient) <==>
              && found.Some?
              && (found.value.isPublic
                  || (secretOk && !found.value.firstParty
                      && (!ownerActive || FirstBad(catalog, true, found.value.allowedScopes) != "")))
    ensures r.Ok? && found.value.firstParty ==> r.value.scopes == FilterScopes(found.value, requested)
    ensures found.Some? && !found.value.isPublic && secretOk && found.value.firstParty ==>
              (r.Ok? <==> exists s :: s in requested && s in found.value.allowedScopes)
    ensures found.Some? && !found.value.isPublic && secretOk && !found.value.firstParty ==>
              (r.Ok? <==> && requested != [] && ownerActive && FirstBad(catalog, true, found.value.allowedScopes) == ""
                          && forall s :: s in requested ==> s in found.value.allowedScopes)
  {
    if found.None? {
      return Err(InvalidClient);
    }
    var client := found.value;
    if client.isPublic {
      return Err(UnauthorizedClient);
    }
    if !secretOk {
      return Err(InvalidClient);
    }
    var scopes: seq<string>;
    if client.firstParty {
      scopes := AllowedScopes(client, requested);
    } else {
      var checked := ScopesForDeveloperClient(catalog, ownerActive, client, requested);
      if checked.Err? {
        return Err(checked.error);
      }
      scopes := checked.value;
    }
    if |scopes| == 0 {
      return Err(InvalidScope);
    }
    assert scopes[0] in scopes;
    var auds := AudiencesFor(later, scopes);
    return Ok(MachineToken(scopes, [selfAudience] + auds));
  }

  // ---------------------------------------------------------------- the registry behind the catalog

  lemma {:induction false} RowsKeepIds(table: map<string, ResourceServer>)
    requires forall k :: k in table ==> table[k].id == k
    ensures forall i, j :: 0 <= i < j < |Rows(table)| ==> Rows(table)[i].id != Rows(table)[j].id
    decreases |table|
  {
    if table != map[] {
      var k := LeastKey(table);
      var rest := table - {k};
      RowsKeepIds(rest);
      forall i | 0 <= i < |Rows(rest)| ensures Rows(rest)[i].id != k {
        assert Rows(rest)[i] in Rows(rest);
      }
    }
  }

  lemma ReachableRow(db: Db, id: string)
    requires RegistrySafety.TablesOk(db) && id in db.resources
    ensures Validated(db.resources[id]) && db.resources[id].id == id
  {
    hide EntryOk, Canonical, ManifestHash, ValidResourceId;
    assert RegistrySafety.ResourceOk(db, id);
    var r := db.resources[id];
    if r.revision >= 1 {
      assert RegistrySafety.RowOk(db, id, r.revision);
      assert ValidManifest(Registry.SnapshotManifest(db.history[(id, r.revision)]));
    }
  }

  /** In every reachable registry the resource rows are validated and have distinct ids. */
  lemma ReachableIsValidated(acts: seq<RegistrySafety.Act>)
    ensures ValidatedResources(Rows(RegistrySafety.Exec(RegistrySafety.Empty, acts).db.resources))
  {
    hide RegistrySafety.Exec, RegistrySafety.TablesOk, Validated, RegistrySafety.WritersOk, RegistrySafety.ClientOk;
    RegistrySafety.EmptyIsOk();
    RegistrySafety.RunKeeps(RegistrySafety.Empty, acts);
    var db := RegistrySafety.Exec(RegistrySafety.Empty, acts).db;
    forall id | id in db.resources ensures Validated(db.resources[id]) && db.resources[id].id == id {
      ReachableRow(db, id);
    }
    RowsKeepIds(db.resources);
  }

  /** The scope a machine client may hold because a resource published it for machines. */
  predicate PublishedForMachines(resources: seq<ResourceServer>, scope: string) {
    !HasPrefix(scope, PublicNamespace(INTERNAL_PREFIX)) && exists r :: r in resources && ActivePublicM2m(r, scope)
  }

  /** A scope marked m2m in a legacy row that no resource manages and that is not internal. */
  predicate LegacyM2m(legacy: seq<ServiceScopes>, resources: seq<ResourceServer>, scope: string) {
    exists svc :: svc in legacy && Unmanaged(svc, resources) && !svc.isInternal && HasM2mEntry(svc, scope)
  }

  lemma ActivePublicIsOutsideInternal(r: ResourceServer, scope: string)
    requires Validated(r) && ActivePublicM2m(r, scope)
    ensures !HasPrefix(scope, PublicNamespace(INTERNAL_PREFIX))
  {
    hide EntryOk, ValidResourceId, HasPrefix;
    var d :| d in r.scopes && d.scope == scope && d.status == STATUS_ACTIVE && d.visibility == VISIBILITY_PUBLIC
        && d.m2m;
    NamespaceOwner(r, d);
    IdsHaveNoColon(r.id);
    if HasPrefix(scope, PublicNamespace(INTERNAL_PREFIX)) {
      PrefixBeforeSeparator(scope, r.id, INTERNAL_PREFIX, ':');
      assert false;
    }
  }

  predicate Qualifies(legacy: seq<ServiceScopes>, resources: seq<ResourceServer>, scope: string) {
    PublishedForMachines(resources, scope) || LegacyM2m(legacy, resources, scope)
  }

  function Reached(acts: seq<RegistrySafety.Act>): seq<ResourceServer> {
    Rows(RegistrySafety.Exec(RegistrySafety.Empty, acts).db.resources)
  }

  lemma AllowedQualifies(acts: seq<RegistrySafety.Act>, legacy: seq<ServiceScopes>, s: string)
    ensures Allowed(Merge(legacy, Reached(acts)), true, s) <==> Qualifies(legacy, Reached(acts), s)
  {
    hide RegistrySafety.Exec, Merge, Validated, ActivePublicM2m, Unmanaged, HasM2mEntry, HasPrefix;
    var resources := Reached(acts);
    ReachableIsValidated(acts);
    GrantableMeaning(legacy, resources, s);
    forall r | r in resources && ActivePublicM2m(r, s) ensures !HasPrefix(s, PublicNamespace(INTERNAL_PREFIX)) {
      ActivePublicIsOutsideInternal(r, s);
    }
  }

  /** No empty scope is held, or it qualifies itself, or the check is refused before it gets there. */
  predicate BlankIsHarmless(legacy: seq<ServiceScopes>, resources: seq<ResourceServer>, held: seq<string>) {
    || "" !in held
    || Qualifies(legacy, resources, "")
    || exists s :: s in BeforeBlank(held) && !Qualifies(legacy, resources, s)
  }

  /** End to end: over any registry reached through publishes, restores, bootstraps and provisions, a
      held list passes the machine check exactly when every scope before its first empty one qualifies:
      it is published for machines by a resource, or an unmanaged legacy m2m entry (and when the whole
      list qualifies, should the empty scope itself be such an entry). Passing therefore means that
      everything held qualifies exactly when an empty scope can do no harm. */
  lemma HeldScopesArePublished(acts: seq<RegistrySafety.Act>, legacy: seq<ServiceScopes>, held: seq<string>)
    ensures var resources := Reached(acts);
            var passes := FirstBad(Merge(legacy, resources), true, held) == "";
            && (passes <==>
                forall s :: s in (if Qualifies(legacy, resources, "") then held else BeforeBlank(held)) ==>
                  Qualifies(legacy, resources, s))
            && ((passes ==> forall s :: s in held ==> Qualifies(legacy, resources, s)) <==>
                BlankIsHarmless(legacy, resources, held))
  {
    hide Merge, FirstBad, Qualifies, Reached, Allowed, BeforeBlank;
    var catalog := Merge(legacy, Reached(acts));
    AcceptsExactly(catalog, true, held);
    BeforeBlankIsAll(held);
    forall s ensures Allowed(catalog, true, s) <==> Qualifies(legacy, Reached(acts), s) {
      AllowedQualifies(acts, legacy, s);
    }
  }

  lemma {:induction false} BeforeBlankIsAll(scopes: seq<string>)
    ensures forall s :: s in BeforeBlank(scopes) ==> s in scopes
    ensures "" !in scopes ==> BeforeBlank(scopes) == scopes
  {
    if scopes != [] {
      BeforeBlankIsAll(scopes[1..]);
      assert scopes == [scopes[0]] + scopes[1..];
    }
  }

  /** A developer client's machine token carries only what the client holds, and everything it holds
      qualifies, exactly where an empty held scope is harmless; elsewhere any nonempty request for held
      scopes is granted although something held does not qualify. */
  lemma MachineTokensArePublished(acts: seq<RegistrySafety.Act>, legacy: seq<ServiceScopes>, later: seq<ServiceScopes>,
                                  selfAudience: string,
                                  client: OAuthClient, secretOk: bool, ownerActive: bool, requested: seq<string>)
    requires !client.firstParty
    ensures var r := IssuedTo(selfAudience, Merge(legacy, Reached(acts)), later, Some(client), secretOk, ownerActive,
                              requested);
            && (r.Ok? ==> r.value.scopes == requested && forall s :: s in r.value.scopes ==> s in client.allowedScopes)
            && (r.Ok? && BlankIsHarmless(legacy, Reached(acts), client.allowedScopes) ==>
                  forall s :: s in client.allowedScopes ==> Qualifies(legacy, Reached(acts), s))
            && (!BlankIsHarmless(legacy, Reached(acts), client.allowedScopes) ==>
                  && (exists s :: s in client.allowedScopes && !Qualifies(legacy, Reached(acts), s))
                  && (r.Ok? <==> && !client.isPublic && secretOk && ownerActive && requested != []
                                 && forall s :: s in requested ==> s in client.allowedScopes))
  {
    HeldScopesArePublished(acts, legacy, client.allowedScopes);
    hide Merge, FirstBad, Qualifies, Reached, BlankIsHarmless, AudienceList;
  }

  /** An empty scope ends both checks as if everything were allowed: a client may be registered with an
      empty scope followed by any other, and gets a machine token for that other one, whatever it is. */
  lemma BlankScopeAdmitsAny(catalog: seq<ServiceScopes>, later: seq<ServiceScopes>, selfAudience: string,
                            client: OAuthClient, scope: string)
    requires !Allowed(catalog, false, "")
    requires client == OAuthClient(false, false, client.redirects, ["", scope])
    ensures FirstBad(catalog, false, client.allowedScopes) == "" && FirstBad(catalog, true, client.allowedScopes) == ""
    ensures IssuedTo(selfAudience, catalog, later, Some(client), true, true, [scope]) ==
            Ok(MachineToken([scope], [selfAudience] + AudienceList(later, {scope})))
  {
    MachineImpliesGrantable(catalog, "");
    hide Allowed, AudienceList;
    assert (set s | s in [scope]) == {scope};
  }

  lemma MachineImpliesGrantable(catalog: seq<ServiceScopes>, scope: string)
    ensures Allowed(catalog, true, scope) ==> Allowed(catalog, false, scope)
  {
    if MachineGrantable(catalog, scope) {
      var svc :| svc in catalog && !svc.isInternal && HasM2mEntry(svc, scope);
      assert HasEntry(svc, scope);
    }
  }
}
