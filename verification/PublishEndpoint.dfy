/**
 * The publishing endpoint: a conditional PUT whose entity tag names the revision and the hash of the
 * manifest the caller last saw, and the reconciliation of the resource's own client after it. The tag's
 * text is not modelled; two tags are equal when both parts are.
 */
module PublishEndpoint {
  import opened Wrappers
  import opened Strings
  import opened Manifests
  import opened Store
  import opened Registry
  import opened RegistrySafety
  import opened OauthClients
  import Catalog
  import opened RegistryAnswers
  import Services

  const MAX_SOURCE_METADATA := 200

  datatype ETag = ETag(revision: int, hash: Hash)

  function ETagOf(r: ResourceServer): ETag {
    ETag(r.revision, r.hash)
  }

  datatype PutAnswer =
    | PreconditionFailed | NotFound | Invalid | RemovesActiveScope | ClientNotReconciled
    | Accepted(tag: ETag, changed: bool, clientChanged: bool, active: nat, deprecated: nat)

  function AnswerFor(error: RegistryError): PutAnswer {
    match error
    case RevisionConflict => PreconditionFailed
    case ScopeRemoval => RemovesActiveScope
    case ResourceNotFound => NotFound
    case _ => Invalid
  }

  function PublicActive(entries: seq<ScopeDefinition>): seq<string> {
    if entries == [] then []
    else
      var last := entries[|entries| - 1];
      PublicActive(entries[..|entries| - 1])
      + (if last.visibility == VISIBILITY_PUBLIC && last.status == STATUS_ACTIVE then [last.scope] else [])
  }

  lemma {:induction false} PublicActiveElements(entries: seq<ScopeDefinition>, scope: string)
    ensures scope in PublicActive(entries) <==>
              exists d :: d in entries && d.scope == scope && d.status == STATUS_ACTIVE
                && d.visibility == VISIBILITY_PUBLIC
  {
    if entries != [] {
      PublicActiveElements(entries[..|entries| - 1], scope);
      assert entries == entries[..|entries| - 1] + [entries[|entries| - 1]];
    }
  }

  /** The scopes handed to the resource's own client are exactly the ones the catalog makes grantable
      from this resource, and each lies in the resource's public namespace, outside the internal one. */
  lemma PublicScopesAreGrantable(r: ResourceServer, scope: string)
    requires Catalog.Validated(r)
    ensures scope in PublicActive(r.scopes) <==> Catalog.ActivePublic(r, scope)
    ensures scope in PublicActive(r.scopes) ==>
              HasPrefix(scope, PublicNamespace(r.id)) && !HasPrefix(scope, PublicNamespace(INTERNAL_PREFIX))
  {
    hide Catalog.Validated, HasPrefix, PublicNamespace;
    PublicActiveElements(r.scopes, scope);
    if scope in PublicActive(r.scopes) {
      var d :| d in r.scopes && d.scope == scope && d.status == STATUS_ACTIVE && d.visibility == VISIBILITY_PUBLIC;
      Catalog.NamespaceOwner(r, d);
      OwnersAreNotInternal(r);
      OneNamespace(scope, r.id, INTERNAL_PREFIX);
    }
  }

  lemma OwnersAreNotInternal(r: ResourceServer)
    requires Catalog.Validated(r)
    ensures r.id != INTERNAL_PREFIX && ':' !in r.id
  {
    hide EntryOk, DistinctScopes;
    Catalog.IdsHaveNoColon(r.id);
  }

  lemma OneNamespace(scope: string, a: string, b: string)
    requires HasPrefix(scope, PublicNamespace(a)) && ':' !in a && ':' !in b && a != b
    ensures !HasPrefix(scope, PublicNamespace(b))
  {
    if HasPrefix(scope, PublicNamespace(b)) {
      PrefixBeforeSeparator(scope, a, b, ':');
      assert false;
    }
  }

  // ---------------------------------------------------------------- the resource's own client

  datatype ReconcileError = InvalidScope(scope: string) | NotFirstPartyPublic

  /** What the reconciliation asks of every scope it is handed. */
  predicate OwnPublicScope(id: string, scope: string) {
    IsValidScope(scope) && HasPrefix(scope, PublicNamespace(id)) && !HasPrefix(scope, PublicNamespace(INTERNAL_PREFIX))
  }

  function AppendMissing(allowed: seq<string>, more: seq<string>): seq<string> {
    if more == [] then allowed
    else
      var front, last := AppendMissing(allowed, more[..|more| - 1]), more[|more| - 1];
      if last in front then front else front + [last]
  }

  /** Nothing is removed or reordered; what is added is what was asked for and missing. */
  lemma {:induction false} AppendMissingKeeps(allowed: seq<string>, more: seq<string>)
    ensures allowed <= AppendMissing(allowed, more)
    ensures forall x :: x in AppendMissing(allowed, more) <==> x in allowed || x in more
    ensures AppendMissing(allowed, more) == allowed <==> forall x :: x in more ==> x in allowed
  {
    if more != [] {
      AppendMissingKeeps(allowed, more[..|more| - 1]);
      assert more == more[..|more| - 1] + [more[|more| - 1]];
    }
  }

  /** The existing client under the resource's id is not one the platform runs in a browser. */
  predicate ForeignClient(clients: map<string, OAuthClient>, id: string) {
    id in clients && !(clients[id].isPublic && clients[id].firstParty)
  }

  function Reconciled(clients: map<string, OAuthClient>, id: string, required: seq<string>): map<string, OAuthClient> {
    if id !in clients || ForeignClient(clients, id) then clients
    else clients[id := clients[id].(allowedScopes := AppendMissing(clients[id].allowedScopes, required))]
  }

  /** A published manifest hands over only scopes the reconciliation takes. */
  lemma PublishedScopesAreTaken(m: Manifest, scope: string)
    requires ValidManifest(m) && scope in PublicActive(m.scopes)
    ensures OwnPublicScope(m.resourceServerId, scope)
  {
    hide IsValidScope, HasPrefix, DescriptionsOk, PublicNamespace, InternalNamespace;
    PublicActiveElements(m.scopes, scope);
    var d :| d in m.scopes && d.scope == scope && d.status == STATUS_ACTIVE && d.visibility == VISIBILITY_PUBLIC;
    var i :| 0 <= i < |m.scopes| && m.scopes[i] == d;
    assert EntryOk(m.resourceServerId, m.scopes[i]);
    Catalog.IdsHaveNoColon(m.resourceServerId);
    NoColonInside();
    OneNamespace(scope, m.resourceServerId, INTERNAL_PREFIX);
  }

  lemma NoColonInside()
    ensures ':' !in INTERNAL_PREFIX
  {}

  lemma ValidIdsAreTrimmed(id: string)
    requires ValidResourceId(id)
    ensures TrimSpace(id) == id
  {
    var last := id[|id| - 1];
    assert IsSegmentChar(last) || last in "_-";
  }

  lemma HeaderOfValid(m: Manifest)
    requires ValidManifest(m)
    ensures ValidResourceId(m.resourceServerId)
  {}

  lemma StoredIsValid(db: Db, a: PublishArgs, now: int)
    requires RunAlone(db, PublishRead(a, None), now).1.Stored?
    ensures ValidManifest(a.manifest) && ValidResourceId(a.manifest.resourceServerId)
  {
    hide ValidManifest, AfterPublishRead, RunAlone;
    OneCall(db, PublishRead(a, None), now);
    if ValidManifest(a.manifest) {
      HeaderOfValid(a.manifest);
    } else {
      DoneIsDone(db, Failed(InvalidResource), now);
    }
  }

  class ClientService {
    var clients: map<string, OAuthClient>

    constructor (clients: map<string, OAuthClient>)
      ensures this.clients == clients
    {
      this.clients := clients;
    }

    /** Appends newly published public scopes to the client that carries the resource's id, if there is one
        and the platform runs it. Nothing else about any client changes. */
    method EnsureFirstPartyPublicClientScopes(rawId: string, required: seq<string>)
      returns (r: Result<bool, ReconcileError>)
      modifies this
      ensures var id := TrimSpace(rawId);
              if required == [] then r == Ok(false) && clients == old(clients)
              else if exists x ::
                  x in required && !(IsValidScope(x) && HasPrefix(x, id + ":") && !HasPrefix(x, "internal:"))
              then
                && r.Err? && r.error.InvalidScope? && r.error.scope in required
                && !OwnPublicScope(id, r.error.scope) && clients == old(clients)
              else if id !in old(clients) then r == Ok(false) && clients == old(clients)
              else if !old(clients)[id].isPublic || !old(clients)[id].firstParty then
                r == Err(NotFirstPartyPublic) && clients == old(clients)
              else
                && clients == Reconciled(old(clients), id, required) && r == Ok(clients != old(clients))
                && id in clients
                && clients == old(clients)[id := old(clients)[id].(allowedScopes := clients[id].allowedScopes)]
                && old(clients)[id].allowedScopes <= clients[id].allowedScopes
                && forall x :: x in clients[id].allowedScopes <==> x in old(clients)[id].allowedScopes || x in required
    {
      hide IsValidScope, HasPrefix, TrimSpace;
      assert PublicNamespace(INTERNAL_PREFIX) == "internal:";
      var id := TrimSpace(rawId);
      if |required| == 0 {
        return Ok(false);
      }
      for i := 0 to |required|
        invariant forall k :: 0 <= k < i ==> OwnPublicScope(id, required[k])
      {
        if !OwnPublicScope(id, required[i]) {
          return Err(InvalidScope(required[i]));
        }
      }
      if id !in clients {
        return Ok(false);
      }
      var client := clients[id];
      if !client.isPublic || !client.firstParty {
        return Err(NotFirstPartyPublic);
      }
      AppendMissingKeeps(client.allowedScopes, required);
      var allowed := client.allowedScopes;
      assert required[..0] == [];
      for i := 0 to |required|
        invariant allowed == AppendMissing(client.allowedScopes, required[..i])
      {
        assert required[..i + 1][..i] == required[..i];
        if required[i] !in allowed {
          allowed := allowed + [required[i]];
        }
      }
      assert required[..|required|] == required;
      if allowed == client.allowedScopes {
        assert clients[id := client] == clients;
        return Ok(false);
      }
      clients := clients[id := client.(allowedScopes := allowed)];
      assert clients[id] != client;
      return Ok(true);
    }
  }

  // ---------------------------------------------------------------- the endpoint

  /** No update is lost. The caller saw a row, its tag matched the row the endpoint read later, and the
      write went through: then the row it replaced is the very row the caller saw, content and all,
      whatever ran in between. */
  lemma NoLostUpdate(acts: seq<Act>, g: nat, i: nat, c: int, now: int, seen: ResourceServer, current: ResourceServer)
    requires g <= i <= |acts|
    requires GetResource(Exec(Empty, acts[..g]).db, seen.id) == Some(seen)
    requires GetResource(Exec(Empty, acts[..i]).db, seen.id) == Some(current) && ETagOf(current) == ETagOf(seen)
    requires var w := Exec(Empty, acts);
             c in w.clients && w.clients[c].PublishWrite? && w.clients[c].args.manifest.resourceServerId == seen.id
             && w.clients[c].args.expected == current.revision
    requires Next(Exec(Empty, acts), Advance(c, now)).db != Exec(Empty, acts).db
    ensures current == seen
    ensures var w := Exec(Empty, acts);
            w.clients[c].previous == seen && GetResource(w.db, seen.id) == Some(seen)
            && GetResource(Next(w, Advance(c, now)).db, seen.id) == Some(w.clients[c].next)
  {
    hide Exec, Step, TablesOk, WritersOk, Candidate, NoActiveRemoval, ValidManifest;
    NothingIsRewritten(acts, g, i);
    NothingIsRewritten(acts, g, |acts|);
    assert acts[..|acts|] == acts;
    EmptyIsOk();
    RunKeeps(Empty, acts);
    WritesFollowTheirPredecessor(acts, c, now);
    var w := Exec(Empty, acts);
    assert ClientOk(w.db, w.clients[c]);
    SameRevisionSameRow(Exec(Empty, acts[..g]).db, Exec(Empty, acts[..i]).db, seen, current);
    SameRevisionSameRow(Exec(Empty, acts[..g]).db, w.db, seen, w.clients[c].previous);
  }

  lemma SameRevisionSameRow(db: Db, db': Db, a: ResourceServer, b: ResourceServer)
    requires Grows(db, db') && GetResource(db, a.id) == Some(a) && GetResource(db', a.id) == Some(b)
    requires a.revision == b.revision
    ensures a == b
  {}

  class ScopeRegistryHandler {
    const registry: Services.RegistryService
    const reconcile: ClientService

    constructor (registry: Services.RegistryService, reconcile: ClientService)
      ensures this.registry == registry && this.reconcile == reconcile
    {
      this.registry, this.reconcile := registry, reconcile;
    }

    method PublicActiveScopes(entries: seq<ScopeDefinition>) returns (result: seq<string>)
      ensures result == PublicActive(entries)
    {
      result := [];
      for i := 0 to |entries|
        invariant result == PublicActive(entries[..i])
      {
        assert entries[..i + 1][..i] == entries[..i];
        if entries[i].visibility == VISIBILITY_PUBLIC && entries[i].status == STATUS_ACTIVE {
          result := result + [entries[i].scope];
        }
      }
      assert entries[..|entries|] == entries;
    }

    method CountScopes(entries: seq<ScopeDefinition>, status: string) returns (count: nat)
      ensures count == |Selected(entries, status)|
    {
      count := 0;
      for i := 0 to |entries|
        invariant count == |Selected(entries[..i], status)|
      {
        assert entries[..i + 1][..i] == entries[..i];
        if entries[i].status == status {
          count := count + 1;
        }
      }
      assert entries[..|entries|] == entries;
    }

    /** The tag names the stored row: its revision and its hash. */
    predicate Tagged(id: string, tag: ETag)
      requires id in registry.repo.resources
      reads registry.repo
    {
      var row := registry.repo.resources[id];
      tag.revision == row.revision && tag.hash == row.hash
    }

    /** The tag is checked on one read, the publish repeats the revision on its own read and in the write's
        condition, and the tables go where the publish alone takes them. Then the resource's own client gets
        the published scopes; if a client under that id is of another kind the answer is an error although
        the manifest is stored. */
    method Put(id: string, actor: string, ifMatch: Option<ETag>, m: Manifest, sourceRepo: string,
               sourceRevision: string, now: int)
      returns (answer: PutAnswer)
      modifies registry.repo, registry.cache, reconcile
      ensures ifMatch.None? ==> answer == PreconditionFailed
      ensures ifMatch.Some? && id !in old(registry.repo.resources) ==> answer == NotFound
      ensures ifMatch.Some? && id in old(registry.repo.resources) && !old(Tagged(id, ifMatch.value)) ==>
                answer == PreconditionFailed
      ensures ifMatch.Some? && id in old(registry.repo.resources) && old(Tagged(id, ifMatch.value))
              && (m.resourceServerId != id || ByteLen(sourceRepo) > 200 || ByteLen(sourceRevision) > 200) ==>
                answer == Invalid
      ensures !(ifMatch.Some? && id in old(registry.repo.resources) && old(Tagged(id, ifMatch.value))
                && m.resourceServerId == id && ByteLen(sourceRepo) <= 200 && ByteLen(sourceRevision) <= 200) ==>
                registry.repo.Contents() == old(registry.repo.Contents()) && reconcile.clients == old(reconcile.clients)
      ensures ifMatch.Some? && id in old(registry.repo.resources) && old(Tagged(id, ifMatch.value))
              && m.resourceServerId == id && ByteLen(sourceRepo) <= 200 && ByteLen(sourceRevision) <= 200 ==>
                var a := PublishArgs(actor, m, ifMatch.value.revision, sourceRepo, sourceRevision);
                var (db, out) := RunAlone(old(registry.repo.Contents()), PublishRead(a, None), now);
                && registry.repo.Contents() == db
                && (Keyed(old(registry.repo.Contents())) ==>
                      PublishAnswers(old(registry.repo.Contents()), db, out, a, now))
                && (out.Failed? ==>
                      && db == old(registry.repo.Contents()) && reconcile.clients == old(reconcile.clients)
                      && answer == match out.error
                         case RevisionConflict => PreconditionFailed
                         case ScopeRemoval => RemovesActiveScope
                         case ResourceNotFound => NotFound
                         case InvalidResource => Invalid
                         case ResourceAlreadyExists => Invalid)
                && (out.Stored? ==>
                      if PublicActive(m.scopes) != [] && ForeignClient(old(reconcile.clients), id) then
                        answer == ClientNotReconciled && reconcile.clients == old(reconcile.clients)
                      else
                        && reconcile.clients == Reconciled(old(reconcile.clients), id, PublicActive(m.scopes))
                        && answer == Accepted(ETag(out.resource.revision, out.resource.hash), out.changed,
                                              reconcile.clients != old(reconcile.clients),
                                              |Selected(out.resource.scopes, "active")|,
                                                |Selected(out.resource.scopes, "deprecated")|))
    {
      hide RunAlone, PublicActive, Selected, TrimSpace, ByteLen;
      if ifMatch.None? {
        return PreconditionFailed;
      }
      var current := registry.repo.Get(id);
      if current.Err? {
        return NotFound;
      }
      if ifMatch.value != ETagOf(current.value) {
        return PreconditionFailed;
      }
      if m.resourceServerId != id {
        return Invalid;
      }
      if ByteLen(sourceRepo) > MAX_SOURCE_METADATA || ByteLen(sourceRevision) > MAX_SOURCE_METADATA {
        return Invalid;
      }
      ghost var db := registry.repo.Contents();
      var a := PublishArgs(actor, m, ifMatch.value.revision, sourceRepo, sourceRevision);
      var published := registry.Publish(a, now);
      if published.Failed? {
        return AnswerFor(published.error);
      }
      StoredIsValid(db, a, now);
      ValidIdsAreTrimmed(id);
      var publicScopes := PublicActiveScopes(m.scopes);
      forall x | x in publicScopes ensures OwnPublicScope(id, x) {
        PublishedScopesAreTaken(m, x);
      }
      NothingToAppend(reconcile.clients, id);
      hide OwnPublicScope, ValidManifest, Reconciled, ForeignClient;
      var reconciled := reconcile.EnsureFirstPartyPublicClientScopes(id, publicScopes);
      if reconciled.Err? {
        return ClientNotReconciled;
      }
      var active := CountScopes(published.resource.scopes, STATUS_ACTIVE);
      var deprecated := CountScopes(published.resource.scopes, STATUS_DEPRECATED);
      answer := Accepted(ETagOf(published.resource), published.changed, reconciled.value, active, deprecated);
    }
  }

  lemma NothingToAppend(clients: map<string, OAuthClient>, id: string)
    ensures Reconciled(clients, id, []) == clients
  {}

  function Selected(entries: seq<ScopeDefinition>, status: string): seq<ScopeDefinition> {
    if entries == [] then []
    else
      var last := entries[|entries| - 1];
      Selected(entries[..|entries| - 1], status) + (if last.status == status then [last] else [])
  }

  function Having(entries: seq<ScopeDefinition>, status: string): set<int> {
    set i | 0 <= i < |entries| && entries[i].status == status
  }

  /** The reported counts are the numbers of entries with that status. */
  lemma {:induction false} SelectedCounts(entries: seq<ScopeDefinition>, status: string)
    ensures |Selected(entries, status)| == |Having(entries, status)|
  {
    if entries == [] {
      assert Having(entries, status) == {};
    } else {
      var n := |entries| - 1;
      SelectedCounts(entries[..n], status);
      forall i ensures i in Having(entries, status) <==>
          i in Having(entries[..n], status) || (i == n && entries[n].status == status) {}
      assert Having(entries, status) ==
          Having(entries[..n], status) + if entries[n].status == status then {n} else {};
      hide Having;
    }
  }
}
