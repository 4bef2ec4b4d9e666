/**
 * The registry and catalog services as objects over one repository and one cache, called one after
 * the other. Every registry method does to the tables exactly what its client of module Registry
 * does when nobody interrupts it.
 */
module Services {
  import opened Wrappers
  import opened Manifests
  import opened Store
  import opened Registry
  import opened RegistryAnswers
  import opened Catalog
  import CacheClient
  import Strings

  const CATALOG_CACHE_KEY := "scope_catalog"
  const CATALOG_CACHE_TTL := 300

  type CatalogCache = CacheClient.Client<seq<ServiceScopes>>

  function FreshCatalog(repo: Repository): seq<ServiceScopes>
    reads repo
  {
    Merge(Rows(repo.services), Rows(repo.resources))
  }

  /** Whatever the cache holds is what a load would compute now. */
  ghost predicate CacheFresh(repo: Repository, cache: CatalogCache)
    reads repo, cache
  {
    CATALOG_CACHE_KEY in cache.mem ==> cache.mem[CATALOG_CACHE_KEY].data == CacheClient.Value(FreshCatalog(repo))
  }

  /** The publish inside a bootstrap stores, on the account row it found. */
  predicate PublishStoresOn(db: Db, current: Option<ResourceServer>, b: BootArgs, now: int) {
    && current.Some? && current.value.audience == b.audience && current.value.publisher == SYSTEM_ACCOUNT_PUBLISHER
    && var a := PublishArgs(SYSTEM_ACCOUNT_PUBLISHER, b.manifest, current.value.revision, "ctech-account",
                            b.sourceRevision);
       RunAlone(db, PublishRead(a, None), now).1.Stored?
  }

  /** The tables as a bootstrap finds or makes them. */
  function WithAccount(db: Db, b: BootArgs, now: int): Db {
    if GetResource(db, ACCOUNT_RESOURCE_ID).None? then Step(db, BootCreate(b), now).0 else db
  }

  predicate PublishStores(db: Db, b: BootArgs, now: int) {
    PublishStoresOn(WithAccount(db, b, now), GetResource(WithAccount(db, b, now), ACCOUNT_RESOURCE_ID), b, now)
  }

  class RegistryService {
    const repo: Repository
    const cache: CatalogCache

    constructor (repo: Repository, cache: CatalogCache)
      ensures this.repo == repo && this.cache == cache
    {
      this.repo := repo;
      this.cache := cache;
    }

    method Invalidate()
      modifies cache
      ensures cache.mem == if cache.enabled then old(cache.mem) - {CATALOG_CACHE_KEY}
              else old(cache.mem)
    {
      cache.Delete(CATALOG_CACHE_KEY);
    }

    /** Checks the request against the row it reads, then writes under the revision it read. */
    method Publish(a: PublishArgs, now: int) returns (out: Outcome)
      modifies repo, cache
      ensures (repo.Contents(), out) == RunAlone(old(repo.Contents()), PublishRead(a, None), now)
      ensures Keyed(old(repo.Contents())) ==> PublishAnswers(old(repo.Contents()), repo.Contents(), out, a, now)
      ensures cache.mem == if out.Stored?
              && cache.enabled then old(cache.mem) - {CATALOG_CACHE_KEY} else old(cache.mem)
      ensures repo.services == old(repo.services)
      ensures out.Failed? ==> repo.Contents() == old(repo.Contents())
      ensures cache.enabled && old(CacheFresh(repo, cache)) ==> CacheFresh(repo, cache)
    {
      hide ValidManifest, Canonical, ManifestHash, NoActiveRemoval, RunAlone, Merge, Rows, Keyed, PublishAnswers,
        Continues, DropsActive;
      ghost var db := repo.Contents();
      ghost var pc := PublishRead(a, None);
      if Keyed(db) {
        PublishAlone(db, a, now);
      }
      OneCall(db, pc, now);
      var outcome, write := CheckPublish(a, now);
      assert Step(db, pc, now) ==
          (db, if write.None? then Done(outcome) else PublishWrite(a, None, write.value.0, write.value.1));
      out := outcome;
      if write.Some? {
        OneCall(db, PublishWrite(a, None, write.value.0, write.value.1), now);
        var written := repo.Reconcile(write.value.0, write.value.1);
        out := if written.Err? then Failed(written.error) else Stored(write.value.1, true);
      }
      DoneIsDone(repo.Contents(), out, now);
      if out.Stored? {
        Invalidate();
      }
    }

    /** Validation, ownership, expected revision, no removal, unchanged hash, in that order. */
    method CheckPublish(a: PublishArgs, now: int)
      returns (outcome: Outcome, write: Option<(ResourceServer, ResourceServer)>)
      ensures Step(repo.Contents(), PublishRead(a, None), now) ==
              (repo.Contents(), if write.None? then Done(outcome)
               else PublishWrite(a, None, write.value.0, write.value.1))
      ensures var read := GetResource(repo.Contents(), a.manifest.resourceServerId);
              write.Some? <==>
                && ValidManifest(a.manifest) && read.Some?
                && read.value.publisher == a.actor && read.value.revision == a.expected
                && !DropsActive(read.value, a.manifest) && read.value.hash != ManifestHash(a.manifest)
      ensures write.Some? ==>
                && GetResource(repo.Contents(), a.manifest.resourceServerId) == Some(write.value.0)
                && Continues(write.value.0, write.value.1, a.manifest, a.actor, a.sourceRepository, a.sourceRevision,
                             now)
      ensures write.None? ==>
                match GetResource(repo.Contents(), a.manifest.resourceServerId)
                case None => outcome == Failed(if ValidManifest(a.manifest) then ResourceNotFound else InvalidResource)
                case Some(current) =>
                  if !ValidManifest(a.manifest) || current.publisher != a.actor then outcome == Failed(InvalidResource)
                  else if current.revision != a.expected then outcome == Failed(RevisionConflict)
                  else if DropsActive(current, a.manifest) then outcome == Failed(ScopeRemoval)
                  else outcome == Stored(current, false)
    {
      if a.manifest.resourceServerId in repo.resources {
        DropsActiveMeans(repo.resources[a.manifest.resourceServerId], a.manifest);
      }
      hide ValidManifest, NoActiveRemoval, Canonical, DropsActive, Continues;
      outcome, write := Failed(InvalidResource), None;
      var valid := ValidateManifest(a.manifest);
      if valid.Err? {
        return;
      }
      var read := repo.Get(a.manifest.resourceServerId);
      if read.Err? {
        outcome := Failed(read.error);
        return;
      }
      var current := read.value;
      if current.publisher != a.actor {
        return;
      }
      if current.revision != a.expected {
        outcome := Failed(RevisionConflict);
        return;
      }
      var removal := EnsureNoActiveRemoval(current.scopes, a.manifest);
      if removal.Err? {
        outcome := Failed(removal.error);
        return;
      }
      var hash := ManifestHash(a.manifest);
      if current.hash == hash {
        outcome := Stored(current, false);
        return;
      }
      var next := ResourceFromManifest(current, a.manifest, a.actor, a.sourceRepository, a.sourceRevision, now);
      write := Some((current, next));
    }

    method ResourceFromManifest(current: ResourceServer, m: Manifest, actor: string, source: string, rev: string,
                                now: int)
      returns (next: ResourceServer)
      ensures next == FromManifest(current, m, actor, source, rev, now)
      ensures Continues(current, next, m, actor, source, rev, now)
    {
      hide Canonical, ManifestHash;
      var c := CanonicalManifest(m);
      var hash := ManifestHash(c);
      next := ResourceServer(current.id, c.displayName, current.audience, current.publisher, c.scopes,
                             current.revision + 1, hash, now, actor, source, rev);
    }

    method Restore(r: RestoreArgs, now: int) returns (out: Outcome)
      modifies repo, cache
      ensures (repo.Contents(), out) == RunAlone(old(repo.Contents()), RestoreRead(r), now)
      ensures Keyed(old(repo.Contents())) ==> RestoreAnswers(old(repo.Contents()), repo.Contents(), out, r, now)
      ensures cache.mem == if out.Stored?
              && cache.enabled then old(cache.mem) - {CATALOG_CACHE_KEY} else old(cache.mem)
      ensures repo.services == old(repo.services)
      ensures out.Failed? ==> repo.Contents() == old(repo.Contents())
      ensures cache.enabled && old(CacheFresh(repo, cache)) ==> CacheFresh(repo, cache)
    {
      hide Canonical, ManifestHash, RunAlone, Merge, Rows, Keyed, RestoreAnswers, Continues;
      ghost var db := repo.Contents();
      if Keyed(db) {
        RestoreAlone(db, r, now);
      }
      OneCall(db, RestoreRead(r), now);
      var read := repo.Get(r.id);
      if read.Err? {
        DoneIsDone(db, Failed(ResourceNotFound), now);
        return Failed(read.error);
      }
      var current := read.value;
      if current.revision != r.expected {
        DoneIsDone(db, Failed(RevisionConflict), now);
        return Failed(RevisionConflict);
      }
      OneCall(db, RestoreSnapshot(r, current), now);
      var snapshot := repo.Revision(r.id, r.revision);
      if snapshot.Err? {
        DoneIsDone(db, Failed(ResourceNotFound), now);
        return Failed(snapshot.error);
      }
      var row := snapshot.value;
      var next := ResourceFromManifest(current, Manifest(MANIFEST_SCHEMA_V1, r.id, row.displayName, row.scopes),
                                       r.actor, "operator-restore", "revision-" + Strings.Decimal(r.revision), now);
      OneCall(db, RestoreWrite(r, current, next), now);
      var written := repo.Reconcile(current, next);
      out := if written.Err? then Failed(written.error) else Stored(next, true);
      DoneIsDone(repo.Contents(), out, now);
      if written.Ok? {
        Invalidate();
      }
    }

    /** The audience check is a URL parse and arrives as a flag, as in ProvisionStart. The cached catalog is
        dropped exactly when the publish inside stores; the creation before it drops nothing. */
    method BootstrapAccount(b: BootArgs, audienceOk: bool, now: int) returns (out: Outcome)
      modifies repo, cache
      ensures !ValidManifest(b.manifest) || !audienceOk ==>
                out == Failed(InvalidResource) && repo.Contents() == old(repo.Contents())
      ensures ValidManifest(b.manifest) && audienceOk ==>
                (repo.Contents(), out) == RunAlone(old(repo.Contents()), BootRead(b), now)
      ensures ValidManifest(b.manifest) && audienceOk && b.manifest.resourceServerId == "account"
              && Keyed(old(repo.Contents())) ==>
                BootAnswers(old(repo.Contents()), repo.Contents(), out, b, now)
      ensures repo.services == old(repo.services)
      ensures cache.mem ==
              if ValidManifest(b.manifest) && audienceOk && PublishStores(old(repo.Contents()), b, now)
                && cache.enabled then
                old(cache.mem) - {CATALOG_CACHE_KEY}
              else old(cache.mem)
      ensures PublishStores(old(repo.Contents()), b, now) && ValidManifest(b.manifest) && audienceOk ==>
                (cache.enabled ==> CacheFresh(repo, cache))
    {
      hide ValidManifest, Canonical, ManifestHash, NoActiveRemoval, RunAlone, AfterPublishRead, AfterBootRead,
        PublishStoresOn, Merge, Rows, Keyed, BootAnswers;
      if ValidManifest(b.manifest) && b.manifest.resourceServerId == "account" && Keyed(repo.Contents()) {
        BootAlone(repo.Contents(), b, now);
      }
      var valid := ValidateManifest(b.manifest);
      if valid.Err? {
        return Failed(InvalidResource);
      }
      if !audienceOk {
        return Failed(InvalidResource);
      }
      OneCall(repo.Contents(), BootRead(b), now);
      var read := repo.Get(ACCOUNT_RESOURCE_ID);
      if read.Err? {
        OneCall(repo.Contents(), BootCreate(b), now);
        var initial := ResourceServer(ACCOUNT_RESOURCE_ID, b.manifest.displayName, b.audience, SYSTEM_ACCOUNT_PUBLISHER,
                                      [],
                                      0, Unset, now, SYSTEM_ACCOUNT_PUBLISHER, "", "");
        var created := repo.Create(initial);
        OneCall(repo.Contents(), BootReread(b), now);
        read := repo.Get(ACCOUNT_RESOURCE_ID);
      }
      // the second read finds the row just created, or the one that made the creation fail
      if read.Err? {
        assert false;
      }
      assert repo.Contents() == WithAccount(old(repo.Contents()), b, now);
      out := PublishAccount(read.value, b, now);
    }

    /** The second half of a bootstrap, once the account row is known. */
    method PublishAccount(current: ResourceServer, b: BootArgs, now: int) returns (out: Outcome)
      modifies repo, cache
      ensures (repo.Contents(), out) == RunAlone(old(repo.Contents()), AfterBootRead(current, b), now)
      ensures repo.services == old(repo.services)
      ensures cache.mem ==
              if PublishStoresOn(old(repo.Contents()), Some(current), b, now)
                && cache.enabled then old(cache.mem) - {CATALOG_CACHE_KEY}
              else old(cache.mem)
      ensures PublishStoresOn(old(repo.Contents()), Some(current), b, now) && cache.enabled ==> CacheFresh(repo, cache)
    {
      hide ValidManifest, Canonical, ManifestHash, NoActiveRemoval, RunAlone, AfterPublishRead;
      if current.audience != b.audience || current.publisher != SYSTEM_ACCOUNT_PUBLISHER {
        DoneIsDone(repo.Contents(), Failed(InvalidResource), now);
        return Failed(InvalidResource);
      }
      var a := PublishArgs(SYSTEM_ACCOUNT_PUBLISHER, b.manifest, current.revision, "ctech-account", b.sourceRevision);
      NestedPublish(repo.Contents(), a, b, now);
      out := Publish(a, now);
      if out == Failed(RevisionConflict) {
        OneCall(repo.Contents(), BootLatest(b), now);
        var latest := repo.Get(ACCOUNT_RESOURCE_ID);
        if latest.Err? {
          out := Failed(latest.error);
        } else {
          var hash := ManifestHash(b.manifest);
          if latest.value.hash == hash {
            out := Stored(latest.value, false);
          }
        }
        DoneIsDone(repo.Contents(), out, now);
      }
    }

    method Provision(id: string, displayName: string, audience: string, audienceOk: bool, publisher: string, now: int)
      returns (out: Outcome)
      modifies repo
      ensures (repo.Contents(), out) ==
              RunAlone(old(repo.Contents()), ProvisionStart(id, displayName, audience, audienceOk, publisher, now), now)
      ensures ProvisionAnswers(old(repo.Contents()), repo.Contents(), out, id, displayName, audience, audienceOk,
                               publisher, now)
      ensures repo.services == old(repo.services)
    {
      hide ValidResourceId, RunAlone, ProvisionAnswers;
      ProvisionAlone(repo.Contents(), id, displayName, audience, audienceOk, publisher, now);
      if !ValidResourceId(id) || id == IDENTITY_SERVICE || id == ACCOUNT_RESOURCE_ID || id == INTERNAL_PREFIX
         || displayName == "" || publisher == "" || !audienceOk {
        DoneIsDone(repo.Contents(), Failed(InvalidResource), now);
        return Failed(InvalidResource);
      }
      var initial := ResourceServer(id, displayName, audience, publisher, [], 0, Unset, now, "operator", "", "");
      OneCall(repo.Contents(), ProvisionCreate(initial), now);
      var created := repo.Create(initial);
      out := if created.Err? then Failed(created.error) else Stored(initial, true);
      DoneIsDone(repo.Contents(), out, now);
    }
  }

  class CatalogService {
    const repo: Repository
    const cache: CatalogCache

    constructor (repo: Repository, cache: CatalogCache)
      ensures this.repo == repo && this.cache == cache
    {
      this.repo := repo;
      this.cache := cache;
    }

    /** Cache first, tables otherwise; over a fresh cache the answer is always the merge of the tables. */
    method Catalog(now: int) returns (services: seq<ServiceScopes>)
      modifies cache
      ensures old(CacheFresh(repo, cache)) ==> services == FreshCatalog(repo) && CacheFresh(repo, cache)
      ensures var hit := cache.enabled && "scope_catalog" in old(cache.mem)
                         && now <= old(cache.mem)["scope_catalog"].expires
                         && old(cache.mem)["scope_catalog"].data.Value?
                         && old(cache.mem)["scope_catalog"].data.v != [];
              if hit then services == old(cache.mem)["scope_catalog"].data.v && cache.mem == old(cache.mem)
              else
                && services == FreshCatalog(repo)
                && cache.mem == if !cache.enabled || services == [] then old(cache.mem)
                                else
                                  old(cache.mem)["scope_catalog" :=
                                    CacheClient.Entry(CacheClient.Value(services), now + 300)]
      ensures forall key :: key in old(cache.mem) && key != CATALOG_CACHE_KEY ==>
                key in cache.mem && cache.mem[key] == old(cache.mem)[key]
    {
      hide Merge, Rows;
      if cache.enabled {
        var hit := cache.Get(now, CATALOG_CACHE_KEY);
        if hit.Ok? && hit.value.Value? && |hit.value.v| > 0 {
          return hit.value.v;
        }
      }
      services := repo.LoadCatalog();
      var resources := repo.LoadResources();
      services := MergeResourceServers(services, resources);
      if cache.enabled && |services| > 0 {
        cache.Set(now, CATALOG_CACHE_KEY, CacheClient.Value(services), CATALOG_CACHE_TTL);
      }
    }

    method PutService(svc: ServiceScopes)
      modifies repo, cache
      ensures repo.services == old(repo.services)[svc.service := svc] && repo.Contents() == old(repo.Contents())
      ensures cache.enabled ==> CacheFresh(repo, cache)
      ensures cache.mem == if cache.enabled then old(cache.mem) - {CATALOG_CACHE_KEY}
              else old(cache.mem)
    {
      repo.PutService(svc);
      if cache.enabled {
        cache.Delete(CATALOG_CACHE_KEY);
      }
    }
  }
}
