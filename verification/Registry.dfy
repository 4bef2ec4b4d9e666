/**
 * The registry operations as clients that read, check and write in separate steps. Step performs
 * exactly one database call; between two steps of one client any other client may run. The clock
 * reading of a step is a parameter.
 */
module Registry {
  import opened Wrappers
  import opened Strings
  import opened Manifests
  import opened Store

  datatype Outcome = Stored(resource: ResourceServer, changed: bool) | Failed(error: RegistryError)

  datatype PublishArgs = PublishArgs(
    actor: string, manifest: Manifest, expected: int, sourceRepository: string, sourceRevision: string)

  datatype BootArgs = BootArgs(manifest: Manifest, audience: string, sourceRevision: string)

  datatype RestoreArgs = RestoreArgs(id: string, revision: int, expected: int, actor: string)

  /** Where a client is: which database call it makes next and what it has read so far. */
  datatype Pc =
    | PublishRead(args: PublishArgs, boot: Option<BootArgs>)
    | PublishWrite(args: PublishArgs, boot: Option<BootArgs>, previous: ResourceServer, next: ResourceServer)
    | RestoreRead(restore: RestoreArgs)
    | RestoreSnapshot(restore: RestoreArgs, current: ResourceServer)
    | RestoreWrite(restore: RestoreArgs, previous: ResourceServer, next: ResourceServer)
    | BootRead(b: BootArgs)
    | BootCreate(b: BootArgs)
    | BootReread(b: BootArgs)
    | BootLatest(b: BootArgs)
    | ProvisionCreate(initial: ResourceServer)
    | Done(outcome: Outcome)

  /** resourceFromManifest: only content and revision move; id, audience and publisher stay. */
  function FromManifest(current: ResourceServer, m: Manifest, actor: string, repo: string, rev: string,
                        now: int): ResourceServer {
    var c := Canonical(m);
    ResourceServer(current.id, c.displayName, current.audience, current.publisher, c.scopes,
                   current.revision + 1, ManifestHash(c), now, actor, repo, rev)
  }

  /** The manifest a history row stands for. */
  function SnapshotManifest(row: ResourceRevision): Manifest {
    Manifest(MANIFEST_SCHEMA_V1, row.id, row.displayName, row.scopes)
  }

  function Candidate(previous: ResourceServer, a: PublishArgs, now: int): ResourceServer {
    FromManifest(previous, a.manifest, a.actor, a.sourceRepository, a.sourceRevision, now)
  }

  function RestoreCandidate(previous: ResourceServer, row: ResourceRevision, r: RestoreArgs, now: int): ResourceServer {
    FromManifest(previous, Manifest(MANIFEST_SCHEMA_V1, r.id, row.displayName, row.scopes),
                 r.actor, "operator-restore", "revision-" + Decimal(r.revision), now)
  }

  /** A publish that hits a conflict fails, unless it runs inside a bootstrap, which looks again. */
  function OnConflict(boot: Option<BootArgs>): Pc {
    if boot.Some? then BootLatest(boot.value) else Done(Failed(RevisionConflict))
  }

  /** The checks of Publish on the row it read. */
  function AfterPublishRead(read: Option<ResourceServer>, a: PublishArgs, boot: Option<BootArgs>, now: int): Pc {
    match read
    case None => Done(Failed(ResourceNotFound))
    case Some(current) =>
      if current.publisher != a.actor then Done(Failed(InvalidResource))
      else if current.revision != a.expected then OnConflict(boot)
      else if !NoActiveRemoval(current.scopes, a.manifest.scopes) then Done(Failed(ScopeRemoval))
      else if current.hash == ManifestHash(a.manifest) then Done(Stored(current, false))
      else PublishWrite(a, boot, current, Candidate(current, a, now))
  }

  function BootPublish(b: BootArgs, expected: int): Pc {
    PublishRead(PublishArgs(SYSTEM_ACCOUNT_PUBLISHER, b.manifest, expected, "ctech-account", b.sourceRevision), Some(b))
  }

  function AfterBootRead(current: ResourceServer, b: BootArgs): Pc {
    if current.audience != b.audience
      || current.publisher != SYSTEM_ACCOUNT_PUBLISHER then Done(Failed(InvalidResource))
    else BootPublish(b, current.revision)
  }

  function InitialAccount(b: BootArgs, now: int): ResourceServer {
    ResourceServer(ACCOUNT_RESOURCE_ID, b.manifest.displayName, b.audience, SYSTEM_ACCOUNT_PUBLISHER, [],
                   0, Unset, now, SYSTEM_ACCOUNT_PUBLISHER, "", "")
  }

  /** One database call of one client. */
  function Step(db: Db, pc: Pc, now: int): (Db, Pc) {
    match pc
    case PublishRead(a, boot) =>
      if !ValidManifest(a.manifest) then (db, Done(Failed(InvalidResource)))
      else (db, AfterPublishRead(GetResource(db, a.manifest.resourceServerId), a, boot, now))
    case PublishWrite(a, boot, previous, next) =>
      (match ReconcileResource(db, previous, next)
       case Ok(db') => (db', Done(Stored(next, true)))
       case Err(_) => (db, OnConflict(boot)))
    case RestoreRead(r) =>
      (match GetResource(db, r.id)
       case None => (db, Done(Failed(ResourceNotFound)))
       case Some(current) =>
         if current.revision != r.expected then (db, Done(Failed(RevisionConflict)))
         else (db, RestoreSnapshot(r, current)))
    case RestoreSnapshot(r, current) =>
      (match GetRevision(db, r.id, r.revision)
       case None => (db, Done(Failed(ResourceNotFound)))
       case Some(row) => (db, RestoreWrite(r, current, RestoreCandidate(current, row, r, now))))
    case RestoreWrite(r, previous, next) =>
      (match ReconcileResource(db, previous, next)
       case Ok(db') => (db', Done(Stored(next, true)))
       case Err(e) => (db, Done(Failed(e))))
    case BootRead(b) =>
      (match GetResource(db, ACCOUNT_RESOURCE_ID)
       case None => (db, BootCreate(b))
       case Some(current) => (db, AfterBootRead(current, b)))
    case BootCreate(b) =>
      (match CreateResource(db, InitialAccount(b, now))
       case Ok(db') => (db', BootReread(b))
       case Err(_) => (db, BootReread(b)))
    case BootReread(b) =>
      (match GetResource(db, ACCOUNT_RESOURCE_ID)
       case None => (db, Done(Failed(ResourceNotFound)))
       case Some(current) => (db, AfterBootRead(current, b)))
    case BootLatest(b) =>
      (match GetResource(db, ACCOUNT_RESOURCE_ID)
       case None => (db, Done(Failed(ResourceNotFound)))
       case Some(latest) =>
         if latest.hash == ManifestHash(b.manifest) then (db, Done(Stored(latest, false)))
         else (db, Done(Failed(RevisionConflict))))
    case ProvisionCreate(initial) =>
      (match CreateResource(db, initial)
       case Ok(db') => (db', Done(Stored(initial, true)))
       case Err(e) => (db, Done(Failed(e))))
    case Done(_) => (db, pc)
  }

  /** Database calls a client may still make. */
  function CallsLeft(pc: Pc): nat {
    match pc
    case BootRead(_) => 6
    case BootCreate(_) => 5
    case BootReread(_) => 4
    case PublishRead(_, _) => 3
    case RestoreRead(_) => 3
    case PublishWrite(_, _, _, _) => 2
    case RestoreSnapshot(_, _) => 2
    case RestoreWrite(_, _, _) => 1
    case BootLatest(_) => 1
    case ProvisionCreate(_) => 1
    case Done(_) => 0
  }

  lemma StepFinishes(db: Db, pc: Pc, now: int)
    requires !pc.Done?
    ensures CallsLeft(Step(db, pc, now).1) < CallsLeft(pc)
  {
    hide ValidManifest, NoActiveRemoval, ManifestHash, Canonical, ReconcileResource;
  }

  /** A client that nobody interrupts. */
  function RunAlone(db: Db, pc: Pc, now: int): (Db, Outcome)
    decreases CallsLeft(pc)
  {
    if pc.Done? then (db, pc.outcome)
    else
      StepFinishes(db, pc, now);
      var (db', pc') := Step(db, pc, now);
      RunAlone(db', pc', now)
  }

  /** Provision refuses reserved and malformed ids before it touches the table. The audience check
      is a URL parse and arrives as a flag. */
  function ProvisionStart(id: string, displayName: string, audience: string, audienceOk: bool, publisher: string,
                          now: int): Pc {
    if !ValidResourceId(id)
      || id in {IDENTITY_SERVICE, ACCOUNT_RESOURCE_ID, INTERNAL_PREFIX} then Done(Failed(InvalidResource))
    else if displayName == "" || publisher == "" then Done(Failed(InvalidResource))
    else if !audienceOk then Done(Failed(InvalidResource))
    else ProvisionCreate(ResourceServer(id, displayName, audience, publisher, [], 0, Unset, now, "operator", "", ""))
  }
}
