/**
 * What one registry call answers and leaves behind when nobody runs in between, case by case, over the
 * tables it found. This says what the calls mean; the services' contracts and the lemmas here join it to
 * the step machine of module Registry.
 */
module RegistryAnswers {
  import opened Wrappers
  import opened Strings
  import opened Manifests
  import opened Store
  import opened Registry

  /** Every row is stored under its own id, as its sort key is its id. */
  predicate Keyed(db: Db) {
    forall id :: id in db.resources ==> db.resources[id].id == id
  }

  /** The row after previous: the content of a manifest, the next revision, and who wrote it from where.
      Id, audience and publisher stay. */
  predicate Continues(previous: ResourceServer, next: ResourceServer, m: Manifest, actor: string, repo: string,
                      rev: string, now: int) {
    && next.id == previous.id && next.audience == previous.audience && next.publisher == previous.publisher
    && next.revision == previous.revision + 1
    && next.displayName == TrimSpace(m.displayName)
    && next.scopes == Canonical(m).scopes
    && next.hash == ManifestHash(Canonical(m))
    && next.updatedAt == now && next.updatedBy == actor
    && next.sourceRepository == repo && next.sourceRevision == rev
  }

  /** The tables after next took the place of previous: that row, one new history row, and nothing else. */
  predicate Replaced(db: Db, db': Db, previous: ResourceServer, next: ResourceServer) {
    && db'.resources == db.resources[previous.id := next]
    && (previous.id, previous.revision + 1) !in db.history
    && db'.history == db.history[(previous.id, previous.revision + 1) :=
                        ResourceRevision(previous.id, previous.revision + 1, previous.hash, next.hash,
                                         next.displayName, next.scopes, next.updatedAt, next.updatedBy,
                                         next.sourceRepository, next.sourceRevision)]
  }

  /** An active scope of the row is not listed by the manifest. */
  predicate DropsActive(row: ResourceServer, m: Manifest) {
    exists i :: 0 <= i < |row.scopes| && row.scopes[i].status == "active"
      && forall j :: 0 <= j < |m.scopes| ==> m.scopes[j].scope != row.scopes[i].scope
  }

  /** A write over current succeeds exactly when the next history row is free. */
  predicate WriteAnswers(db: Db, db': Db, out: Outcome, current: ResourceServer, m: Manifest, actor: string,
                         repo: string, rev: string, now: int) {
    if GetRevision(db, current.id, current.revision + 1).Some? then out == Failed(RevisionConflict) && db' == db
    else
      && out.Stored? && out.changed
      && Continues(current, out.resource, m, actor, repo, rev, now)
      && Replaced(db, db', current, out.resource)
  }

  /** A publish over the row it finds. */
  predicate PublishOver(db: Db, db': Db, out: Outcome, current: ResourceServer, a: PublishArgs, now: int) {
    if current.publisher != a.actor then out == Failed(InvalidResource) && db' == db
    else if current.revision != a.expected then out == Failed(RevisionConflict) && db' == db
    else if DropsActive(current, a.manifest) then out == Failed(ScopeRemoval) && db' == db
    else if current.hash == ManifestHash(a.manifest) then out == Stored(current, false) && db' == db
    else WriteAnswers(db, db', out, current, a.manifest, a.actor, a.sourceRepository, a.sourceRevision, now)
  }

  predicate PublishAnswers(db: Db, db': Db, out: Outcome, a: PublishArgs, now: int) {
    if !ValidManifest(a.manifest) then out == Failed(InvalidResource) && db' == db
    else
      match GetResource(db, a.manifest.resourceServerId)
      case None => out == Failed(ResourceNotFound) && db' == db
      case Some(current) => PublishOver(db, db', out, current, a, now)
  }

  predicate RestoreAnswers(db: Db, db': Db, out: Outcome, r: RestoreArgs, now: int) {
    match GetResource(db, r.id)
    case None => out == Failed(ResourceNotFound) && db' == db
    case Some(current) =>
      if current.revision != r.expected then out == Failed(RevisionConflict) && db' == db
      else
        match GetRevision(db, r.id, r.revision)
        case None => out == Failed(ResourceNotFound) && db' == db
        case Some(snapshot) =>
          WriteAnswers(db, db', out, current, Manifest(1, r.id, snapshot.displayName, snapshot.scopes), r.actor,
                       "operator-restore", "revision-" + Decimal(r.revision), now)
  }

  /** The account row as a bootstrap creates it. */
  predicate FreshAccount(row: ResourceServer, b: BootArgs, now: int) {
    && row.id == "account" && row.displayName == b.manifest.displayName && row.audience == b.audience
    && row.publisher == "system://ctech-account" && row.scopes == [] && row.revision == 0 && row.hash == Unset
    && row.updatedAt == now && row.updatedBy == "system://ctech-account"
    && row.sourceRepository == "" && row.sourceRevision == ""
  }

  /** A bootstrap over the account row it found or made. */
  predicate BootOver(db: Db, db': Db, out: Outcome, row: ResourceServer, b: BootArgs, now: int) {
    if row.audience != b.audience || row.publisher != "system://ctech-account" then
      out == Failed(InvalidResource) && db' == db
    else if DropsActive(row, b.manifest) then out == Failed(ScopeRemoval) && db' == db
    else if row.hash == ManifestHash(b.manifest) then out == Stored(row, false) && db' == db
    else WriteAnswers(db, db', out, row, b.manifest, "system://ctech-account", "ctech-account", b.sourceRevision, now)
  }

  ghost predicate BootAnswers(db: Db, db': Db, out: Outcome, b: BootArgs, now: int) {
    match GetResource(db, "account")
    case Some(row) => BootOver(db, db', out, row, b, now)
    case None =>
      exists made :: FreshAccount(made, b, now)
        && BootOver(db.(resources := db.resources["account" := made]), db', out, made, b, now)
  }

  predicate ProvisionAnswers(db: Db, db': Db, out: Outcome, id: string, displayName: string, audience: string,
                             audienceOk: bool, publisher: string, now: int) {
    if !ValidResourceId(id) || id == "identity" || id == "account" || id == "internal"
      || displayName == "" || publisher == "" || !audienceOk then out == Failed(InvalidResource) && db' == db
    else if id in db.resources then out == Failed(ResourceAlreadyExists) && db' == db
    else
      && out == Stored(ResourceServer(id, displayName, audience, publisher, [], 0, Unset, now, "operator", "", ""),
                       true)
      && db' == db.(resources := db.resources[id := out.resource])
  }

  // ---------------------------------------------------------------- the machine, undisturbed

  lemma OneCall(db: Db, pc: Pc, now: int)
    requires !pc.Done?
    ensures RunAlone(db, pc, now) == RunAlone(Step(db, pc, now).0, Step(db, pc, now).1, now)
  {
    StepFinishes(db, pc, now);
  }

  lemma DoneIsDone(db: Db, out: Outcome, now: int)
    ensures RunAlone(db, Done(out), now) == (db, out)
  {}

  lemma WriteRuns(db: Db, pc: Pc, now: int)
    requires (pc.PublishWrite? && pc.boot == None) || pc.RestoreWrite?
    ensures RunAlone(db, pc, now) ==
            match ReconcileResource(db, pc.previous, pc.next)
            case Ok(db') => (db', Stored(pc.next, true))
            case Err(_) => (db, Failed(RevisionConflict))
  {
    hide RunAlone;
    OneCall(db, pc, now);
    var (db', pc') := Step(db, pc, now);
    DoneIsDone(db', pc'.outcome, now);
  }

  lemma PublishRuns(db: Db, a: PublishArgs, now: int)
    ensures var (_, pc) := Step(db, PublishRead(a, None), now);
            RunAlone(db, PublishRead(a, None), now) ==
            if pc.Done? then (db, pc.outcome) else RunAlone(db, pc, now)
  {
    hide RunAlone, ValidManifest, NoActiveRemoval, ManifestHash, Candidate;
    OneCall(db, PublishRead(a, None), now);
    var (_, pc) := Step(db, PublishRead(a, None), now);
    if pc.Done? {
      DoneIsDone(db, pc.outcome, now);
    }
  }

  lemma FromManifestContinues(current: ResourceServer, m: Manifest, actor: string, repo: string, rev: string, now: int)
    ensures Continues(current, FromManifest(current, m, actor, repo, rev, now), m, actor, repo, rev, now)
  {
    hide ManifestHash, TrimSpace;
  }

  lemma DropsActiveMeans(row: ResourceServer, m: Manifest)
    ensures DropsActive(row, m) <==> !NoActiveRemoval(row.scopes, m.scopes)
  {
    if !NoActiveRemoval(row.scopes, m.scopes) {
      var i :| 0 <= i < |row.scopes| && row.scopes[i].status == STATUS_ACTIVE && !Lists(m.scopes, row.scopes[i].scope);
      assert row.scopes[i].status == "active";
    }
  }

  /** The transaction of a publish or a restore over the row it has just read. */
  lemma WriteAlone(db: Db, pc: Pc, m: Manifest, actor: string, repo: string, rev: string, now: int)
    requires (pc.PublishWrite? && pc.boot == None) || pc.RestoreWrite?
    requires GetResource(db, pc.previous.id) == Some(pc.previous)
    requires pc.next == FromManifest(pc.previous, m, actor, repo, rev, now)
    ensures var (db', out) := RunAlone(db, pc, now); WriteAnswers(db, db', out, pc.previous, m, actor, repo, rev, now)
  {
    hide ManifestHash, Canonical, TrimSpace, RunAlone, FromManifest, ValidManifest, NoActiveRemoval, Step;
    FromManifestContinues(pc.previous, m, actor, repo, rev, now);
    WriteRuns(db, pc, now);
  }

  lemma PublishAlone(db: Db, a: PublishArgs, now: int)
    requires Keyed(db)
    ensures var (db', out) := RunAlone(db, PublishRead(a, None), now); PublishAnswers(db, db', out, a, now)
  {
    hide ManifestHash, Canonical, TrimSpace, RunAlone, FromManifest, ValidManifest, NoActiveRemoval, DropsActive,
      WriteAnswers;
    OneCall(db, PublishRead(a, None), now);
    var (_, pc) := Step(db, PublishRead(a, None), now);
    if a.manifest.resourceServerId in db.resources {
      DropsActiveMeans(db.resources[a.manifest.resourceServerId], a.manifest);
    }
    if pc.PublishWrite? {
      WriteAlone(db, pc, a.manifest, a.actor, a.sourceRepository, a.sourceRevision, now);
    } else {
      DoneIsDone(db, pc.outcome, now);
    }
  }

  lemma RestoreAlone(db: Db, r: RestoreArgs, now: int)
    requires Keyed(db)
    ensures var (db', out) := RunAlone(db, RestoreRead(r), now); RestoreAnswers(db, db', out, r, now)
  {
    hide ManifestHash, Canonical, TrimSpace, RunAlone, FromManifest, ValidManifest, NoActiveRemoval, WriteAnswers,
      Decimal;
    OneCall(db, RestoreRead(r), now);
    var (_, pc) := Step(db, RestoreRead(r), now);
    if pc.Done? {
      DoneIsDone(db, pc.outcome, now);
      return;
    }
    OneCall(db, pc, now);
    var (_, pc') := Step(db, pc, now);
    if pc'.Done? {
      DoneIsDone(db, pc'.outcome, now);
      return;
    }
    var row := db.history[(r.id, r.revision)];
    WriteAlone(db, pc', Manifest(MANIFEST_SCHEMA_V1, r.id, row.displayName, row.scopes), r.actor, "operator-restore",
               "revision-" + Decimal(r.revision), now);
  }

  lemma ProvisionAlone(db: Db, id: string, displayName: string, audience: string, audienceOk: bool, publisher: string,
                       now: int)
    ensures var (db', out) :=
              RunAlone(db, ProvisionStart(id, displayName, audience, audienceOk, publisher, now), now);
            ProvisionAnswers(db, db', out, id, displayName, audience, audienceOk, publisher, now)
  {
    hide ValidResourceId, RunAlone;
    var pc := ProvisionStart(id, displayName, audience, audienceOk, publisher, now);
    if pc.Done? {
      DoneIsDone(db, pc.outcome, now);
    } else {
      OneCall(db, pc, now);
      var (db', pc') := Step(db, pc, now);
      DoneIsDone(db', pc'.outcome, now);
    }
  }

  /** A publish inside a bootstrap is a publish followed, after a conflict, by one more look. */
  lemma NestedPublish(db: Db, a: PublishArgs, b: BootArgs, now: int)
    ensures var plain := RunAlone(db, PublishRead(a, None), now);
            RunAlone(db, PublishRead(a, Some(b)), now) ==
            if plain.1 == Failed(RevisionConflict) then RunAlone(plain.0, BootLatest(b), now) else plain
  {
    hide ValidManifest, Canonical, ManifestHash, NoActiveRemoval, RunAlone;
    OneCall(db, PublishRead(a, None), now);
    OneCall(db, PublishRead(a, Some(b)), now);
    var (_, p) := Step(db, PublishRead(a, None), now);
    var (_, q) := Step(db, PublishRead(a, Some(b)), now);
    if p.PublishWrite? {
      OneCall(db, p, now);
      OneCall(db, q, now);
      var (db', p') := Step(db, p, now);
      DoneIsDone(db', p'.outcome, now);
    } else {
      DoneIsDone(db, p.outcome, now);
    }
  }

  lemma BootOverAlone(db: Db, row: ResourceServer, b: BootArgs, now: int)
    requires Keyed(db) && GetResource(db, ACCOUNT_RESOURCE_ID) == Some(row)
    requires ValidManifest(b.manifest) && b.manifest.resourceServerId == ACCOUNT_RESOURCE_ID
    ensures var (db', out) := RunAlone(db, AfterBootRead(row, b), now); BootOver(db, db', out, row, b, now)
  {
    hide ManifestHash, Canonical, TrimSpace, RunAlone, ValidManifest, NoActiveRemoval, DropsActive, WriteAnswers;
    var pc := AfterBootRead(row, b);
    if pc.Done? {
      DoneIsDone(db, pc.outcome, now);
      return;
    }
    NestedPublish(db, pc.args, b, now);
    PublishAlone(db, pc.args, now);
    var plain := RunAlone(db, PublishRead(pc.args, None), now);
    if plain.1 == Failed(RevisionConflict) {
      ConflictLeaves(db, plain.0, row, pc.args, now);
      OneCall(db, BootLatest(b), now);
      DoneIsDone(db, Failed(RevisionConflict), now);
    }
  }

  /** The only conflict a bootstrap meets alone is a history row that is already there. */
  lemma ConflictLeaves(db: Db, db': Db, row: ResourceServer, a: PublishArgs, now: int)
    requires row.publisher == a.actor && row.revision == a.expected
    requires PublishOver(db, db', Failed(RevisionConflict), row, a, now)
    ensures db' == db && row.hash != ManifestHash(a.manifest)
    ensures WriteAnswers(db, db, Failed(RevisionConflict), row, a.manifest, a.actor, a.sourceRepository,
                         a.sourceRevision, now)
  {
    hide ManifestHash, DropsActive, Continues, Replaced;
  }

  lemma BootAlone(db: Db, b: BootArgs, now: int)
    requires Keyed(db)
    requires ValidManifest(b.manifest) && b.manifest.resourceServerId == ACCOUNT_RESOURCE_ID
    ensures var (db', out) := RunAlone(db, BootRead(b), now); BootAnswers(db, db', out, b, now)
  {
    hide ManifestHash, Canonical, RunAlone, ValidManifest, NoActiveRemoval, BootOver, AfterBootRead;
    OneCall(db, BootRead(b), now);
    if ACCOUNT_RESOURCE_ID in db.resources {
      BootOverAlone(db, db.resources[ACCOUNT_RESOURCE_ID], b, now);
    } else {
      OneCall(db, BootCreate(b), now);
      var made := InitialAccount(b, now);
      var db' := db.(resources := db.resources[ACCOUNT_RESOURCE_ID := made]);
      OneCall(db', BootReread(b), now);
      BootOverAlone(db', made, b, now);
      assert FreshAccount(made, b, now);
    }
  }
}
