/**
 * Instances of the account service that start together all bootstrap the same embedded manifest.
 * When they are the account resource's only writers they all succeed, and its revision moves at most
 * once, whatever publishers, restorers and operators do to other resources meanwhile.
 */
module Bootstrap {
  import opened Wrappers
  import opened Manifests
  import opened Store
  import opened Registry
  import opened RegistrySafety

  /** An operation on another resource than the account's. */
  predicate Elsewhere(pc: Pc) {
    match pc
    case PublishRead(a, boot) => boot.None? && a.manifest.resourceServerId != ACCOUNT_RESOURCE_ID
    case PublishWrite(_, boot, _, next) => boot.None? && next.id != ACCOUNT_RESOURCE_ID
    case RestoreRead(r) => r.id != ACCOUNT_RESOURCE_ID
    case RestoreSnapshot(_, current) => current.id != ACCOUNT_RESOURCE_ID
    case RestoreWrite(_, _, next) => next.id != ACCOUNT_RESOURCE_ID
    case ProvisionCreate(initial) => initial.id != ACCOUNT_RESOURCE_ID
    case Done(_) => true
    case _ => false
  }

  /** The clients in boots bootstrap this manifest and audience; all others work on other resources. */
  ghost predicate SoleWriters(acts: seq<Act>, boots: set<int>, m: Manifest, audience: string) {
    forall i :: 0 <= i < |acts| && acts[i].Begin? ==>
      if acts[i].client in boots then acts[i].pc.BootRead? && acts[i].pc.b.manifest == m
        && acts[i].pc.b.audience == audience
      else Elsewhere(acts[i].pc)
  }

  /** The account resource is absent, or it is the system's, has this audience and has no active
      scope the manifest lacks. */
  predicate Suitable(start: Option<ResourceServer>, m: Manifest, audience: string) {
    && ValidManifest(m) && m.resourceServerId == ACCOUNT_RESOURCE_ID
    && (start.Some? ==> AccountRow(start.value, m, audience))
  }

  predicate AccountRow(r: ResourceServer, m: Manifest, audience: string) {
    && r.audience == audience
    && r.publisher == SYSTEM_ACCOUNT_PUBLISHER
    && NoActiveRemoval(r.scopes, m.scopes)
  }

  function BaseRevision(start: Option<ResourceServer>): int {
    if start.Some? then start.value.revision else 0
  }

  predicate Settled(db: Db, m: Manifest) {
    ACCOUNT_RESOURCE_ID in db.resources && db.resources[ACCOUNT_RESOURCE_ID].hash == ManifestHash(m)
  }

  predicate Phase(db: Db, start: Option<ResourceServer>, m: Manifest, audience: string) {
    match GetResource(db, ACCOUNT_RESOURCE_ID)
    case None => start == None
    case Some(r) =>
      && AccountRow(r, m, audience)
      && BaseRevision(start) <= r.revision <= BaseRevision(start) + 1
      && (r.revision == BaseRevision(start) + 1 ==> r.hash == ManifestHash(m))
      && (r.revision == BaseRevision(start) && start.Some? ==> r == start.value)
  }

  predicate Instance(b: BootArgs, m: Manifest, audience: string) {
    b.manifest == m && b.audience == audience
  }

  predicate BootOk(db: Db, pc: Pc, start: Option<ResourceServer>, m: Manifest, audience: string) {
    var present := ACCOUNT_RESOURCE_ID in db.resources;
    match pc
    case BootRead(b) => Instance(b, m, audience)
    case BootCreate(b) => Instance(b, m, audience)
    case BootReread(b) => Instance(b, m, audience) && present
    case PublishRead(a, boot) =>
      && present && boot.Some? && Instance(boot.value, m, audience)
      && pc == BootPublish(boot.value, a.expected)
      && BaseRevision(start) <= a.expected <= db.resources[ACCOUNT_RESOURCE_ID].revision
    case PublishWrite(a, boot, previous, next) =>
      && boot.Some? && Instance(boot.value, m, audience)
      && a.manifest == m
      && previous.revision == BaseRevision(start)
    case BootLatest(b) => Instance(b, m, audience) && Settled(db, m)
    case Done(out) =>
      && Settled(db, m)
      && out.Stored? && out.resource.hash == ManifestHash(m)
      && out.resource.revision <= BaseRevision(start) + 1
    case _ => false
  }

  predicate InOrder(db: Db, c: int, pc: Pc, boots: set<int>, start: Option<ResourceServer>, m: Manifest,
                    audience: string) {
    if c in boots then BootOk(db, pc, start, m, audience) else Elsewhere(pc)
  }

  ghost predicate BootInv(w: World, boots: set<int>, start: Option<ResourceServer>, m: Manifest, audience: string) {
    && Inv(w)
    && Phase(w.db, start, m, audience)
    && forall c :: c in w.clients ==> InOrder(w.db, c, w.clients[c], boots, start, m, audience)
  }

  lemma CandidateSettles(previous: ResourceServer, a: PublishArgs, now: int)
    requires ValidManifest(a.manifest)
    ensures Candidate(previous, a, now).hash == ManifestHash(a.manifest)
    ensures NoActiveRemoval(Candidate(previous, a, now).scopes, a.manifest.scopes)
  {
    hide ValidManifest;
    assert DistinctScopes(a.manifest.scopes) by { ValidIsDistinct(a.manifest); }
    CanonicalIdempotent(a.manifest);
    var c := Canonical(a.manifest).scopes;
    forall i | 0 <= i < |c| && c[i].status == STATUS_ACTIVE ensures Lists(a.manifest.scopes, c[i].scope) {
      CanonicalKeepsNames(a.manifest, c[i].scope);
    }
  }

  lemma ValidIsDistinct(m: Manifest)
    requires ValidManifest(m)
    ensures DistinctScopes(m.scopes)
  {}

  /** A step of one client keeps the phase, and leaves that client in good order. */
  lemma BootStep(w: World, c: int, now: int, start: Option<ResourceServer>, m: Manifest, audience: string)
    requires Suitable(start, m, audience) && Inv(w) && Phase(w.db, start, m, audience)
    requires c in w.clients && BootOk(w.db, w.clients[c], start, m, audience)
    ensures var (db', pc') := Step(w.db, w.clients[c], now);
            && Phase(db', start, m, audience)
            && BootOk(db', pc', start, m, audience)
            && (Settled(w.db, m) ==> Settled(db', m))
            && (ACCOUNT_RESOURCE_ID in w.db.resources ==> ACCOUNT_RESOURCE_ID in db'.resources)
  {
    hide ValidManifest, NoActiveRemoval, ManifestHash, Canonical, TablesOk, WritersOk;
    var pc := w.clients[c];
    assert ClientOk(w.db, pc) && BootOk(w.db, pc, start, m, audience);
    assert NoActiveRemoval([], m.scopes) by { EmptyRemovesNothing(m.scopes); }
    if pc.PublishWrite? {
      CandidateSettles(pc.previous, pc.args, pc.next.updatedAt);
      RevisionDecides(w, c);
    }
  }

  lemma EmptyRemovesNothing(next: seq<ScopeDefinition>)
    ensures NoActiveRemoval([], next)
  {}

  lemma RevisionDecides(w: World, c: int)
    requires Inv(w) && c in w.clients && w.clients[c].PublishWrite?
    ensures var pc := w.clients[c];
            && pc.next.id in w.db.resources
            && (CanReconcile(w.db, pc.previous, pc.next) <==>
                w.db.resources[pc.next.id].revision == pc.previous.revision)
  {
    hide ValidManifest, NoActiveRemoval, Canonical, ManifestHash, ContentOk, WritersOk;
    assert ClientOk(w.db, w.clients[c]);
  }

  lemma BootFrame(db: Db, db': Db, pc: Pc, start: Option<ResourceServer>, m: Manifest, audience: string)
    requires BootOk(db, pc, start, m, audience)
    requires Grows(db, db') && (Settled(db, m) ==> Settled(db', m))
    ensures BootOk(db', pc, start, m, audience)
  {
    hide ManifestHash;
  }

  /** A step of any other client leaves the account resource alone. */
  lemma ElsewhereStep(db: Db, pc: Pc, now: int)
    requires TablesOk(db) && Elsewhere(pc)
    ensures var (db', pc') := Step(db, pc, now);
            Elsewhere(pc') && GetResource(db', ACCOUNT_RESOURCE_ID) == GetResource(db, ACCOUNT_RESOURCE_ID)
  {
    hide ValidManifest, NoActiveRemoval, ManifestHash, Canonical, TablesOk;
    if pc.PublishRead? && pc.args.manifest.resourceServerId in db.resources {
      CurrentIsRead(db, pc.args.manifest.resourceServerId);
    } else if pc.RestoreRead? && pc.restore.id in db.resources {
      CurrentIsRead(db, pc.restore.id);
    }
  }

  lemma SameAccount(db: Db, db': Db, start: Option<ResourceServer>, m: Manifest, audience: string)
    requires GetResource(db', ACCOUNT_RESOURCE_ID) == GetResource(db, ACCOUNT_RESOURCE_ID)
    ensures Phase(db, start, m, audience) ==> Phase(db', start, m, audience)
    ensures Settled(db, m) ==> Settled(db', m)
  {
    hide ManifestHash, NoActiveRemoval;
  }

  lemma AdvanceInOrder(w: World, c: int, now: int, boots: set<int>, start: Option<ResourceServer>, m: Manifest,
                       audience: string)
    requires Suitable(start, m, audience) && BootInv(w, boots, start, m, audience) && c in w.clients
    ensures var (db', pc') := Step(w.db, w.clients[c], now);
            && Phase(db', start, m, audience) && (Settled(w.db, m) ==> Settled(db', m))
            && InOrder(db', c, pc', boots, start, m, audience)
  {
    hide Step, Phase, Settled, BootOk, Elsewhere, WritersOk, ClientOk, TablesOk, Suitable;
    assert InOrder(w.db, c, w.clients[c], boots, start, m, audience);
    if c in boots {
      BootStep(w, c, now, start, m, audience);
    } else {
      ElsewhereStep(w.db, w.clients[c], now);
      SameAccount(w.db, Step(w.db, w.clients[c], now).0, start, m, audience);
    }
  }

  lemma OthersInOrder(db: Db, db': Db, d: int, pc: Pc, boots: set<int>, start: Option<ResourceServer>, m: Manifest,
                      audience: string)
    requires InOrder(db, d, pc, boots, start, m, audience) && Grows(db, db') && (Settled(db, m) ==> Settled(db', m))
    ensures InOrder(db', d, pc, boots, start, m, audience)
  {
    hide Grows, BootOk, Settled;
    if d in boots {
      BootFrame(db, db', pc, start, m, audience);
    }
  }

  lemma {:induction false} BootRun(w: World, acts: seq<Act>, boots: set<int>, start: Option<ResourceServer>,
                                   m: Manifest, audience: string)
    requires Suitable(start, m, audience) && SoleWriters(acts, boots, m, audience)
    requires BootInv(w, boots, start, m, audience)
    ensures BootInv(Exec(w, acts), boots, start, m, audience)
  {
    hide ValidManifest, NoActiveRemoval, ManifestHash, Canonical, TablesOk, WritersOk, Step, ClientOk, InOrder, Phase,
      Grows, Suitable, Settled;
    if acts != [] {
      var before := acts[..|acts| - 1];
      BootRun(w, before, boots, start, m, audience);
      var w1 := Exec(w, before);
      var act := acts[|acts| - 1];
      NextKeeps(w1, act);
      match act {
        case Begin(c, pc) =>
          BootBegins(w1.db, c, pc, boots, start, m, audience);
        case Advance(c, now) =>
          if c in w1.clients {
            AdvanceInOrder(w1, c, now, boots, start, m, audience);
            forall d | d in w1.clients ensures InOrder(Next(w1, act).db, d, w1.clients[d], boots, start, m, audience) {
              OthersInOrder(w1.db, Next(w1, act).db, d, w1.clients[d], boots, start, m, audience);
            }
          }
      }
    }
  }

  lemma BootBegins(db: Db, c: int, pc: Pc, boots: set<int>, start: Option<ResourceServer>, m: Manifest,
                   audience: string)
    requires if c in boots then pc.BootRead? && pc.b.manifest == m && pc.b.audience == audience else Elsewhere(pc)
    ensures InOrder(db, c, pc, boots, start, m, audience)
  {}

  /** From any registry state with a suitable account row, or none, and with any clients at work on
      other resources: however many bootstraps run and however all of them interleave, no bootstrap
      that returns fails, what they return and what is stored is this manifest, and the revision has
      moved by at most one. */
  lemma BootstrapConverges(w: World, acts: seq<Act>, boots: set<int>, m: Manifest, audience: string)
    requires Inv(w) && forall c :: c in w.clients ==> c !in boots && Elsewhere(w.clients[c])
    requires Suitable(GetResource(w.db, ACCOUNT_RESOURCE_ID), m, audience)
    requires SoleWriters(acts, boots, m, audience)
    ensures var end := Exec(w, acts);
            var base := BaseRevision(GetResource(w.db, ACCOUNT_RESOURCE_ID));
            && (ACCOUNT_RESOURCE_ID in end.db.resources ==>
                base <= end.db.resources[ACCOUNT_RESOURCE_ID].revision <= base + 1)
            && (forall c :: c in end.clients && c in boots && end.clients[c].Done? ==>
                  && end.clients[c].outcome.Stored?
                  && end.clients[c].outcome.resource.hash == ManifestHash(m)
                  && ACCOUNT_RESOURCE_ID in end.db.resources
                  && end.db.resources[ACCOUNT_RESOURCE_ID].hash == ManifestHash(m)
                  && end.db.resources[ACCOUNT_RESOURCE_ID].scopes == Canonical(m).scopes)
  {
    hide ValidManifest, NoActiveRemoval, Canonical, WritersOk, Step, ClientOk, Exec, Elsewhere;
    var start := GetResource(w.db, ACCOUNT_RESOURCE_ID);
    BootRun(w, acts, boots, start, m, audience);
    var end := Exec(w, acts);
    forall c | c in end.clients && c in boots && end.clients[c].Done?
      ensures ACCOUNT_RESOURCE_ID in end.db.resources
      ensures end.db.resources[ACCOUNT_RESOURCE_ID].scopes == Canonical(m).scopes
    {
      assert InOrder(end.db, c, end.clients[c], boots, start, m, audience);
      HashGivesContent(end.db, ACCOUNT_RESOURCE_ID, m);
    }
  }

  /** The stored hash pins the stored scopes. */
  lemma HashGivesContent(db: Db, id: string, m: Manifest)
    requires TablesOk(db) && id in db.resources
    requires db.resources[id].hash == ManifestHash(m)
    ensures db.resources[id].scopes == Canonical(m).scopes
  {
    hide ValidManifest, Canonical;
    assert ResourceOk(db, id);
    if db.resources[id].revision >= 1 {
      assert RowOk(db, id, db.resources[id].revision);
    }
  }

  /** Every bootstrap is done after at most six of its own database calls. */
  lemma BootstrapIsShort(db: Db, pc: Pc, now: int)
    ensures CallsLeft(pc) <= 6
    ensures pc.Done? || CallsLeft(Step(db, pc, now).1) < CallsLeft(pc)
  {
    if !pc.Done? {
      StepFinishes(db, pc, now);
    }
  }
}
