/**
 * The migration as it runs: lookups, conditional writes and counters. writesLeft is how many more
 * writes happen before the process dies; the organizations it is given are already planned.
 */
module MigrationApply {
  import opened Wrappers
  import opened MigrationPlan
  import opened MigrationRun
  import opened MigrationResume
  import Sorting
  import Strings
  import TaxId

  datatype Failure = Died | TaxIdIsTaken

  class Repository {
    var db: Db
    var writesLeft: nat

    constructor (db: Db, writesLeft: nat)
      ensures this.db == db && this.writesLeft == writesLeft
    {
      this.db, this.writesLeft := db, writesLeft;
    }

    method OrganizationBySource(ref: string) returns (r: Option<nat>)
      ensures r == if ref in db.orgIndex then Some(db.orgIndex[ref]) else None
    {
      r := if ref in db.orgIndex then Some(db.orgIndex[ref]) else None;
    }

    method CompanyBySource(ref: string) returns (r: Option<nat>)
      ensures r == if ref in db.companyIndex then Some(db.companyIndex[ref].1) else None
    {
      r := if ref in db.companyIndex then Some(db.companyIndex[ref].1) else None;
    }

    /** The generated id, or None when the process died before the write. */
    method CreateWithOwner(p: Plan) returns (id: Option<nat>)
      modifies this
      ensures old(writesLeft) == 0 ==> id.None? && db == old(db) && writesLeft == 0
      ensures old(writesLeft) > 0 ==>
                id == Some(old(db).nextId) && db == MigrationRun.CreateWithOwner(old(db), p)
                  && writesLeft == old(writesLeft) - 1
      ensures id.Some? ==>
                db == old(db).(
                  orgs := old(db).orgs[id.value :=
                    Organization(p.org.displayName, p.org.owner, Some(p.org.sourceRef), p.org.createdAt)],
                  members := old(db).members[(id.value, p.org.owner) :=
                    StoredMember(p.org.ownerName, Owner, "", p.org.createdAt)],
                  orgIndex := old(db).orgIndex[p.org.sourceRef := id.value],
                  nextId := id.value + 1)
    {
      if writesLeft == 0 {
        return None;
      }
      writesLeft := writesLeft - 1;
      id := Some(db.nextId);
      db := MigrationRun.CreateWithOwner(db, p);
    }

    /** Whether the membership was written; false means somebody is already a member. */
    method PutMembership(org: nat, m: Membership) returns (written: Option<bool>)
      modifies this
      ensures old(writesLeft) == 0 ==> written.None? && db == old(db) && writesLeft == 0
      ensures old(writesLeft) > 0 ==>
                written == Some((org, m.userId) !in old(db).members) && db == PutMember(old(db), org, m)
                  && writesLeft == old(writesLeft) - 1
      ensures written == Some(false) ==> db == old(db)
      ensures written == Some(true) ==>
                db == old(db).(members := old(db).members[(org, m.userId) :=
                                 StoredMember(m.name, m.role, m.invitedBy, m.createdAt)])
    {
      if writesLeft == 0 {
        return None;
      }
      writesLeft := writesLeft - 1;
      written := Some((org, m.userId) !in db.members);
      db := PutMember(db, org, m);
    }

    method CreateCompany(org: nat, p: Plan) returns (id: Result<nat, Failure>)
      modifies this
      ensures old(writesLeft) == 0 ==> id == Err(Died) && db == old(db) && writesLeft == 0
      ensures old(writesLeft) > 0 ==> writesLeft == old(writesLeft) - 1
      ensures old(writesLeft) > 0 && TaxIdTaken(old(db), org, p) ==> id == Err(TaxIdIsTaken) && db == old(db)
      ensures old(writesLeft) > 0 && !TaxIdTaken(old(db), org, p) ==>
                id == Ok(old(db).nextId) && db == MigrationRun.CreateCompany(old(db), org, p)
      ensures id == Err(TaxIdIsTaken) ==> (org, p.company.taxId) in old(db).taxLocks
      ensures id.Ok? ==>
                && (org, p.company.taxId) !in old(db).taxLocks
                && db == old(db).(
                     companies := old(db).companies[(org, id.value) :=
                       Company(p.company.taxId, p.company.kind, p.company.legalName, Some(p.org.sourceRef),
                               p.company.createdAt)],
                     taxLocks := old(db).taxLocks[(org, p.company.taxId) := id.value],
                     companyIndex := old(db).companyIndex[p.org.sourceRef := (org, id.value)],
                     nextId := id.value + 1)
    {
      if writesLeft == 0 {
        return Err(Died);
      }
      writesLeft := writesLeft - 1;
      if TaxIdTaken(db, org, p) {
        return Err(TaxIdIsTaken);
      }
      id := Ok(db.nextId);
      db := MigrationRun.CreateCompany(db, org, p);
    }

    method PutActor(org: nat, company: nat, a: Actor) returns (written: bool)
      modifies this
      ensures !written ==> old(writesLeft) == 0 && db == old(db) && writesLeft == 0
      ensures written ==>
                old(writesLeft) > 0 && db == MigrationRun.PutActor(old(db), org, company, a)
                  && writesLeft == old(writesLeft) - 1
      ensures written ==>
                db == old(db).(actors := old(db).actors[(org, company, a.userId) :=
                                 Edge(a.name, a.grantedBy, a.createdAt)])
    {
      if writesLeft == 0 {
        return false;
      }
      writesLeft := writesLeft - 1;
      db := MigrationRun.PutActor(db, org, company, a);
      written := true;
    }
  }

  datatype ApplyResult = ApplyResult(id: nat, createdOrganization: bool, createdMemberships: nat,
                                     existingMemberships: nat)

  datatype CompanyApplyResult = CompanyApplyResult(id: nat, createdCompany: bool, createdActors: nat)

  lemma RunSnoc(db: Db, ws: seq<Write>, w: Write)
    ensures Run(db, ws + [w]) == Do(Run(db, ws), w)
  {
    assert (ws + [w])[..|ws|] == ws;
  }

  lemma RunNone(db: Db)
    ensures Run(db, []) == db
  {}

  /** What is left after some of a list of writes: all of them, or those before one that failed. */
  ghost predicate Partly(before: Db, after: Db, ws: seq<Write>) {
    exists k :: 0 <= k <= |ws| && after == Run(before, ws[..k])
  }

  lemma PartlyAt(before: Db, after: Db, ws: seq<Write>, k: nat)
    requires k <= |ws| && after == Run(before, ws[..k])
    ensures Partly(before, after, ws)
  {}

  /** apply finds or creates the organization and then adds each planned member who is absent. */
  method Apply(repo: Repository, p: Plan) returns (r: Result<ApplyResult, Failure>)
    modifies repo
    ensures Partly(old(repo.db), repo.db, OrgWrites(p))
    ensures r.Err? ==> r.error == Died && repo.writesLeft == 0 && old(repo.writesLeft) < |OrgWrites(p)|
    ensures r.Ok? ==> repo.writesLeft >= old(repo.writesLeft) - |OrgWrites(p)|
    ensures r.Ok? ==>
              repo.db == Run(old(repo.db), OrgWrites(p)) && p.Ref() in repo.db.orgIndex
                && repo.db.orgIndex[p.Ref()] == r.value.id
    ensures r.Ok? ==> (r.value.createdOrganization <==> p.Ref() !in old(repo.db).orgIndex)
    ensures r.Ok? ==> r.value.createdMemberships + r.value.existingMemberships == |p.org.members|
    ensures r.Ok? && Valid(old(repo.db)) ==>
              |repo.db.members| == |old(repo.db).members| + r.value.createdMemberships
                                   + (if r.value.createdOrganization then 1 else 0)
  {
    hide PutMember, Run, Valid;
    var ref := p.Ref();
    var before, ws := repo.db, OrgWrites(p);
    RunNone(before);
    var created := 0;
    var existing := 0;
    var found := repo.OrganizationBySource(ref);
    var id;
    var isNew := found.None?;
    if found.Some? {
      id := found.value;
    } else {
      var made := repo.CreateWithOwner(p);
      if made.None? {
        assert ws[..0] == [];
        PartlyAt(before, repo.db, ws, 0);
        return Err(Died);
      }
      id := made.value;
      OwnerRowIsNew(before, p);
    }
    ghost var start := repo.db;
    RunSnoc(before, [], EnsureOrg(p));
    assert ws[..1] == [] + [EnsureOrg(p)];
    for i := 0 to |p.org.members|
      invariant repo.db == Run(before, ws[..i + 1])
      invariant ref in repo.db.orgIndex && repo.db.orgIndex[ref] == id
      invariant created + existing == i
      invariant |repo.db.members| == |start.members| + created
      invariant repo.writesLeft >= old(repo.writesLeft) - (i + 1)
    {
      var db := repo.db;
      RunSnoc(before, ws[..i + 1], ws[i + 1]);
      assert ws[..i + 2] == ws[..i + 1] + [ws[i + 1]];
      var written := repo.PutMembership(id, p.org.members[i]);
      if written.None? {
        PartlyAt(before, repo.db, ws, i + 1);
        return Err(Died);
      }
      MemberIndex(db, id, p.org.members[i]);
      if written.value {
        created := created + 1;
      } else {
        existing := existing + 1;
      }
    }
    assert ws[..|p.org.members| + 1] == ws;
    PartlyAt(before, repo.db, ws, |ws|);
    r := Ok(ApplyResult(id, isNew, created, existing));
  }

  lemma OwnerRowIsNew(db: Db, p: Plan)
    ensures Valid(db) ==> |MigrationRun.CreateWithOwner(db, p).members| == |db.members| + 1
  {
    if Valid(db) {
      assert (db.nextId, p.org.owner) !in db.members;
    }
  }

  lemma MemberIndex(db: Db, id: nat, m: Membership)
    ensures PutMember(db, id, m).orgIndex == db.orgIndex
    ensures |PutMember(db, id, m).members| == |db.members| + if (id, m.userId) in db.members then 0 else 1
  {}

  /** applyCompany finds or creates the company and then grants every planned actor. */
  method ApplyCompany(repo: Repository, org: nat, p: Plan) returns (r: Result<CompanyApplyResult, Failure>)
    requires p.Ref() in repo.db.orgIndex && repo.db.orgIndex[p.Ref()] == org
    modifies repo
    ensures Partly(old(repo.db), repo.db, CompanyWrites(p))
    ensures r == Err(Died) ==> repo.writesLeft == 0 && old(repo.writesLeft) < |CompanyWrites(p)|
    ensures r.Ok? ==> repo.writesLeft >= old(repo.writesLeft) - |CompanyWrites(p)|
    ensures r.Ok? ==> p.Ref() in old(repo.db).companyIndex || !TaxIdTaken(old(repo.db), org, p)
    ensures r == Err(TaxIdIsTaken) ==>
              p.Ref() !in old(repo.db).companyIndex && TaxIdTaken(old(repo.db), org, p) && repo.db == old(repo.db)
    ensures r.Ok? ==>
              repo.db == Run(old(repo.db), CompanyWrites(p)) && p.Ref() in repo.db.companyIndex
                && repo.db.companyIndex[p.Ref()].1 == r.value.id
    ensures r.Ok? ==>
              (r.value.createdCompany <==> p.Ref() !in old(repo.db).companyIndex)
                && r.value.createdActors == |p.company.actors|
  {
    hide PutActor, Run, Do, CreateCompany, TaxIdTaken;
    var ref := p.Ref();
    var before, ws := repo.db, CompanyWrites(p);
    RunNone(before);
    assert ws[..0] == [];
    var found := repo.CompanyBySource(ref);
    var id;
    var isNew := found.None?;
    if found.Some? {
      id := found.value;
    } else {
      var made := repo.CreateCompany(org, p);
      if made.Err? {
        PartlyAt(before, repo.db, ws, 0);
        return Err(made.error);
      }
      id := made.value;
    }
    CompanyEnsured(before, p, org);
    RunSnoc(before, [], EnsureCompany(p));
    assert ws[..1] == [] + [EnsureCompany(p)];
    for i := 0 to |p.company.actors|
      invariant repo.db == Run(before, ws[..i + 1])
      invariant ref in repo.db.orgIndex && repo.db.orgIndex[ref] == org
      invariant ref in repo.db.companyIndex && repo.db.companyIndex[ref].1 == id
      invariant repo.writesLeft >= old(repo.writesLeft) - (i + 1)
    {
      var db := repo.db;
      RunSnoc(before, ws[..i + 1], ws[i + 1]);
      assert ws[..i + 2] == ws[..i + 1] + [ws[i + 1]];
      ActorEnsured(db, ref, p.company.actors[i]);
      var written := repo.PutActor(org, id, p.company.actors[i]);
      if !written {
        PartlyAt(before, repo.db, ws, i + 1);
        return Err(Died);
      }
      ActorIndex(db, org, id, p.company.actors[i]);
    }
    assert ws[..|p.company.actors| + 1] == ws;
    PartlyAt(before, repo.db, ws, |ws|);
    r := Ok(CompanyApplyResult(id, isNew, |p.company.actors|));
  }

  lemma CompanyEnsured(db: Db, p: Plan, org: nat)
    requires p.Ref() in db.orgIndex && db.orgIndex[p.Ref()] == org
    ensures p.Ref() in db.companyIndex ==> Do(db, EnsureCompany(p)) == db
    ensures p.Ref() !in db.companyIndex && !TaxIdTaken(db, org, p) ==>
              Do(db, EnsureCompany(p)) == CreateCompany(db, org, p)
    ensures var t := CreateCompany(db, org, p);
            t.orgIndex == db.orgIndex && p.Ref() in t.companyIndex && t.companyIndex[p.Ref()] == (org, db.nextId)
  {}

  lemma ActorEnsured(db: Db, ref: string, a: Actor)
    requires ref in db.orgIndex && ref in db.companyIndex
    ensures Do(db, EnsureActor(ref, a)) == MigrationRun.PutActor(db, db.orgIndex[ref], db.companyIndex[ref].1, a)
  {}

  lemma ActorIndex(db: Db, org: nat, company: nat, a: Actor)
    ensures MigrationRun.PutActor(db, org, company, a).orgIndex == db.orgIndex
    ensures MigrationRun.PutActor(db, org, company, a).companyIndex == db.companyIndex
  {}

  // ---------------------------------------------------------------- the whole run

  /** What the run writes for one source organization, if neither half needs a human. */
  ghost function PlanFor(org: DfeOrg, rows: seq<DfeMember>, users: set<string>, now: int): Option<Plan> {
    var created := Or(org.createdAt, now);
    var document := TaxId.Normalize(LegacyDocument(org.pk));
    if Clear(org, rows, users, created) && document.Some? then
      var d := Decision(org.pk, Strings.TrimSpace(org.name), Strings.TrimSpace(org.ownerUserId), created,
                        LastName(OwnersOf(rows, users, created)), true, [], [],
                          SortedMembers(MembersOf(rows, users, created)));
      Some(Plan(d, CompanyDecision(org.pk, document.value.0, Some(document.value.1), d.displayName, created, true, [],
                                   PlannedActors(rows, d))))
    else None
  }

  const MAX_ROWS := 500

  function SourceRows(rows: map<string, seq<DfeMember>>, pk: string): seq<DfeMember> {
    if pk in rows then rows[pk] else []
  }

  /** The rows of one organization as they are read: one page, and no further one. */
  function RowsOf(rows: map<string, seq<DfeMember>>, pk: string): seq<DfeMember> {
    var all := SourceRows(rows, pk);
    if |all| > MAX_ROWS then all[..MAX_ROWS] else all
  }

  ghost function Plans(orgs: seq<DfeOrg>, rows: map<string, seq<DfeMember>>, users: set<string>, now: int): seq<Plan> {
    if orgs == [] then []
    else
      var last := orgs[|orgs| - 1];
      var plan := PlanFor(last, RowsOf(rows, last.pk), users, now);
      Plans(orgs[..|orgs| - 1], rows, users, now) + (if plan.Some? then [plan.value] else [])
  }

  lemma {:induction false} WritesGrow(plans: seq<Plan>, more: seq<Plan>)
    ensures Writes(plans) <= Writes(plans + more)
  {
    hide OrgWrites, CompanyWrites;
    if more == [] {
      assert plans + more == plans;
    } else {
      WritesGrow(plans, more[..|more| - 1]);
      assert (plans + more)[..|plans + more| - 1] == plans + more[..|more| - 1];
    }
  }

  lemma {:induction false} PlansGrow(orgs: seq<DfeOrg>, i: nat, rows: map<string, seq<DfeMember>>, users: set<string>,
                                     now: int)
    requires i <= |orgs|
    ensures Plans(orgs[..i], rows, users, now) <= Plans(orgs, rows, users, now)
  {
    hide PlanFor;
    if i < |orgs| {
      PlansGrow(orgs[..|orgs| - 1], i, rows, users, now);
      assert orgs[..|orgs| - 1][..i] == orgs[..i];
    } else {
      assert orgs[..i] == orgs;
    }
  }

  lemma OneMorePlan(orgs: seq<DfeOrg>, i: nat, rows: map<string, seq<DfeMember>>, users: set<string>, now: int)
    requires i < |orgs|
    ensures var plan := PlanFor(orgs[i], RowsOf(rows, orgs[i].pk), users, now);
            Plans(orgs[..i + 1], rows, users, now) ==
              Plans(orgs[..i], rows, users, now) + (if plan.Some? then [plan.value] else [])
  {
    hide PlanFor;
    assert orgs[..i + 1][..i] == orgs[..i];
  }

  lemma PrefixInside(done: seq<Write>, more: seq<Write>, all: seq<Write>, k: nat)
    requires k <= |more| && done + more <= all
    ensures |done| + k <= |all| && all[..|done| + k] == done + more[..k]
  {
    assert (done + more)[..|done| + k] == done + more[..k];
  }

  /** A part of a prefix of the writes is a part of the writes. */
  lemma PartlyGrows(before: Db, after: Db, done: seq<Write>, more: seq<Write>, all: seq<Write>, middle: Db)
    requires middle == Run(before, done) && Partly(middle, after, more) && done + more <= all
    ensures Partly(before, after, all)
  {
    hide Run;
    var k :| 0 <= k <= |more| && after == Run(middle, more[..k]);
    RunAppend(before, done, more[..k]);
    PrefixInside(done, more, all, k);
    hide Partly;
    PartlyAt(before, after, all, |done| + k);
  }

  lemma {:induction false} RunAppend(db: Db, a: seq<Write>, b: seq<Write>)
    ensures Run(db, a + b) == Run(Run(db, a), b)
  {
    hide Do;
    if b == [] {
      assert a + b == a;
    } else {
      RunAppend(db, a, b[..|b| - 1]);
      assert (a + b)[..|a + b| - 1] == a + b[..|b| - 1];
    }
  }

  datatype Outcome = Completed(created: nat, alreadyThere: nat,
                               needHuman: nat) | NoOrganizations | Failed(failure: Failure)

  /** Both halves of one plan; true when the organization is new. It fails when the writes run out, or when the
      plan is blocked. */
  method ApplyBoth(repo: Repository, p: Plan) returns (r: Result<bool, Failure>)
    modifies repo
    ensures r.Ok? ==> repo.db == Run(old(repo.db), OrgWrites(p) + CompanyWrites(p))
    ensures r.Ok? ==> (r.value <==> p.Ref() !in old(repo.db).orgIndex)
    ensures r.Ok? && Valid(old(repo.db)) ==>
              |repo.db.orgs| == |old(repo.db).orgs| + if r.value then 1 else 0
    ensures r.Err? ==> Partly(old(repo.db), repo.db, OrgWrites(p) + CompanyWrites(p))
    ensures r == Err(Died) ==> repo.writesLeft == 0 && old(repo.writesLeft) < |OrgWrites(p) + CompanyWrites(p)|
    ensures r.Ok? ==> repo.writesLeft >= old(repo.writesLeft) - |OrgWrites(p) + CompanyWrites(p)|
    ensures Valid(old(repo.db)) ==>
              (r.Ok? ==> !Blocked(old(repo.db), p)) && (r == Err(TaxIdIsTaken) ==> Blocked(old(repo.db), p))
  {
    hide Run, OrgWrites, CompanyWrites, Partly, TaxIdTaken, Valid;
    var before := repo.db;
    RunNone(before);
    var res := Apply(repo, p);
    if res.Err? {
      PartlyGrows(before, repo.db, [], OrgWrites(p), OrgWrites(p) + CompanyWrites(p), before);
      return Err(res.error);
    }
    ghost var middle := repo.db;
    if Valid(before) {
      BlockedByOwnWrites(before, p);
    }
    var cres := ApplyCompany(repo, res.value.id, p);
    if cres.Err? {
      PartlyGrows(before, repo.db, OrgWrites(p), CompanyWrites(p), OrgWrites(p) + CompanyWrites(p), middle);
      return Err(cres.error);
    }
    RunAppend(before, OrgWrites(p), CompanyWrites(p));
    if Valid(before) {
      OneMoreOrganization(before, p);
    }
    r := Ok(res.value.createdOrganization);
  }

  lemma {:induction false} OrganizationsStay(db: Db, ws: seq<Write>)
    requires forall w :: w in ws ==> !w.EnsureOrg?
    ensures Run(db, ws).orgs == db.orgs
  {
    if ws != [] {
      OrganizationsStay(db, ws[..|ws| - 1]);
    }
  }

  lemma OneMoreOrganization(db: Db, p: Plan)
    requires Valid(db)
    ensures |Run(db, OrgWrites(p) + CompanyWrites(p)).orgs| ==
            |db.orgs| + if p.Ref() in db.orgIndex then 0 else 1
  {
    hide Run, Do;
    var ws := OrgWrites(p) + CompanyWrites(p);
    var rest := ws[1..];
    assert ws == [] + [EnsureOrg(p)] + rest;
    RunAppend(db, [] + [EnsureOrg(p)], rest);
    RunSnoc(db, [], EnsureOrg(p));
    RunNone(db);
    OrganizationsStay(Do(db, EnsureOrg(p)), rest);
    EnsureOrgAdds(db, p);
  }

  lemma EnsureOrgAdds(db: Db, p: Plan)
    requires Valid(db)
    ensures |Do(db, EnsureOrg(p)).orgs| == |db.orgs| + if p.Ref() in db.orgIndex then 0 else 1
  {
    assert db.nextId !in db.orgs;
  }

  ghost predicate SomeBlocked(db: Db, plans: seq<Plan>) {
    exists j :: 0 <= j < |plans| && Blocked(db, plans[j])
  }

  /** Both halves of the plan for one organization; ready when neither needs a human. */
  method PlanBoth(org: DfeOrg, rows: seq<DfeMember>, users: set<string>, now: int) returns (ready: bool, p: Plan)
    ensures ready <==> PlanFor(org, rows, users, now).Some?
    ensures ready ==> PlanFor(org, rows, users, now) == Some(p)
  {
    hide PlanFor, Strings.TrimSpace, TaxId.Normalize, Clear, PlannedActors, LegacyDocument, SortedMembers, MembersOf,
      OwnersOf, LastName, Acts, HasRow;
    var d := PlanOrg(org, rows, users, now);
    var cd := PlanCompany(org, rows, d);
    BothHalves(org, rows, users, now, d, cd);
    ready := d.create && cd.create;
    p := Plan(d.(notes := []), cd);
  }

  method Migrate(repo: Repository, orgs: seq<DfeOrg>, rows: map<string, seq<DfeMember>>, users: set<string>, now: int,
                 apply: bool)
    returns (o: Outcome)
    modifies repo
    ensures !apply ==> repo.db == old(repo.db) && !o.Failed?
    ensures o.NoOrganizations? <==> orgs == []
    ensures o.Completed? && apply ==> repo.db == Run(old(repo.db), Writes(Plans(orgs, rows, users, now)))
    ensures o.Completed? ==>
              o.created + o.alreadyThere == |Plans(orgs, rows, users, now)|
                && o.needHuman == |orgs| - |Plans(orgs, rows, users, now)|
    ensures o.Completed? && !apply ==> o.alreadyThere == 0
    ensures o.Completed? && apply && Valid(old(repo.db)) ==> |repo.db.orgs| == |old(repo.db).orgs| + o.created
    ensures o.Failed? ==> Partly(old(repo.db), repo.db, Writes(Plans(orgs, rows, users, now)))
    ensures o == Failed(Died) ==> repo.writesLeft == 0 && old(repo.writesLeft) < |Writes(Plans(orgs, rows, users, now))|
    ensures Valid(old(repo.db)) && DistinctKeys(orgs) ==>
              && (o.Completed? && apply ==> !SomeBlocked(old(repo.db), Plans(orgs, rows, users, now)))
              && (o == Failed(TaxIdIsTaken) ==> SomeBlocked(old(repo.db), Plans(orgs, rows, users, now)))
  {
    hide Run, PlanFor, OrgWrites, CompanyWrites, Partly, Valid, DistinctKeys, Blocked;
    var before := repo.db;
    if |orgs| == 0 {
      return NoOrganizations;
    }
    var created, alreadyThere, needHuman := 0, 0, 0;
    RunNone(before);
    assert Plans(orgs[..0], rows, users, now) == [] && Writes([]) == [];
    hide Plans, Writes, Do, RowsOf;
    for i := 0 to |orgs|
      invariant created + alreadyThere == |Plans(orgs[..i], rows, users, now)|
      invariant needHuman == i - |Plans(orgs[..i], rows, users, now)|
      invariant !apply ==> repo.db == before && alreadyThere == 0
      invariant apply && Valid(before) ==> Valid(repo.db) && |repo.db.orgs| == |before.orgs| + created
      invariant apply ==> repo.db == Run(before, Writes(Plans(orgs[..i], rows, users, now)))
      invariant apply ==> repo.writesLeft >= old(repo.writesLeft) - |Writes(Plans(orgs[..i], rows, users, now))|
      invariant apply && Valid(before) && DistinctKeys(orgs) ==>
                  !SomeBlocked(before, Plans(orgs[..i], rows, users, now))
    {
      ghost var done := Plans(orgs[..i], rows, users, now);
      OneMorePlan(orgs, i, rows, users, now);
      var org := orgs[i];
      var members := RowsOf(rows, org.pk);
      var ready, p := PlanBoth(org, members, users, now);
      if !ready {
        needHuman := needHuman + 1;
        assert Plans(orgs[..i + 1], rows, users, now) == done;
        continue;
      }
      if !apply {
        created := created + 1;
        continue;
      }
      AllWrites(orgs, i, rows, users, now, p);
      ghost var middle := repo.db;
      if Valid(before) && DistinctKeys(orgs) {
        BlockedAt(before, orgs, i, rows, users, now, p);
      }
      var res := ApplyBoth(repo, p);
      if res.Err? {
        PartlyGrows(before, repo.db, Writes(done), OrgWrites(p) + CompanyWrites(p),
                    Writes(Plans(orgs, rows, users, now)), middle);
        return Failed(res.error);
      }
      RunAppend(before, Writes(done), OrgWrites(p) + CompanyWrites(p));
      if Valid(before) {
        RunKeepsValid(middle, OrgWrites(p) + CompanyWrites(p));
      }
      if res.value {
        created := created + 1;
      } else {
        alreadyThere := alreadyThere + 1;
      }
    }
    assert orgs[..|orgs|] == orgs;
    o := Completed(created, alreadyThere, needHuman);
  }

  /** A writing run that does not die: it completes exactly when no planned organization is there without its
      company while the company's tax id is taken inside it. */
  method MigrateAlive(repo: Repository, orgs: seq<DfeOrg>, rows: map<string, seq<DfeMember>>, users: set<string>,
                      now: int)
    returns (o: Outcome)
    requires Valid(repo.db) && DistinctKeys(orgs) && orgs != []
    requires repo.writesLeft >= |Writes(Plans(orgs, rows, users, now))|
    modifies repo
    ensures o.Completed? <==> !SomeBlocked(old(repo.db), Plans(orgs, rows, users, now))
    ensures o.Completed? ==> repo.db == Run(old(repo.db), Writes(Plans(orgs, rows, users, now)))
    ensures !o.Completed? ==> o == Failed(TaxIdIsTaken)
  {
    hide Run, Writes, Plans, Valid, SomeBlocked, DistinctKeys, Partly;
    o := Migrate(repo, orgs, rows, users, now, true);
    if o.Failed? {
      assert o.failure == Died || o.failure == TaxIdIsTaken;
      assert o == Failed(o.failure);
    }
  }

  /** Both halves agree to be written exactly when there is a plan, and it is theirs. */
  lemma BothHalves(org: DfeOrg, rows: seq<DfeMember>, users: set<string>, now: int, d: Decision, cd: CompanyDecision)
    requires d.sourceRef == org.pk && d.displayName == Strings.TrimSpace(org.name)
    requires d.owner == Strings.TrimSpace(org.ownerUserId)
    requires d.createdAt == Or(org.createdAt, now) && (d.create <==> d.review == [])
             && (d.create <==> Clear(org, rows, users, d.createdAt))
    requires d.members == SortedMembers(MembersOf(rows, users, d.createdAt))
    requires d.ownerName == LastName(OwnersOf(rows, users, d.createdAt))
    requires cd.sourceRef == org.pk && cd.legalName == Strings.TrimSpace(org.name) && cd.createdAt == d.createdAt
             && (cd.create <==> cd.review == [])
    requires cd.create <==> TaxId.Normalize(LegacyDocument(org.pk)).Some? && cd.legalName != "" && cd.actors != []
    requires cd.create ==> cd.kind.Some? && TaxId.Normalize(LegacyDocument(org.pk)) == Some((cd.taxId, cd.kind.value))
    requires cd.actors == PlannedActors(rows, d)
    ensures var plan := PlanFor(org, rows, users, now);
            && (plan.Some? <==> d.create && cd.create)
            && (plan.Some? ==> plan.value == Plan(d.(notes := []), cd))
  {
    hide Strings.TrimSpace, TaxId.Normalize, MembersOf, OwnersOf, SortedMembers, ActorsFrom, RowIsClear;
    if Clear(org, rows, users, d.createdAt) {
      assert d.owner != "";
      var clean := d.(notes := []);
      assert PlannedActors(rows, clean) == PlannedActors(rows, d);
    }
  }

  lemma AllWrites(orgs: seq<DfeOrg>, i: nat, rows: map<string, seq<DfeMember>>, users: set<string>, now: int, p: Plan)
    requires i < |orgs| && PlanFor(orgs[i], RowsOf(rows, orgs[i].pk), users, now) == Some(p)
    ensures var done := Plans(orgs[..i], rows, users, now);
            && Writes(Plans(orgs[..i + 1], rows, users, now)) == Writes(done) + (OrgWrites(p) + CompanyWrites(p))
            && Writes(done) + (OrgWrites(p) + CompanyWrites(p)) <= Writes(Plans(orgs, rows, users, now))
  {
    hide PlanFor, OrgWrites, CompanyWrites, Plans;
    var done := Plans(orgs[..i], rows, users, now);
    OneMorePlan(orgs, i, rows, users, now);
    PlansGrow(orgs, i + 1, rows, users, now);
    var here, all := Plans(orgs[..i + 1], rows, users, now), Plans(orgs, rows, users, now);
    assert here == done + [p];
    WritesSnoc(done, p);
    hide Writes;
    assert all == here + all[|here|..];
    WritesGrow(here, all[|here|..]);
  }

  /** When the loop comes to a plan, it is blocked exactly if it was at the start. */
  lemma BlockedAt(before: Db, orgs: seq<DfeOrg>, i: nat, rows: map<string, seq<DfeMember>>, users: set<string>,
                  now: int, p: Plan)
    requires Valid(before) && DistinctKeys(orgs) && i < |orgs|
    requires PlanFor(orgs[i], RowsOf(rows, orgs[i].pk), users, now) == Some(p)
    ensures var done, here, all :=
            Plans(orgs[..i], rows, users, now), Plans(orgs[..i + 1], rows, users, now), Plans(orgs, rows, users, now);
            && Valid(Run(before, Writes(done)))
            && (Blocked(Run(before, Writes(done)), p) <==> Blocked(before, p))
            && (Blocked(before, p) ==> SomeBlocked(before, all))
            && (!Blocked(before, p) && !SomeBlocked(before, done) ==> !SomeBlocked(before, here))
  {
    hide Plans, PlanFor, Writes, Run, Valid, Blocked;
    var done := Plans(orgs[..i], rows, users, now);
    RunKeepsValid(before, Writes(done));
    OneMorePlan(orgs, i, rows, users, now);
    PlansGrow(orgs, i + 1, rows, users, now);
    assert DistinctKeys(orgs[..i + 1]);
    PlansAreDistinct(orgs[..i + 1], rows, users, now);
    forall j | 0 <= j < |done| ensures done[j].Ref() != p.Ref() {
      assert (done + [p])[j] == done[j] && (done + [p])[|done|] == p;
    }
    BlockedElsewhere(before, done, p);
    assert Plans(orgs, rows, users, now)[|done|] == p;
  }

  lemma WritesSnoc(plans: seq<Plan>, p: Plan)
    ensures Writes(plans + [p]) == Writes(plans) + (OrgWrites(p) + CompanyWrites(p))
  {
    hide OrgWrites, CompanyWrites;
    assert (plans + [p])[..|plans|] == plans;
    assert Writes(plans) + OrgWrites(p) + CompanyWrites(p) == Writes(plans) + (OrgWrites(p) + CompanyWrites(p));
  }

  // ---------------------------------------------------------------- resuming, end to end

  ghost predicate DistinctKeys(orgs: seq<DfeOrg>) {
    forall i, j :: 0 <= i < j < |orgs| ==> orgs[i].pk != orgs[j].pk
  }

  lemma {:induction false} PlansComeFromOrgs(orgs: seq<DfeOrg>, rows: map<string, seq<DfeMember>>, users: set<string>,
                                             now: int, j: nat)
    returns (i: nat)
    requires j < |Plans(orgs, rows, users, now)|
    ensures i < |orgs| && Plans(orgs, rows, users, now)[j].Ref() == orgs[i].pk
    ensures PlanFor(orgs[i], RowsOf(rows, orgs[i].pk), users, now) == Some(Plans(orgs, rows, users, now)[j])
  {
    hide Clear, Strings.TrimSpace, TaxId.Normalize, PlannedActors, SortedMembers;
    if j < |Plans(orgs[..|orgs| - 1], rows, users, now)| {
      i := PlansComeFromOrgs(orgs[..|orgs| - 1], rows, users, now, j);
    } else {
      i := |orgs| - 1;
    }
  }

  lemma {:induction false} PlansAreDistinct(orgs: seq<DfeOrg>, rows: map<string, seq<DfeMember>>, users: set<string>,
                                            now: int)
    requires DistinctKeys(orgs)
    ensures DistinctRefs(Plans(orgs, rows, users, now))
  {
    hide PlanFor;
    if orgs != [] {
      var front := orgs[..|orgs| - 1];
      PlansAreDistinct(front, rows, users, now);
      var plans := Plans(orgs, rows, users, now);
      forall a, b | 0 <= a < b < |plans| ensures plans[a].Ref() != plans[b].Ref() {
        if b >= |Plans(front, rows, users, now)| {
          var i := PlansComeFromOrgs(front, rows, users, now, a);
          PlanRef(orgs[|orgs| - 1], RowsOf(rows, orgs[|orgs| - 1].pk), users, now);
          assert front[i] == orgs[i];
        }
      }
    }
  }

  lemma PlanRef(org: DfeOrg, rows: seq<DfeMember>, users: set<string>, now: int)
    ensures PlanFor(org, rows, users, now).Some? ==> PlanFor(org, rows, users, now).value.Ref() == org.pk
  {
    hide Clear, Strings.TrimSpace, TaxId.Normalize, PlannedActors, SortedMembers;
  }

  /** Every organization that is planned has a readable creation date; the refused ones need none. */
  ghost predicate ReadableDates(orgs: seq<DfeOrg>, rows: map<string, seq<DfeMember>>, users: set<string>) {
    forall i, now :: 0 <= i < |orgs| && PlanFor(orgs[i], RowsOf(rows, orgs[i].pk), users, now).Some? ==>
      orgs[i].createdAt.Some?
  }

  lemma {:induction false} OwnersIgnoreClock(rows: seq<DfeMember>, users: set<string>, a: int, b: int, owner: string)
    ensures OwnersOf(rows, users, a) == OwnersOf(rows, users, b)
    ensures forall m :: RowIsClear(m, users, a, owner) <==> RowIsClear(m, users, b, owner)
  {
    hide Strings.TrimSpace, MapRole;
    if rows != [] {
      OwnersIgnoreClock(rows[..|rows| - 1], users, a, b, owner);
    }
  }

  /** The clock never decides whether an organization is planned; with a readable date, nor how. */
  lemma PlannedAtAnyClock(org: DfeOrg, rows: seq<DfeMember>, users: set<string>, now: int, later: int)
    ensures PlanFor(org, rows, users, now).Some? <==> PlanFor(org, rows, users, later).Some?
    ensures org.createdAt.Some? ==> PlanFor(org, rows, users, now) == PlanFor(org, rows, users, later)
    ensures PlanFor(org, rows, users, now).Some? ==>
              PlanFor(org, rows, users, now).value.org.createdAt == Or(org.createdAt, now)
                && PlanFor(org, rows, users, now).value.Ref() == org.pk
  {
    OwnersIgnoreClock(rows, users, Or(org.createdAt, now), Or(org.createdAt, later),
                      Strings.TrimSpace(org.ownerUserId));
    hide Strings.TrimSpace, TaxId.Normalize, PlannedActors, SortedMembers, MembersOf, OwnersOf, RowIsClear;
  }

  lemma {:induction false} PlansIgnoreClock(orgs: seq<DfeOrg>, rows: map<string, seq<DfeMember>>, users: set<string>,
                                            now: int, later: int)
    requires ReadableDates(orgs, rows, users)
    ensures Plans(orgs, rows, users, now) == Plans(orgs, rows, users, later)
  {
    hide PlanFor, RowsOf;
    if orgs != [] {
      var front, last := orgs[..|orgs| - 1], orgs[|orgs| - 1];
      assert forall i :: 0 <= i < |front| ==> front[i] == orgs[i];
      PlansIgnoreClock(front, rows, users, now, later);
      PlannedAtAnyClock(last, RowsOf(rows, last.pk), users, now, later);
    }
  }

  /** A run from before to after, at any clock, that died, was refused a tax id or completed. */
  ghost predicate RanOnce(before: Db, after: Db, orgs: seq<DfeOrg>, rows: map<string, seq<DfeMember>>,
                          users: set<string>) {
    exists now :: Partly(before, after, Writes(Plans(orgs, rows, users, now)))
  }

  /** Interrupted runs at any clocks, over unchanged source data with distinct keys and readable dates,
      followed by a complete one, leave what an uninterrupted run leaves. Each state of history is one
      run after the previous one. */
  lemma {:induction false} MigrationResumes(history: seq<Db>, orgs: seq<DfeOrg>, rows: map<string, seq<DfeMember>>,
                                            users: set<string>, now: int, ref: string)
    requires |history| > 0 && Valid(history[0]) && DistinctKeys(orgs) && ReadableDates(orgs, rows, users)
    requires forall i :: 0 <= i < |history| - 1 ==> RanOnce(history[i], history[i + 1], orgs, rows, users)
    ensures var ws := Writes(Plans(orgs, rows, users, now));
            && Valid(Run(history[0], ws)) && Valid(Run(history[|history| - 1], ws))
            && ViewOf(Run(history[|history| - 1], ws), ref) == ViewOf(Run(history[0], ws), ref)
    decreases |history|
  {
    hide Valid, ViewOf, Run, Writes, Plans, Partly, PlanFor;
    var plans := Plans(orgs, rows, users, now);
    var ws := Writes(plans);
    RunKeepsValid(history[0], ws);
    if |history| > 1 {
      assert RanOnce(history[0], history[1], orgs, rows, users);
      var clock :| Partly(history[0], history[1], Writes(Plans(orgs, rows, users, clock)));
      PlansIgnoreClock(orgs, rows, users, clock, now);
      hide ReadableDates;
      PlansAreDistinct(orgs, rows, users, now);
      OneRun(history[0], history[1], plans, ref);
      forall i | 0 <= i < |history[1..]| - 1 ensures RanOnce(history[1..][i], history[1..][i + 1], orgs, rows, users) {
        assert history[1..][i] == history[i + 1] && history[1..][i + 1] == history[i + 2];
      }
      MigrationResumes(history[1..], orgs, rows, users, now, ref);
    }
  }

  lemma OneRun(before: Db, after: Db, plans: seq<Plan>, ref: string)
    requires Valid(before) && DistinctRefs(plans) && Partly(before, after, Writes(plans))
    ensures Valid(after) && Valid(Run(before, Writes(plans))) && Valid(Run(after, Writes(plans)))
    ensures ViewOf(Run(after, Writes(plans)), ref) == ViewOf(Run(before, Writes(plans)), ref)
  {
    hide Valid, ViewOf, Run, Writes;
    var k :| 0 <= k <= |Writes(plans)| && after == Run(before, Writes(plans)[..k]);
    OneAttempt(before, plans, k, ref);
  }

  // ---------------------------------------------------------------- one page of rows

  predicate Listed(members: seq<Membership>, user: string) {
    exists j :: 0 <= j < |members| && members[j].userId == user
  }

  lemma ListedAppend(members: seq<Membership>, m: Membership, user: string)
    ensures Listed(members + [m], user) <==> Listed(members, user) || m.userId == user
  {
    if Listed(members, user) {
      var j :| 0 <= j < |members| && members[j].userId == user;
      assert (members + [m])[j] == members[j];
    }
    assert (members + [m])[|members|] == m;
  }

  lemma ClearRowNames(m: DfeMember, users: set<string>, created: int, owner: string)
    requires RowIsClear(m, users, created, owner) && owner != ""
    ensures var row, user := ReadRow(m, users, created), Strings.TrimSpace(m.userId);
            !row.Question? && (row.OwnerRow? ==> user == owner) && (row.MemberRow? ==> row.member.userId == user)
  {
    ClearRow(m, users, created, owner);
    hide Strings.TrimSpace, MapRole;
  }

  lemma {:induction false} MembersFromRows(rows: seq<DfeMember>, users: set<string>, created: int, owner: string,
                                           user: string)
    requires owner != "" && forall k :: 0 <= k < |rows| ==> RowIsClear(rows[k], users, created, owner)
    ensures user == owner || Listed(MembersOf(rows, users, created), user) <==> user == owner || HasRow(rows, user)
  {
    hide ReadRow, RowIsClear, Strings.TrimSpace;
    if rows != [] {
      var front, last := rows[..|rows| - 1], rows[|rows| - 1];
      assert forall k :: 0 <= k < |front| ==> front[k] == rows[k];
      hide HasRow, Listed;
      MembersFromRows(front, users, created, owner, user);
      RowAppend(rows, user);
      ClearRowNames(last, users, created, owner);
      var row := ReadRow(last, users, created);
      if row.MemberRow? {
        ListedAppend(MembersOf(front, users, created), row.member, user);
      } else {
        assert MembersOf(rows, users, created) == MembersOf(front, users, created);
      }
    }
  }

  /** The user gets a membership, as a planned member or as the owner. */
  predicate Imported(p: Plan, user: string) {
    user == p.org.owner || Listed(p.org.members, user)
  }

  /** Exactly when everybody with a row is imported: nobody stands only in the rows past the page that is
      read. In particular when there are at most 500 rows. */
  lemma EveryoneIsImportedIff(org: DfeOrg, rows: map<string, seq<DfeMember>>, users: set<string>, now: int)
    requires PlanFor(org, RowsOf(rows, org.pk), users, now).Some?
    ensures var p, all := PlanFor(org, RowsOf(rows, org.pk), users, now).value, SourceRows(rows, org.pk);
            && ((forall i :: 0 <= i < |all| ==> Imported(p, Strings.TrimSpace(all[i].userId))) <==>
                  forall i :: MAX_ROWS <= i < |all| ==>
                    var user := Strings.TrimSpace(all[i].userId);
                    user == p.org.owner || HasRow(RowsOf(rows, org.pk), user))
            && (|all| <= MAX_ROWS ==> forall i :: 0 <= i < |all| ==> Imported(p, Strings.TrimSpace(all[i].userId)))
  {
    var p, all, page := PlanFor(org, RowsOf(rows, org.pk), users, now).value, SourceRows(rows, org.pk),
        RowsOf(rows, org.pk);
    forall user ensures Imported(p, user) <==> user == p.org.owner || HasRow(page, user) {
      ImportedIff(org, page, users, now, user);
    }
    forall i | 0 <= i < |all| && i < MAX_ROWS ensures HasRow(page, Strings.TrimSpace(all[i].userId)) {
      assert page[i] == all[i];
    }
    hide PlanFor, Strings.TrimSpace, HasRow, Imported;
  }

  lemma ImportedIff(org: DfeOrg, page: seq<DfeMember>, users: set<string>, now: int, user: string)
    requires PlanFor(org, page, users, now).Some?
    ensures var p := PlanFor(org, page, users, now).value; Imported(p, user) <==>
            user == p.org.owner || HasRow(page, user)
  {
    var created, owner := Or(org.createdAt, now), Strings.TrimSpace(org.ownerUserId);
    var members := MembersOf(page, users, created);
    MembersFromRows(page, users, created, owner, user);
    SortedListed(members, user);
    hide Strings.TrimSpace, TaxId.Normalize, PlannedActors, SortedMembers, MembersOf, OwnersOf, RowIsClear, HasRow,
      Listed, LegacyDocument;
  }

  lemma SortedListed(members: seq<Membership>, user: string)
    ensures Listed(SortedMembers(members), user) <==> Listed(members, user)
  {
    var sorted := SortedMembers(members);
    Sorting.SortBySorts((m: Membership) => m.userId, members);
    if Listed(members, user) {
      var j :| 0 <= j < |members| && members[j].userId == user;
      Sorting.SameElements(sorted, members, members[j]);
    }
    if Listed(sorted, user) {
      var j :| 0 <= j < |sorted| && sorted[j].userId == user;
      Sorting.SameElements(sorted, members, sorted[j]);
    }
  }
}
