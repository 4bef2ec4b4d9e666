/**
 * What a complete run stores for each source organization, field by field: whose organization it is and
 * under what name, who its members are and in which roles, which company it has and who acts for it.
 */
module MigrationContents {
  import opened Wrappers
  import opened MigrationPlan
  import opened MigrationRun
  import opened MigrationResume
  import opened MigrationApply
  import Strings
  import TaxId

  predicate MemberFrom(row: StoredMember, m: Membership) {
    row.name == m.name && row.role == m.role && row.invitedBy == m.invitedBy && row.createdAt == m.createdAt
  }

  predicate EdgeFrom(edge: Edge, a: Actor) {
    edge.name == a.name && edge.grantedBy == a.grantedBy && edge.createdAt == a.createdAt
  }

  /** The first of a user's listings counts for memberships, which are never overwritten. */
  predicate FirstAt(ms: seq<Membership>, j: int) {
    0 <= j < |ms| && forall i :: 0 <= i < j ==> ms[i].userId != ms[j].userId
  }

  /** The last of a user's listings counts for actor edges, which always are. */
  predicate LastAt(actors: seq<Actor>, j: int) {
    0 <= j < |actors| && forall i :: j < i < |actors| ==> actors[i].userId != actors[j].userId
  }

  predicate OrganizationStored(before: View, after: View, p: Plan) {
    && after.Present?
    && if before.Present? then after.organization == before.organization
       else
         && after.organization.displayName == p.org.displayName && after.organization.owner == p.org.owner
         && after.organization.source == Some(p.org.sourceRef) && after.organization.createdAt == p.org.createdAt
         && p.org.owner in after.members
         && var row := after.members[p.org.owner];
            row.name == p.org.ownerName && row.role == Owner && row.invitedBy == "" && row.createdAt == p.org.createdAt
  }

  /** A member the plan's own list does not account for: there before the run, or the owner of an organization
      created in it. */
  predicate MemberAlready(before: View, p: Plan, user: string) {
    if before.Present? then user in before.members else user == p.org.owner
  }

  ghost predicate MembersStored(before: View, after: View, p: Plan) {
    && after.Present?
    && (before.Present? ==>
          forall u :: u in before.members ==> u in after.members && after.members[u] == before.members[u])
    && (forall j :: FirstAt(p.org.members, j) && !MemberAlready(before, p, p.org.members[j].userId) ==>
          var m := p.org.members[j];
          m.userId in after.members && MemberFrom(after.members[m.userId], m))
    && (forall u :: u in after.members ==>
          MemberAlready(before, p, u) || exists j :: 0 <= j < |p.org.members| && p.org.members[j].userId == u)
  }

  predicate CompanyAlready(before: View) {
    before.Present? && before.company.Some?
  }

  predicate CompanyStored(before: View, after: View, p: Plan) {
    && after.Present?
    && (CompanyAlready(before) ==> after.company.Some? && after.company.value.company == before.company.value.company)
    && (!CompanyAlready(before) && after.company.Some? ==>
          var c := after.company.value.company;
          && c.taxId == p.company.taxId && c.kind == p.company.kind && c.legalName == p.company.legalName
          && c.source == Some(p.org.sourceRef) && c.createdAt == p.company.createdAt
          && c.taxId in after.taxIds)
  }

  ghost predicate EdgesStored(before: View, after: View, p: Plan) {
    after.Present? && after.company.Some? ==>
      var edges := after.company.value.edges;
      && (forall j :: LastAt(p.company.actors, j) ==>
            var a := p.company.actors[j];
            a.userId in edges && EdgeFrom(edges[a.userId], a))
      && (forall u :: u in edges && !MigrationResume.Listed(p.company.actors, u) ==>
            CompanyAlready(before) && u in before.company.value.edges && edges[u] == before.company.value.edges[u])
  }

  lemma {:induction false} AddedMember(members: map<string, StoredMember>, ms: seq<Membership>, j: nat)
    requires FirstAt(ms, j) && ms[j].userId !in members
    ensures ms[j].userId in AddAbsent(members, ms) && MemberFrom(AddAbsent(members, ms)[ms[j].userId], ms[j])
  {
    var front := ms[..|ms| - 1];
    if j < |front| {
      AddedMember(members, front, j);
    } else {
      NotAdded(members, front, ms[j].userId);
    }
  }

  lemma {:induction false} NotAdded(members: map<string, StoredMember>, ms: seq<Membership>, user: string)
    requires user !in members && forall i :: 0 <= i < |ms| ==> ms[i].userId != user
    ensures user !in AddAbsent(members, ms)
  {
    if ms != [] {
      NotAdded(members, ms[..|ms| - 1], user);
    }
  }

  lemma {:induction false} SettledEdge(edges: map<string, Edge>, actors: seq<Actor>, j: nat)
    requires LastAt(actors, j)
    ensures actors[j].userId in AddEdges(edges, actors)
    ensures EdgeFrom(AddEdges(edges, actors)[actors[j].userId], actors[j])
  {
    var front := actors[..|actors| - 1];
    if j < |front| {
      SettledEdge(edges, front, j);
    }
  }

  lemma MembersAfterPlan(v: View, p: Plan)
    ensures MembersStored(v, WithMembers(WithOrg(v, p), p.org.members), p)
    ensures OrganizationStored(v, WithMembers(WithOrg(v, p), p.org.members), p)
  {
    hide AddAbsent, MemberFrom;
    var ms, members := p.org.members, WithOrg(v, p).members;
    AddAbsentKeeps(members, ms, 0);
    forall u ensures u in members <==> MemberAlready(v, p, u) {}
    forall j | FirstAt(ms, j) && !MemberAlready(v, p, ms[j].userId)
      ensures ms[j].userId in AddAbsent(members, ms) && MemberFrom(AddAbsent(members, ms)[ms[j].userId], ms[j]) {
      AddedMember(members, ms, j);
    }
    forall u | u in AddAbsent(members, ms) && !MemberAlready(v, p, u)
      ensures exists j :: 0 <= j < |ms| && ms[j].userId == u {
      if forall j :: 0 <= j < |ms| ==> ms[j].userId != u {
        NotAdded(members, ms, u);
      }
    }
  }

  lemma CompanyAfterPlan(v: View, p: Plan)
    ensures var w := WithEdges(WithCompany(v, p), p.company.actors);
            CompanyStored(v, w, p) && EdgesStored(v, w, p)
  {
    hide AddAbsent, AddEdges, EdgeFrom, MigrationResume.Listed;
    var actors, c := p.company.actors, WithCompany(v, p).company;
    if c.Some? {
      forall j | LastAt(actors, j)
        ensures actors[j].userId in AddEdges(c.value.edges, actors)
                && EdgeFrom(AddEdges(c.value.edges, actors)[actors[j].userId], actors[j]) {
        SettledEdge(c.value.edges, actors, j);
      }
      forall u | u in AddEdges(c.value.edges, actors) && !MigrationResume.Listed(actors, u)
        ensures u in c.value.edges && AddEdges(c.value.edges, actors)[u] == c.value.edges[u] {
        EdgesElsewhere(c.value.edges, actors, u);
      }
    }
  }

  /** After a complete run: an organization created in it has the planned display name, owner and date, and its
      owner's row the planned name; each member added has the planned role, name, inviter and date; a company
      created has the plan's tax id, kind, legal name, source and date; each listed actor has the planned name,
      granter and date. What was there before is as it was, and nobody else was added. */
  lemma CompleteRunStoresThePlan(db: Db, plans: seq<Plan>, i: nat)
    requires Valid(db) && DistinctRefs(plans) && i < |plans|
    ensures Valid(Run(db, Writes(plans)))
    ensures var p := plans[i];
            var before, after := ViewOf(db, p.Ref()), ViewOf(Run(db, Writes(plans)), p.Ref());
            && OrganizationStored(before, after, p) && MembersStored(before, after, p)
            && CompanyStored(before, after, p) && EdgesStored(before, after, p)
  {
    hide *;
    FinalViewOf(db, plans, i);
    var v, p := ViewOf(db, plans[i].Ref()), plans[i];
    MembersAfterPlan(v, p);
    CompanyAfterPlan(v, p);
    CompanyApart(v, p);
  }

  lemma FinalViewOf(db: Db, plans: seq<Plan>, i: nat)
    requires Valid(db) && DistinctRefs(plans) && i < |plans|
    ensures Valid(Run(db, Writes(plans)))
    ensures var p := plans[i];
            ViewOf(Run(db, Writes(plans)), p.Ref()) ==
            WithEdges(WithCompany(ViewOf(db, p.Ref()), p), p.company.actors)
  {
    hide Valid, ViewOf, Run, RunView, For, PlanWrites, Writes, WithEdges, WithCompany;
    var p, ws := plans[i], Writes(plans);
    var v := ViewOf(db, p.Ref());
    ViewOfRun(db, ws, p.Ref());
    ForPlan(plans, i);
    assert PlanWrites(p)[..|PlanWrites(p)|] == PlanWrites(p);
    RunPrefix(v, p, |PlanWrites(p)|);
    PrefixOf(p, 0);
    assert p.company.actors[..|p.company.actors|] == p.company.actors;
  }

  /** Company and edges leave organization and members alone. */
  lemma CompanyApart(v: View, p: Plan)
    requires OrganizationStored(v, WithMembers(WithOrg(v, p), p.org.members), p)
    requires MembersStored(v, WithMembers(WithOrg(v, p), p.org.members), p)
    ensures var w := WithEdges(WithCompany(v, p), p.company.actors);
            OrganizationStored(v, w, p) && MembersStored(v, w, p)
  {
    hide AddAbsent, AddEdges, FirstAt, MemberFrom;
  }

  /** From the source rows to the stored ones: an organization imported in a run keeps the name, the owner and the
      date of its source row, the last owner row's name for the owner, and its company the document of the key. */
  lemma ImportedAsInTheSource(db: Db, orgs: seq<DfeOrg>, rows: map<string, seq<DfeMember>>, users: set<string>,
                              now: int, i: nat)
    requires Valid(db) && DistinctKeys(orgs) && i < |orgs| && orgs[i].pk !in db.orgIndex
    requires PlanFor(orgs[i], RowsOf(rows, orgs[i].pk), users, now).Some?
    ensures Valid(Run(db, Writes(Plans(orgs, rows, users, now))))
    ensures var o := orgs[i];
            var owner := Strings.TrimSpace(o.ownerUserId);
            var created := if o.createdAt.Some? then o.createdAt.value else now;
            var v := ViewOf(Run(db, Writes(Plans(orgs, rows, users, now))), o.pk);
            && v.Present?
            && v.organization == Organization(Strings.TrimSpace(o.name), owner, Some(o.pk), created)
            && owner in v.members && v.members[owner].role == Owner
            && NameOfLastOwnerRow(RowsOf(rows, o.pk), users, created, v.members[owner].name)
            && v.company.Some?
            && var c := v.company.value.company;
               && c.legalName == Strings.TrimSpace(o.name) && c.source == Some(o.pk) && c.createdAt == created
               && c.kind.Some? && TaxId.Normalize(LegacyDocument(o.pk)) == Some((c.taxId, c.kind.value))
  {
    hide *;
    var plans := Plans(orgs, rows, users, now);
    PlansAreDistinct(orgs, rows, users, now);
    var j := PlanAt(orgs, rows, users, now, i);
    CompleteRunStoresThePlan(db, plans, j);
    PlanSays(orgs[i], RowsOf(rows, orgs[i].pk), users, now);
    NewOrganizationStored(db, plans, j);
    StoredAnew(ViewOf(db, orgs[i].pk), ViewOf(Run(db, Writes(plans)), orgs[i].pk), plans[j]);
    OwnerNameIsLast(RowsOf(rows, orgs[i].pk), users, Or(orgs[i].createdAt, now));
    OrIs(orgs[i].createdAt, now);
  }

  lemma OrIs(t: Option<int>, fallback: int)
    ensures Or(t, fallback) == if t.Some? then t.value else fallback
  {}

  lemma PlanAt(orgs: seq<DfeOrg>, rows: map<string, seq<DfeMember>>, users: set<string>, now: int, i: nat)
    returns (j: nat)
    requires i < |orgs| && PlanFor(orgs[i], RowsOf(rows, orgs[i].pk), users, now).Some?
    ensures j < |Plans(orgs, rows, users, now)|
    ensures Some(Plans(orgs, rows, users, now)[j]) == PlanFor(orgs[i], RowsOf(rows, orgs[i].pk), users, now)
  {
    hide PlanFor, RowsOf, Plans;
    OneMorePlan(orgs, i, rows, users, now);
    PlansGrow(orgs, i + 1, rows, users, now);
    j := |Plans(orgs[..i], rows, users, now)|;
  }

  lemma PlanSays(o: DfeOrg, page: seq<DfeMember>, users: set<string>, now: int)
    requires PlanFor(o, page, users, now).Some?
    ensures var p, created := PlanFor(o, page, users, now).value, Or(o.createdAt, now);
            && p.Ref() == o.pk && p.org.sourceRef == o.pk && p.org.displayName == Strings.TrimSpace(o.name)
            && p.org.owner == Strings.TrimSpace(o.ownerUserId) && p.org.createdAt == created
            && p.org.ownerName == LastName(OwnersOf(page, users, created))
            && p.company.legalName == Strings.TrimSpace(o.name) && p.company.createdAt == created
            && p.company.kind.Some?
            && TaxId.Normalize(LegacyDocument(o.pk)) == Some((p.company.taxId, p.company.kind.value))
  {
    hide Strings.TrimSpace, TaxId.Normalize, PlannedActors, SortedMembers, MembersOf, OwnersOf, LegacyDocument,
      LastName;
  }

  /** A reference that was not there gets both halves. */
  lemma NewOrganizationStored(db: Db, plans: seq<Plan>, j: nat)
    requires Valid(db) && DistinctRefs(plans) && j < |plans| && plans[j].Ref() !in db.orgIndex
    ensures Valid(Run(db, Writes(plans)))
    ensures ViewOf(db, plans[j].Ref()).Absent?
    ensures ViewOf(Run(db, Writes(plans)), plans[j].Ref()).Present?
    ensures ViewOf(Run(db, Writes(plans)), plans[j].Ref()).company.Some?
  {
    hide Valid, Run, Writes, WithEdges, WithCompany, ViewOf;
    FinalViewOf(db, plans, j);
    NotThere(db, plans[j].Ref());
    NewHasCompany(ViewOf(db, plans[j].Ref()), plans[j]);
  }

  lemma NotThere(db: Db, ref: string)
    requires Valid(db) && ref !in db.orgIndex
    ensures ViewOf(db, ref).Absent?
  {}

  lemma StoredAnew(before: View, after: View, p: Plan)
    requires before.Absent? && OrganizationStored(before, after, p) && CompanyStored(before, after, p)
    ensures after.organization == Organization(p.org.displayName, p.org.owner, Some(p.org.sourceRef), p.org.createdAt)
    ensures p.org.owner in after.members && after.members[p.org.owner].role == Owner
    ensures after.members[p.org.owner].name == p.org.ownerName
    ensures after.company.Some? ==>
              after.company.value.company == Company(p.company.taxId, p.company.kind, p.company.legalName,
                                                    Some(p.org.sourceRef), p.company.createdAt)
  {}

  lemma NewHasCompany(v: View, p: Plan)
    requires v.Absent?
    ensures WithEdges(WithCompany(v, p), p.company.actors).Present?
    ensures WithEdges(WithCompany(v, p), p.company.actors).company.Some?
  {
    hide AddAbsent, AddEdges;
  }
}
