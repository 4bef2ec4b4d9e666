/**
 * Applying migration plans. Each repository call is one atomic write that does nothing when its row is
 * already there, except an actor edge, which is put unconditionally. A run may die before any write.
 */
module MigrationRun {
  import opened Wrappers
  import opened MigrationPlan
  import TaxId

  datatype Organization = Organization(displayName: string, owner: string, source: Option<string>, createdAt: int)

  datatype StoredMember = StoredMember(name: string, role: Role, invitedBy: string, createdAt: int)

  datatype Company = Company(taxId: string, kind: Option<TaxId.Kind>, legalName: string, source: Option<string>,
                             createdAt: int)

  datatype Edge = Edge(name: string, grantedBy: string, createdAt: int)

  /** Rows by key. The two indexes answer lookups by source reference; ids are taken in order. */
  datatype Db = Db(
    orgs: map<nat, Organization>,
    members: map<(nat, string), StoredMember>,
    companies: map<(nat, nat), Company>,
    taxLocks: map<(nat, string), nat>,
    actors: map<(nat, nat, string), Edge>,
    orgIndex: map<string, nat>,
    companyIndex: map<string, (nat, nat)>,
    nextId: nat)

  /** The two halves of one source organization, neither of which needs a human. */
  datatype Plan = Plan(org: Decision, company: CompanyDecision) {
    function Ref(): string { org.sourceRef }
  }

  datatype Write =
    | EnsureOrg(plan: Plan)
    | EnsureMember(ref: string, member: Membership)
    | EnsureCompany(plan: Plan)
    | EnsureActor(ref: string, actor: Actor)

  function RefOf(w: Write): string {
    match w
    case EnsureOrg(p) => p.Ref()
    case EnsureMember(r, _) => r
    case EnsureCompany(p) => p.Ref()
    case EnsureActor(r, _) => r
  }

  function OwnerRowOf(p: Plan): StoredMember {
    StoredMember(p.org.ownerName, Owner, "", p.org.createdAt)
  }

  function OrganizationOf(p: Plan): Organization {
    Organization(p.org.displayName, p.org.owner, Some(p.Ref()), p.org.createdAt)
  }

  function CompanyOf(p: Plan): Company {
    Company(p.company.taxId, p.company.kind, p.company.legalName, Some(p.Ref()), p.company.createdAt)
  }

  /** One transaction: the organization, under a new id, and its owner's membership. */
  function CreateWithOwner(db: Db, p: Plan): Db {
    var id := db.nextId;
    db.(orgs := db.orgs[id := OrganizationOf(p)],
        members := db.members[(id, p.org.owner) := OwnerRowOf(p)],
        orgIndex := db.orgIndex[p.Ref() := id],
        nextId := id + 1)
  }

  function PutMember(db: Db, id: nat, m: Membership): Db {
    if (id, m.userId) in db.members then db
    else db.(members := db.members[(id, m.userId) := StoredMember(m.name, m.role, m.invitedBy, m.createdAt)])
  }

  /** One transaction: the company and the lock on its tax id within the organization. */
  function CreateCompany(db: Db, org: nat, p: Plan): Db {
    var id := db.nextId;
    db.(companies := db.companies[(org, id) := CompanyOf(p)],
        taxLocks := db.taxLocks[(org, p.company.taxId) := id],
        companyIndex := db.companyIndex[p.Ref() := (org, id)],
        nextId := id + 1)
  }

  predicate TaxIdTaken(db: Db, org: nat, p: Plan) {
    (org, p.company.taxId) in db.taxLocks
  }

  /** The plan's organization is there without its company, and the company's tax id is taken inside it. */
  predicate Blocked(db: Db, p: Plan) {
    p.Ref() in db.orgIndex && p.Ref() !in db.companyIndex && TaxIdTaken(db, db.orgIndex[p.Ref()], p)
  }

  function PutActor(db: Db, org: nat, company: nat, a: Actor): Db {
    db.(actors := db.actors[(org, company, a.userId) := Edge(a.name, a.grantedBy, a.createdAt)])
  }

  function Do(db: Db, w: Write): Db {
    match w
    case EnsureOrg(p) => if p.Ref() in db.orgIndex then db else CreateWithOwner(db, p)
    case EnsureMember(r, m) => if r in db.orgIndex then PutMember(db, db.orgIndex[r], m) else db
    case EnsureCompany(p) =>
      if p.Ref() in db.companyIndex || p.Ref() !in db.orgIndex || TaxIdTaken(db, db.orgIndex[p.Ref()], p) then db
      else CreateCompany(db, db.orgIndex[p.Ref()], p)
    case EnsureActor(r, a) =>
      if r in db.orgIndex && r in db.companyIndex then PutActor(db, db.orgIndex[r], db.companyIndex[r].1, a) else db
  }

  function Run(db: Db, ws: seq<Write>): Db {
    if ws == [] then db else Do(Run(db, ws[..|ws| - 1]), ws[|ws| - 1])
  }

  function OrgWrites(p: Plan): seq<Write> {
    [EnsureOrg(p)] + seq(|p.org.members|, i requires 0 <= i < |p.org.members| =>
                         EnsureMember(p.Ref(), p.org.members[i]))
  }

  function CompanyWrites(p: Plan): seq<Write> {
    [EnsureCompany(p)] + seq(|p.company.actors|, i requires 0 <= i < |p.company.actors| =>
                             EnsureActor(p.Ref(), p.company.actors[i]))
  }

  /** Everything an uninterrupted run writes. */
  function Writes(plans: seq<Plan>): seq<Write> {
    if plans == [] then []
    else Writes(plans[..|plans| - 1]) + OrgWrites(plans[|plans| - 1]) + CompanyWrites(plans[|plans| - 1])
  }

  ghost predicate IdsTaken(db: Db) {
    && (forall id :: id in db.orgs ==> id < db.nextId)
    && (forall k :: k in db.members ==> k.0 < db.nextId)
    && (forall k :: k in db.companies ==> k.0 < db.nextId && k.1 < db.nextId)
    && (forall k :: k in db.taxLocks ==> k.0 < db.nextId)
    && (forall k :: k in db.actors ==> k.0 < db.nextId && k.1 < db.nextId)
  }

  ghost predicate OrgIndexOk(orgs: map<nat, Organization>, index: map<string, nat>) {
    && (forall r :: r in index ==> index[r] in orgs && orgs[index[r]].source == Some(r))
    && (forall id :: id in orgs && orgs[id].source.Some? ==>
        orgs[id].source.value in index && index[orgs[id].source.value] == id)
  }

  ghost predicate CompanyIndexOk(companies: map<(nat, nat), Company>, index: map<string, (nat, nat)>,
                                 orgIndex: map<string, nat>) {
    && (forall r :: r in index ==>
          index[r] in companies && companies[index[r]].source == Some(r) && r in orgIndex && orgIndex[r] == index[r].0)
    && (forall k :: k in companies && companies[k].source.Some? ==>
          companies[k].source.value in index && index[companies[k].source.value] == k)
  }

  /** A tax lock names a company of its organization, and that company has the locked number. */
  ghost predicate TaxLocksOk(companies: map<(nat, nat), Company>, locks: map<(nat, string), nat>) {
    forall k :: k in locks ==> (k.0, locks[k]) in companies && companies[(k.0, locks[k])].taxId == k.1
  }

  /** Rows carry ids already taken; the indexes are current, so a source reference belongs to at most
      one organization and one company, the company inside the organization; and a tax id is locked by a
      company that has it. */
  ghost predicate Valid(db: Db) {
    && IdsTaken(db) && OrgIndexOk(db.orgs, db.orgIndex) && CompanyIndexOk(db.companies, db.companyIndex, db.orgIndex)
    && TaxLocksOk(db.companies, db.taxLocks)
  }

  lemma AddOrg(orgs: map<nat, Organization>, index: map<string, nat>, id: nat, o: Organization, r: string)
    requires OrgIndexOk(orgs, index) && id !in orgs && r !in index && o.source == Some(r)
    ensures OrgIndexOk(orgs[id := o], index[r := id])
  {}

  lemma AddCompany(companies: map<(nat, nat), Company>, index: map<string, (nat, nat)>, orgIndex: map<string, nat>,
                   k: (nat, nat), c: Company, r: string)
    requires CompanyIndexOk(companies, index, orgIndex) && k !in companies && r !in index && c.source == Some(r)
    requires r in orgIndex && orgIndex[r] == k.0
    ensures CompanyIndexOk(companies[k := c], index[r := k], orgIndex)
  {}

  lemma MoreOrgs(companies: map<(nat, nat), Company>, index: map<string, (nat, nat)>, orgIndex: map<string, nat>,
                 r: string, id: nat)
    requires CompanyIndexOk(companies, index, orgIndex) && r !in orgIndex
    ensures CompanyIndexOk(companies, index, orgIndex[r := id])
  {}

  lemma AddLock(companies: map<(nat, nat), Company>, locks: map<(nat, string), nat>, k: (nat, nat), c: Company)
    requires TaxLocksOk(companies, locks) && k !in companies
    ensures TaxLocksOk(companies[k := c], locks[(k.0, c.taxId) := k.1])
  {}

  lemma RefsTaken(db: Db, r: string)
    requires IdsTaken(db) && OrgIndexOk(db.orgs, db.orgIndex)
    requires CompanyIndexOk(db.companies, db.companyIndex, db.orgIndex)
    ensures r in db.orgIndex ==> db.orgIndex[r] < db.nextId
    ensures r in db.companyIndex ==> db.companyIndex[r].1 < db.nextId
  {
    if r in db.orgIndex {
      assert db.orgIndex[r] in db.orgs;
    }
    if r in db.companyIndex {
      assert db.companyIndex[r] in db.companies;
    }
  }

  lemma DoKeepsIds(db: Db, w: Write)
    requires IdsTaken(db) && OrgIndexOk(db.orgs, db.orgIndex)
    requires CompanyIndexOk(db.companies, db.companyIndex, db.orgIndex)
    ensures IdsTaken(Do(db, w))
  {
    RefsTaken(db, RefOf(w));
    hide OrgIndexOk, CompanyIndexOk;
  }

  lemma DoKeepsValid(db: Db, w: Write)
    requires Valid(db)
    ensures Valid(Do(db, w))
  {
    DoKeepsIds(db, w);
    if w.EnsureOrg? && w.plan.Ref() !in db.orgIndex {
      assert db.nextId !in db.orgs;
      hide IdsTaken, OrgIndexOk, CompanyIndexOk, TaxLocksOk;
      AddOrg(db.orgs, db.orgIndex, db.nextId, OrganizationOf(w.plan), w.plan.Ref());
      MoreOrgs(db.companies, db.companyIndex, db.orgIndex, w.plan.Ref(), db.nextId);
    } else if w.EnsureCompany? && Do(db, w) != db {
      var org := db.orgIndex[w.plan.Ref()];
      assert (org, db.nextId) !in db.companies;
      hide IdsTaken, OrgIndexOk, CompanyIndexOk, TaxLocksOk;
      AddLock(db.companies, db.taxLocks, (org, db.nextId), CompanyOf(w.plan));
      AddCompany(db.companies, db.companyIndex, db.orgIndex, (org, db.nextId), CompanyOf(w.plan), w.plan.Ref());
    } else {
      hide IdsTaken, OrgIndexOk, CompanyIndexOk, TaxLocksOk;
    }
  }

  lemma {:induction false} RunKeepsValid(db: Db, ws: seq<Write>)
    requires Valid(db)
    ensures Valid(Run(db, ws))
  {
    hide Valid, Do;
    if ws != [] {
      RunKeepsValid(db, ws[..|ws| - 1]);
      DoKeepsValid(Run(db, ws[..|ws| - 1]), ws[|ws| - 1]);
    }
  }

  // ---------------------------------------------------------------- what one source reference looks like

  datatype CompanyView = CompanyView(company: Company, edges: map<string, Edge>)

  /** Everything stored for one source reference, without the generated ids. */
  datatype View =
    | Absent
    | Present(organization: Organization, members: map<string, StoredMember>, taxIds: set<string>,
              company: Option<CompanyView>)

  function MembersUnder(db: Db, id: nat): map<string, StoredMember> {
    map k | k in db.members && k.0 == id :: k.1 := db.members[k]
  }

  function TaxIdsUnder(db: Db, id: nat): set<string> {
    set k | k in db.taxLocks && k.0 == id :: k.1
  }

  function EdgesUnder(db: Db, org: nat, company: nat): map<string, Edge> {
    map k | k in db.actors && k.0 == org && k.1 == company :: k.2 := db.actors[k]
  }

  function CompanyViewOf(db: Db, ref: string): Option<CompanyView>
    requires ref in db.orgIndex && (ref in db.companyIndex ==> db.companyIndex[ref] in db.companies)
  {
    if ref !in db.companyIndex then None
    else Some(CompanyView(db.companies[db.companyIndex[ref]], EdgesUnder(db, db.orgIndex[ref], db.companyIndex[ref].1)))
  }

  ghost function ViewOf(db: Db, ref: string): View
    requires Valid(db)
  {
    if ref !in db.orgIndex then Absent
    else
      var id := db.orgIndex[ref];
      Present(db.orgs[id], MembersUnder(db, id), TaxIdsUnder(db, id), CompanyViewOf(db, ref))
  }

  function PutAbsent(members: map<string, StoredMember>, m: Membership): map<string, StoredMember> {
    if m.userId in members then members else members[m.userId := StoredMember(m.name, m.role, m.invitedBy, m.createdAt)]
  }

  function PutEdge(edges: map<string, Edge>, a: Actor): map<string, Edge> {
    edges[a.userId := Edge(a.name, a.grantedBy, a.createdAt)]
  }

  function DoView(v: View, w: Write): View {
    match w
    case EnsureOrg(p) => if v.Absent? then Present(OrganizationOf(p), map[p.org.owner := OwnerRowOf(p)], {}, None)
      else v
    case EnsureMember(_, m) => if v.Absent? then v else v.(members := PutAbsent(v.members, m))
    case EnsureCompany(p) =>
      if v.Absent? || v.company.Some? || p.company.taxId in v.taxIds then v
      else v.(taxIds := v.taxIds + {p.company.taxId}, company := Some(CompanyView(CompanyOf(p), map[])))
    case EnsureActor(_, a) =>
      if v.Absent? || v.company.None? then v
      else v.(company := Some(v.company.value.(edges := PutEdge(v.company.value.edges, a))))
  }

  lemma NewOrgView(db: Db, p: Plan)
    requires IdsTaken(db)
    ensures var t := CreateWithOwner(db, p);
            && MembersUnder(t, db.nextId) == map[p.org.owner := OwnerRowOf(p)]
            && TaxIdsUnder(t, db.nextId) == {}
  {
    var t := CreateWithOwner(db, p);
    forall u ensures u in MembersUnder(t, db.nextId) <==> u == p.org.owner {
      assert u in MembersUnder(t, db.nextId) <==> (db.nextId, u) in t.members;
    }
  }

  lemma MembersElsewhere(members: map<(nat, string), StoredMember>, more: map<(nat, string), StoredMember>, db: Db,
                         t: Db, id: nat)
    requires members == db.members && more == t.members
    requires forall k :: k in members ==> k in more && more[k] == members[k]
    requires forall k :: k in more && k !in members ==> k.0 != id
    ensures MembersUnder(t, id) == MembersUnder(db, id)
  {
    var a, b := MembersUnder(db, id), MembersUnder(t, id);
    assert forall u :: u in a <==> (id, u) in members;
    assert forall u :: u in b <==> (id, u) in more;
  }

  lemma OrgStep(db: Db, p: Plan, ref: string)
    requires Valid(db)
    ensures Valid(Do(db, EnsureOrg(p)))
    ensures ViewOf(Do(db, EnsureOrg(p)), ref) == if ref == p.Ref() then DoView(ViewOf(db, ref), EnsureOrg(p))
            else ViewOf(db, ref)
  {
    DoKeepsValid(db, EnsureOrg(p));
    if p.Ref() !in db.orgIndex {
      var t := CreateWithOwner(db, p);
      NewOrgView(db, p);
      assert p.Ref() !in db.companyIndex;
      if ref in db.orgIndex {
        var id := db.orgIndex[ref];
        assert id in db.orgs && id < db.nextId;
        MembersElsewhere(db.members, t.members, db, t, id);
        hide IdsTaken, OrgIndexOk, CompanyIndexOk, TaxLocksOk, MembersUnder, TaxIdsUnder, EdgesUnder;
        SameElsewhere(db, t, ref);
      }
    }
  }

  /** Views read the tax locks and actor edges only under their own ids. */
  lemma SameElsewhere(db: Db, t: Db, ref: string)
    requires ref in db.orgIndex
    requires t.taxLocks == db.taxLocks && t.actors == db.actors
    requires t.orgIndex == db.orgIndex || (ref in t.orgIndex && t.orgIndex[ref] == db.orgIndex[ref])
    ensures TaxIdsUnder(t, db.orgIndex[ref]) == TaxIdsUnder(db, db.orgIndex[ref])
    ensures forall c :: EdgesUnder(t, db.orgIndex[ref], c) == EdgesUnder(db, db.orgIndex[ref], c)
  {}

  lemma UnderHas(db: Db, id: nat, u: string)
    ensures u in MembersUnder(db, id) <==> (id, u) in db.members
    ensures u in MembersUnder(db, id) ==> MembersUnder(db, id)[u] == db.members[(id, u)]
  {}

  lemma MembersAfterPut(db: Db, org: nat, m: Membership, id: nat)
    ensures MembersUnder(PutMember(db, org, m), id) == if id == org then PutAbsent(MembersUnder(db, id), m)
            else MembersUnder(db, id)
  {
    hide MembersUnder;
    var t := PutMember(db, org, m);
    var left, right := MembersUnder(t, id), if id == org then PutAbsent(MembersUnder(db, id), m)
        else MembersUnder(db, id);
    UnderHas(db, id, m.userId);
    forall u ensures (u in left <==> u in right) && (u in left ==> left[u] == right[u]) {
      UnderHas(db, id, u);
      UnderHas(t, id, u);
    }
    assert left == right;
  }

  lemma MemberStep(db: Db, r: string, m: Membership, ref: string)
    requires Valid(db)
    ensures Valid(Do(db, EnsureMember(r, m)))
    ensures ViewOf(Do(db, EnsureMember(r, m)), ref) == if ref == r then DoView(ViewOf(db, ref), EnsureMember(r, m))
            else ViewOf(db, ref)
  {
    DoKeepsValid(db, EnsureMember(r, m));
    IndexFacts(db, ref, r);
    hide Valid, MembersUnder, TaxIdsUnder, EdgesUnder, PutAbsent;
    if r in db.orgIndex && ref in db.orgIndex {
      MembersAfterPut(db, db.orgIndex[r], m, db.orgIndex[ref]);
      MemberElsewhere(db, db.orgIndex[r], m);
      SameElsewhere(db, PutMember(db, db.orgIndex[r], m), ref);
      hide PutMember;
    }
  }

  lemma MemberElsewhere(db: Db, id: nat, m: Membership)
    ensures var t := PutMember(db, id, m); t.(members := db.members) == db
  {}

  /** Different references have different organizations. */
  lemma IndexFacts(db: Db, a: string, b: string)
    requires Valid(db)
    ensures a in db.orgIndex && b in db.orgIndex ==> (db.orgIndex[a] == db.orgIndex[b] <==> a == b)
    ensures a in db.companyIndex ==>
              a in db.orgIndex && db.companyIndex[a].0 == db.orgIndex[a] && db.companyIndex[a] in db.companies
    ensures a in db.companyIndex ==> db.companyIndex[a].1 < db.nextId
    ensures a in db.orgIndex ==> db.orgIndex[a] in db.orgs && db.orgIndex[a] < db.nextId
  {}

  lemma TaxIdsAfterCreate(db: Db, org: nat, p: Plan, id: nat)
    ensures TaxIdsUnder(CreateCompany(db, org, p), id) ==
            TaxIdsUnder(db, id) + (if id == org then {p.company.taxId} else {})
    ensures (id, p.company.taxId) in db.taxLocks <==> p.company.taxId in TaxIdsUnder(db, id)
  {
    var t := CreateCompany(db, org, p);
    forall x ensures x in TaxIdsUnder(t, id) <==> (id, x) in t.taxLocks {}
    forall x ensures x in TaxIdsUnder(db, id) <==> (id, x) in db.taxLocks {}
  }

  lemma NoEdgesYet(db: Db, org: nat)
    requires IdsTaken(db)
    ensures EdgesUnder(db, org, db.nextId) == map[]
  {}

  lemma CompanyElsewhere(db: Db, org: nat, p: Plan, id: nat, c: nat)
    ensures MembersUnder(CreateCompany(db, org, p), id) == MembersUnder(db, id)
    ensures EdgesUnder(CreateCompany(db, org, p), id, c) == EdgesUnder(db, id, c)
  {}

  lemma CompanyKept(db: Db, p: Plan)
    requires Valid(db) && Do(db, EnsureCompany(p)) == db
    ensures DoView(ViewOf(db, p.Ref()), EnsureCompany(p)) == ViewOf(db, p.Ref())
  {
    hide IdsTaken, OrgIndexOk, CompanyIndexOk, TaxLocksOk, MembersUnder, TaxIdsUnder, EdgesUnder;
    if p.Ref() in db.orgIndex && p.Ref() !in db.companyIndex {
      TaxIdsAfterCreate(db, db.orgIndex[p.Ref()], p, db.orgIndex[p.Ref()]);
      if !TaxIdTaken(db, db.orgIndex[p.Ref()], p) {
        assert false;
      }
    }
  }

  lemma CompanyCreated(db: Db, p: Plan)
    requires Valid(db) && p.Ref() in db.orgIndex && p.Ref() !in db.companyIndex
    requires !TaxIdTaken(db, db.orgIndex[p.Ref()], p)
    requires Valid(CreateCompany(db, db.orgIndex[p.Ref()], p))
    ensures ViewOf(CreateCompany(db, db.orgIndex[p.Ref()], p), p.Ref()) == DoView(ViewOf(db, p.Ref()), EnsureCompany(p))
  {
    hide IdsTaken, OrgIndexOk, CompanyIndexOk, TaxLocksOk, Valid, MembersUnder, TaxIdsUnder, EdgesUnder;
    var org := db.orgIndex[p.Ref()];
    var t := CreateCompany(db, org, p);
    IndexFacts(db, p.Ref(), p.Ref());
    TaxIdsAfterCreate(db, org, p, org);
    CompanyElsewhere(db, org, p, org, db.nextId);
    NoEdges(db, org);
  }

  lemma NoEdges(db: Db, org: nat)
    requires Valid(db)
    ensures EdgesUnder(db, org, db.nextId) == map[]
  {
    NoEdgesYet(db, org);
  }

  lemma CompanyCreatedElsewhere(db: Db, p: Plan, ref: string)
    requires Valid(db) && ref in db.orgIndex && p.Ref() in db.orgIndex && p.Ref() !in db.companyIndex && ref != p.Ref()
    requires Valid(CreateCompany(db, db.orgIndex[p.Ref()], p))
    ensures ViewOf(CreateCompany(db, db.orgIndex[p.Ref()], p), ref) == ViewOf(db, ref)
  {
    hide IdsTaken, OrgIndexOk, CompanyIndexOk, TaxLocksOk, Valid, MembersUnder, TaxIdsUnder, EdgesUnder;
    var org, id := db.orgIndex[p.Ref()], db.orgIndex[ref];
    IndexFacts(db, ref, p.Ref());
    TaxIdsAfterCreate(db, org, p, id);
    CompanyElsewhere(db, org, p, id, if ref in db.companyIndex then db.companyIndex[ref].1 else 0);
    if ref in db.companyIndex {
      assert db.companyIndex[ref].1 != db.nextId;
    }
  }

  lemma CompanyStep(db: Db, p: Plan, ref: string)
    requires Valid(db)
    ensures Valid(Do(db, EnsureCompany(p)))
    ensures ViewOf(Do(db, EnsureCompany(p)), ref) == if ref == p.Ref() then DoView(ViewOf(db, ref), EnsureCompany(p))
            else ViewOf(db, ref)
  {
    DoKeepsValid(db, EnsureCompany(p));
    hide Valid, DoView, CreateCompany;
    if Do(db, EnsureCompany(p)) == db {
      CompanyKept(db, p);
    } else if ref in db.orgIndex {
      if ref == p.Ref() {
        CompanyCreated(db, p);
      } else {
        CompanyCreatedElsewhere(db, p, ref);
      }
    }
  }

  lemma EdgesAfterPut(db: Db, org: nat, company: nat, a: Actor, o: nat, c: nat)
    ensures EdgesUnder(PutActor(db, org, company, a), o, c) ==
            if o == org && c == company then PutEdge(EdgesUnder(db, o, c), a) else EdgesUnder(db, o, c)
  {
    var t := PutActor(db, org, company, a);
    forall u ensures u in EdgesUnder(t, o, c) <==> (o, c, u) in t.actors {}
    forall u ensures u in EdgesUnder(db, o, c) <==> (o, c, u) in db.actors {}
  }

  lemma ActorElsewhere(db: Db, org: nat, company: nat, a: Actor, id: nat)
    ensures MembersUnder(PutActor(db, org, company, a), id) == MembersUnder(db, id)
    ensures TaxIdsUnder(PutActor(db, org, company, a), id) == TaxIdsUnder(db, id)
  {}

  lemma ActorStep(db: Db, r: string, a: Actor, ref: string)
    requires Valid(db)
    ensures Valid(Do(db, EnsureActor(r, a)))
    ensures ViewOf(Do(db, EnsureActor(r, a)), ref) ==
            if ref == r then DoView(ViewOf(db, ref), EnsureActor(r, a)) else ViewOf(db, ref)
  {
    DoKeepsValid(db, EnsureActor(r, a));
    IndexFacts(db, ref, r);
    IndexFacts(db, r, ref);
    hide Valid, MembersUnder, TaxIdsUnder, EdgesUnder, PutEdge;
    if ref in db.orgIndex && r in db.orgIndex && r in db.companyIndex {
      ActorElsewhere(db, db.orgIndex[r], db.companyIndex[r].1, a, db.orgIndex[ref]);
      if ref in db.companyIndex {
        EdgesAfterPut(db, db.orgIndex[r], db.companyIndex[r].1, a, db.orgIndex[ref], db.companyIndex[ref].1);
      }
    }
  }

  lemma ViewStep(db: Db, w: Write, ref: string)
    requires Valid(db)
    ensures Valid(Do(db, w))
    ensures ViewOf(Do(db, w), ref) == if ref == RefOf(w) then DoView(ViewOf(db, ref), w) else ViewOf(db, ref)
  {
    hide Valid, Do, DoView, ViewOf;
    match w
    case EnsureOrg(p) => OrgStep(db, p, ref);
    case EnsureMember(r, m) => MemberStep(db, r, m, ref);
    case EnsureCompany(p) => CompanyStep(db, p, ref);
    case EnsureActor(r, a) => ActorStep(db, r, a, ref);
  }

  predicate BlockedView(v: View, p: Plan) {
    v.Present? && v.company.None? && p.company.taxId in v.taxIds
  }

  lemma BlockedInView(db: Db, p: Plan)
    requires Valid(db)
    ensures Blocked(db, p) <==> BlockedView(ViewOf(db, p.Ref()), p)
  {
    if p.Ref() in db.orgIndex {
      TaxIdsAfterCreate(db, db.orgIndex[p.Ref()], p, db.orgIndex[p.Ref()]);
    }
    hide Valid, MembersUnder, TaxIdsUnder, EdgesUnder, CreateCompany;
  }
}
