/**
 * What the clocks of several runs leave behind: the exact condition under which an import that died can be
 * completed at another clock as if nothing had happened.
 */
module MigrationClock {
  import opened Wrappers
  import opened MigrationPlan
  import opened MigrationRun
  import opened MigrationResume
  import opened MigrationApply
  import Sorting
  import Strings
  import TaxId

  lemma {:induction false} PlanIsListed(orgs: seq<DfeOrg>, rows: map<string, seq<DfeMember>>, users: set<string>,
                                        now: int, i: nat)
    returns (j: nat)
    requires i < |orgs| && PlanFor(orgs[i], RowsOf(rows, orgs[i].pk), users, now).Some?
    ensures j < |Plans(orgs, rows, users, now)|
    ensures Plans(orgs, rows, users, now)[j] == PlanFor(orgs[i], RowsOf(rows, orgs[i].pk), users, now).value
  {
    hide PlanFor, RowsOf;
    var front := orgs[..|orgs| - 1];
    if i < |front| {
      j := PlanIsListed(front, rows, users, now, i);
    } else {
      j := |Plans(front, rows, users, now)|;
    }
  }

  ghost predicate SameAfter(a: Db, b: Db, ws: seq<Write>, ref: string)
    requires Valid(a) && Valid(b)
  {
    RunKeepsValid(a, ws);
    RunKeepsValid(b, ws);
    ViewOf(Run(a, ws), ref) == ViewOf(Run(b, ws), ref)
  }

  /** From db, whatever a run at any clock left, completing the migration at any other clock gives what it
      would have given at once. */
  ghost predicate Resumable(db: Db, orgs: seq<DfeOrg>, rows: map<string, seq<DfeMember>>, users: set<string>)
    requires Valid(db)
  {
    forall after, now, ref :: RanOnce(db, after, orgs, rows, users) && Valid(after) ==>
      SameAfter(after, db, Writes(Plans(orgs, rows, users, now)), ref)
  }

  // ---------------------------------------------------------------- which dates depend on the clock

  /** The first row that makes the user a member. */
  function FirstMemberRow(rows: seq<DfeMember>, users: set<string>, user: string): Option<DfeMember> {
    if rows == [] then None
    else
      var first, last := FirstMemberRow(rows[..|rows| - 1], users, user), rows[|rows| - 1];
      var row := ReadRow(last, users, 0);
      if first.Some? then first else if row.MemberRow? && row.member.userId == user then Some(last) else None
  }

  /** An organization whose date is unreadable leaves nothing to the clock: it is there, so is its company
      unless the tax id is taken, and every planned member who is not there has a readable date. */
  ghost predicate Settled(v: View, org: DfeOrg, rows: seq<DfeMember>, users: set<string>) {
    && v.Present?
    && (v.company.Some? || DocumentOf(org) in v.taxIds)
    && forall user :: user !in v.members ==> DatedMember(rows, users, user)
  }

  function DocumentOf(org: DfeOrg): string {
    var document := TaxId.Normalize(LegacyDocument(org.pk));
    if document.Some? then document.value.0 else ""
  }

  predicate DatedMember(rows: seq<DfeMember>, users: set<string>, user: string) {
    var first := FirstMemberRow(rows, users, user);
    first.Some? ==> first.value.createdAt.Some?
  }

  /** Every planned organization has a readable date or leaves nothing to the clock. */
  ghost predicate Datable(db: Db, orgs: seq<DfeOrg>, rows: map<string, seq<DfeMember>>, users: set<string>)
    requires Valid(db)
  {
    forall i, now :: 0 <= i < |orgs| && PlanFor(orgs[i], RowsOf(rows, orgs[i].pk), users, now).Some? ==>
      orgs[i].createdAt.Some? || Settled(ViewOf(db, orgs[i].pk), orgs[i], RowsOf(rows, orgs[i].pk), users)
  }

  // ---------------------------------------------------------------- members by their first row

  function First(ms: seq<Membership>, user: string): Option<Membership> {
    if ms == [] then None else if ms[0].userId == user then Some(ms[0]) else First(ms[1..], user)
  }

  lemma {:induction false} FirstAppend(a: seq<Membership>, b: seq<Membership>, user: string)
    ensures First(a + b, user) == if First(a, user).Some? then First(a, user) else First(b, user)
  {
    if a == [] {
      assert a + b == b;
    } else {
      FirstAppend(a[1..], b, user);
      assert (a + b)[1..] == a[1..] + b;
    }
  }

  lemma {:induction false} FirstInserted(x: Membership, s: seq<Membership>, user: string)
    ensures First(Sorting.Insert((m: Membership) => m.userId, x, s), user) == if x.userId == user then Some(x)
            else First(s, user)
  {
    hide Strings.LexLe;
    if s == [] || Strings.LexLe(x.userId, s[0].userId) {
      assert ([x] + s)[1..] == s;
    } else {
      FirstInserted(x, s[1..], user);
      var rest := Sorting.Insert((m: Membership) => m.userId, x, s[1..]);
      assert ([s[0]] + rest)[1..] == rest;
      SelfLe(x.userId, s[0].userId);
    }
  }

  lemma SelfLe(a: string, b: string)
    requires !Strings.LexLe(a, b)
    ensures a != b
  {
    Strings.LexLeReflexive(a);
  }

  /** Sorting keeps the first membership of a user first among theirs. */
  lemma {:induction false} FirstSorted(ms: seq<Membership>, user: string)
    ensures First(SortedMembers(ms), user) == First(ms, user)
  {
    if ms != [] {
      FirstSorted(ms[1..], user);
      FirstInserted(ms[0], SortedMembers(ms[1..]), user);
      hide Sorting.Insert;
      assert SortedMembers(ms) == Sorting.Insert((m: Membership) => m.userId, ms[0], SortedMembers(ms[1..]));
    }
  }

  function MemberAt(row: DfeMember, users: set<string>, created: int): Option<Membership> {
    var r := ReadRow(row, users, created);
    if r.MemberRow? then Some(r.member) else None
  }

  lemma {:induction false} FirstOfRows(rows: seq<DfeMember>, users: set<string>, created: int, user: string)
    ensures var first := FirstMemberRow(rows, users, user);
            First(MembersOf(rows, users, created), user) == if first.Some? then MemberAt(first.value, users, created)
              else None
    ensures var first := FirstMemberRow(rows, users, user);
            first.Some? ==> MemberAt(first.value, users, created).Some?
  {
    hide Strings.TrimSpace, MapRole;
    if rows != [] {
      var front, last := rows[..|rows| - 1], rows[|rows| - 1];
      FirstOfRows(front, users, created, user);
      var members, row := MembersOf(front, users, created), ReadRow(last, users, created);
      FirstAppend(members, if row.MemberRow? then [row.member] else [], user);
    }
  }

  /** The first membership of a user is the same at two clocks exactly when its row has a readable date. */
  lemma FirstAtClocks(rows: seq<DfeMember>, users: set<string>, now: int, later: int, user: string)
    ensures var a, b := First(SortedMembers(MembersOf(rows, users, now)), user),
            First(SortedMembers(MembersOf(rows, users, later)), user);
            && (a.Some? <==> b.Some?)
            && (now != later ==> (a == b <==> DatedMember(rows, users, user)))
            && (DatedMember(rows, users, user) ==> a == b)
            && (!DatedMember(rows, users, user) ==>
                a.Some? && b.Some? && a.value.createdAt == now && b.value.createdAt == later)
  {
    FirstSorted(MembersOf(rows, users, now), user);
    FirstSorted(MembersOf(rows, users, later), user);
    FirstOfRows(rows, users, now, user);
    FirstOfRows(rows, users, later, user);
    hide SortedMembers, MembersOf, FirstMemberRow, Strings.TrimSpace, MapRole, First;
  }

  /** The ids of planned members, in order. */
  predicate SameIds(a: seq<Membership>, b: seq<Membership>) {
    |a| == |b| && forall j :: 0 <= j < |a| ==> a[j].userId == b[j].userId
  }

  lemma {:induction false} SameIdsInserted(x: Membership, y: Membership, a: seq<Membership>, b: seq<Membership>)
    requires x.userId == y.userId && SameIds(a, b)
    ensures SameIds(Sorting.Insert((m: Membership) => m.userId, x, a),
                    Sorting.Insert((m: Membership) => m.userId, y, b))
  {
    hide Strings.LexLe;
    if a != [] && !Strings.LexLe(x.userId, a[0].userId) {
      SameIdsInserted(x, y, a[1..], b[1..]);
    }
  }

  lemma {:induction false} SameIdsSorted(a: seq<Membership>, b: seq<Membership>)
    requires SameIds(a, b)
    ensures SameIds(SortedMembers(a), SortedMembers(b))
  {
    if a != [] {
      SameIdsSorted(a[1..], b[1..]);
      SameIdsInserted(a[0], b[0], SortedMembers(a[1..]), SortedMembers(b[1..]));
      hide Sorting.Insert;
      assert SortedMembers(a) == Sorting.Insert((m: Membership) => m.userId, a[0], SortedMembers(a[1..]));
      assert SortedMembers(b) == Sorting.Insert((m: Membership) => m.userId, b[0], SortedMembers(b[1..]));
    }
  }

  lemma {:induction false} SameIdsOfRows(rows: seq<DfeMember>, users: set<string>, now: int, later: int)
    ensures SameIds(MembersOf(rows, users, now), MembersOf(rows, users, later))
  {
    hide Strings.TrimSpace, MapRole;
    if rows != [] {
      SameIdsOfRows(rows[..|rows| - 1], users, now, later);
    }
  }

  // ---------------------------------------------------------------- adding members and actors

  function AsStored(m: Membership): StoredMember {
    StoredMember(m.name, m.role, m.invitedBy, m.createdAt)
  }

  lemma {:induction false} AddAbsentIs(members: map<string, StoredMember>, ms: seq<Membership>, u: string)
    ensures u in AddAbsent(members, ms) <==> u in members || First(ms, u).Some?
    ensures u in members ==> AddAbsent(members, ms)[u] == members[u]
    ensures u !in members && First(ms, u).Some? ==> AddAbsent(members, ms)[u] == AsStored(First(ms, u).value)
  {
    if ms != [] {
      var front, last := ms[..|ms| - 1], ms[|ms| - 1];
      AddAbsentIs(members, front, u);
      FirstAppend(front, [last], u);
      assert ms == front + [last];
      assert First([last], u) == if last.userId == u then Some(last) else None;
    }
  }

  lemma {:induction false} FirstWithin(ms: seq<Membership>, j: nat, u: string)
    requires j <= |ms|
    ensures First(ms[..j], u).Some? ==> First(ms[..j], u) == First(ms, u)
  {
    FirstAppend(ms[..j], ms[j..], u);
    assert ms == ms[..j] + ms[j..];
  }

  lemma {:induction false} SameIdsFirst(a: seq<Membership>, b: seq<Membership>, u: string)
    requires SameIds(a, b)
    ensures First(a, u).Some? <==> First(b, u).Some?
  {
    if a != [] {
      SameIdsFirst(a[1..], b[1..], u);
    }
  }

  /** Two lists that say the same of everybody absent add the same members, as far as they get. */
  lemma SameAdded(members: map<string, StoredMember>, a: seq<Membership>, b: seq<Membership>, j: nat)
    requires SameIds(a, b) && j <= |a|
    requires forall u :: u !in members ==> First(a, u) == First(b, u)
    ensures AddAbsent(members, a[..j]) == AddAbsent(members, b[..j])
  {
    hide First, AddAbsent;
    var left, right := AddAbsent(members, a[..j]), AddAbsent(members, b[..j]);
    assert SameIds(a[..j], b[..j]);
    forall u ensures (u in left <==> u in right) && (u in left ==> left[u] == right[u]) {
      AddAbsentIs(members, a[..j], u);
      AddAbsentIs(members, b[..j], u);
      SameIdsFirst(a[..j], b[..j], u);
      FirstWithin(a, j, u);
      FirstWithin(b, j, u);
    }
  }

  predicate SameActors(a: seq<Actor>, b: seq<Actor>) {
    |a| == |b| && forall j :: 0 <= j < |a| ==> a[j].userId == b[j].userId
  }

  lemma {:induction false} SameActorsOfRows(rows: seq<DfeMember>, now: int, later: int)
    ensures SameActors(ActorsFrom(rows, now), ActorsFrom(rows, later))
  {
    hide Strings.TrimSpace;
    if rows != [] {
      SameActorsOfRows(rows[..|rows| - 1], now, later);
    }
  }

  lemma SameActorsListed(a: seq<Actor>, b: seq<Actor>, u: string)
    requires SameActors(a, b)
    ensures MigrationResume.Listed(a, u) ==> MigrationResume.Listed(b, u)
    ensures Acts(a, u) ==> Acts(b, u)
  {
    if MigrationResume.Listed(a, u) {
      var i :| 0 <= i < |a| && a[i].userId == u;
      assert b[i].userId == u;
    }
    if Acts(a, u) {
      var i :| 0 <= i < |a| && a[i].userId == u;
      assert b[i].userId == u;
    }
  }

  /** Edges of the same actors, put in part at one clock and then in full at another. */
  lemma EdgesOverwritten(edges: map<string, Edge>, a: seq<Actor>, b: seq<Actor>, k: nat)
    requires SameActors(a, b) && k <= |a|
    ensures AddEdges(AddEdges(edges, a[..k]), b) == AddEdges(edges, b)
  {
    hide AddEdges;
    var part := AddEdges(edges, a[..k]);
    forall u ensures AgreeAt(AddEdges(part, b), AddEdges(edges, b), u) {
      if !MigrationResume.Listed(b, u) {
        if MigrationResume.Listed(a, u) {
          SameActorsListed(a, b, u);
        }
        ListedPrefix(a, k, u);
        EdgesElsewhere(edges, a[..k], u);
      }
      EdgesSettle(part, edges, b, u);
    }
    SameEdges(AddEdges(part, b), AddEdges(edges, b));
  }

  // ---------------------------------------------------------------- two plans of one organization

  /** The plans of one organization at two clocks, as far as the run can tell them apart in this view. */
  ghost predicate Interchangeable(v: View, p: Plan, q: Plan) {
    && v.Present? && SameIds(p.org.members, q.org.members) && SameActors(p.company.actors, q.company.actors)
    && (v.company.Some? || (p.company.taxId in v.taxIds && q.company.taxId in v.taxIds))
    && forall u :: u !in v.members ==> First(p.org.members, u) == First(q.org.members, u)
  }

  /** A pass of the one that stopped anywhere, then a complete pass of the other. */
  lemma OneThenOther(v: View, p: Plan, q: Plan, k: nat)
    requires Interchangeable(v, p, q) && k <= |PlanWrites(p)|
    ensures After(After(v, p, k), q, |PlanWrites(q)|) == After(v, q, |PlanWrites(q)|)
  {
    hide PlanWrites, AddAbsent, AddEdges, First;
    PrefixOf(p, 0);
    PrefixOf(q, 0);
    var n := |p.org.members|;
    var ms, actors := q.org.members, q.company.actors;
    assert ms[..n] == ms && p.org.members[..n] == p.org.members && actors[..|actors|] == actors;
    if k == 0 {
    } else if k <= n + 1 {
      SameAdded(v.members, p.org.members, ms, k - 1);
      AbsorbMembers(v.members, ms, k - 1, n);
    } else {
      SameAdded(v.members, p.org.members, ms, n);
      AbsorbMembers(v.members, ms, n, n);
      if v.company.Some? {
        EdgesOverwritten(v.company.value.edges, p.company.actors, actors, k - n - 2);
      }
    }
  }

  /** What a complete pass leaves of dates: the organization's and the company's, and each member's. */
  lemma DatesAfter(v: View, p: Plan)
    ensures var t := After(v, p, |PlanWrites(p)|);
            && t.Present?
            && t.organization == (if v.Present? then v.organization else OrganizationOf(p))
            && t.members == AddAbsent(WithOrg(v, p).members, p.org.members)
            && t.taxIds >= WithOrg(v, p).taxIds
            && (v.Present? && v.company.Some? ==> t.company.Some? && t.company.value.company == v.company.value.company)
            && (v.Present? && v.company.None? && p.company.taxId !in v.taxIds ==>
                t.company.Some? && t.company.value.company == CompanyOf(p))
  {
    hide PlanWrites, AddAbsent, AddEdges;
    PrefixOf(p, 0);
  }

  lemma SamePlannedActors(rows: seq<DfeMember>, d: Decision, e: Decision)
    requires d.owner == e.owner
    ensures SameActors(PlannedActors(rows, d), PlannedActors(rows, e))
  {
    SameActorsOfRows(rows, d.createdAt, e.createdAt);
    SameActorsOfRows(rows, e.createdAt, d.createdAt);
    var a, b := ActorsFrom(rows, d.createdAt), ActorsFrom(rows, e.createdAt);
    SameActorsListed(a, b, d.owner);
    SameActorsListed(b, a, d.owner);
    hide ActorsFrom, Acts;
  }

  /** What the plans of one unreadable organization have in common at two clocks, and where the clock shows. */
  lemma UnreadableAtClocks(org: DfeOrg, rows: seq<DfeMember>, users: set<string>, now: int, later: int)
    requires org.createdAt.None? && PlanFor(org, rows, users, now).Some?
    ensures PlanFor(org, rows, users, later).Some?
    ensures var p, q := PlanFor(org, rows, users, now).value, PlanFor(org, rows, users, later).value;
            && p.Ref() == q.Ref() == org.pk && p.company.taxId == q.company.taxId == DocumentOf(org)
            && SameIds(p.org.members, q.org.members) && SameActors(p.company.actors, q.company.actors)
            && OrganizationOf(p).createdAt == CompanyOf(p).createdAt == now
            && OrganizationOf(q).createdAt == CompanyOf(q).createdAt == later
            && p.org.members == SortedMembers(MembersOf(rows, users, now))
            && q.org.members == SortedMembers(MembersOf(rows, users, later))
  {
    PlannedAtAnyClock(org, rows, users, now, later);
    SameIdsOfRows(rows, users, now, later);
    SameIdsSorted(MembersOf(rows, users, now), MembersOf(rows, users, later));
    var p, q := PlanFor(org, rows, users, now).value, PlanFor(org, rows, users, later).value;
    PlanParts(org, rows, users, now);
    PlanParts(org, rows, users, later);
    hide PlanFor, SortedMembers, MembersOf, TaxId.Normalize, LegacyDocument, PlannedActors;
    SamePlannedActors(rows, ActorDecision(org, rows, users, now), ActorDecision(org, rows, users, later));
  }

  /** The organization's half of its plan, as the company's half is computed from it. */
  function ActorDecision(org: DfeOrg, rows: seq<DfeMember>, users: set<string>, now: int): Decision {
    var created := Or(org.createdAt, now);
    Decision(org.pk, Strings.TrimSpace(org.name), Strings.TrimSpace(org.ownerUserId), created,
             LastName(OwnersOf(rows, users, created)), true, [], [], SortedMembers(MembersOf(rows, users, created)))
  }

  lemma PlanParts(org: DfeOrg, rows: seq<DfeMember>, users: set<string>, now: int)
    requires PlanFor(org, rows, users, now).Some?
    ensures var p := PlanFor(org, rows, users, now).value;
            && p.org == ActorDecision(org, rows, users, now)
            && p.company.taxId == DocumentOf(org) && p.company.createdAt == p.org.createdAt
            && p.company.actors == PlannedActors(rows, ActorDecision(org, rows, users, now))
  {
    hide Strings.TrimSpace, TaxId.Normalize, PlannedActors, SortedMembers, MembersOf, OwnersOf, LastName, Clear,
      LegacyDocument;
  }

  lemma SettledIsInterchangeable(v: View, org: DfeOrg, rows: seq<DfeMember>, users: set<string>, now: int, later: int)
    requires org.createdAt.None? && PlanFor(org, rows, users, now).Some? && PlanFor(org, rows, users, later).Some?
    requires Settled(v, org, rows, users)
    ensures Interchangeable(v, PlanFor(org, rows, users, now).value, PlanFor(org, rows, users, later).value)
  {
    UnreadableAtClocks(org, rows, users, now, later);
    hide PlanFor, SortedMembers, MembersOf, First, DocumentOf, DatedMember;
    forall u | u !in v.members
      ensures First(SortedMembers(MembersOf(rows, users, now)), u) ==
              First(SortedMembers(MembersOf(rows, users, later)), u)
    {
      FirstAtClocks(rows, users, now, later, u);
    }
  }

  /** Where an unreadable organization is not settled, the first of two complete passes shows. */
  lemma ClockShows(v: View, org: DfeOrg, rows: seq<DfeMember>, users: set<string>, now: int, later: int)
    requires org.createdAt.None? && PlanFor(org, rows, users, now).Some? && PlanFor(org, rows, users, later).Some?
    requires now != later && !Settled(v, org, rows, users)
    ensures var p, q := PlanFor(org, rows, users, now).value, PlanFor(org, rows, users, later).value;
            After(After(v, p, |PlanWrites(p)|), q, |PlanWrites(q)|) != After(v, q, |PlanWrites(q)|)
  {
    UnreadableAtClocks(org, rows, users, now, later);
    var p, q := PlanFor(org, rows, users, now).value, PlanFor(org, rows, users, later).value;
    var once := After(v, p, |PlanWrites(p)|);
    DatesAfter(v, p);
    DatesAfter(once, q);
    DatesAfter(v, q);
    hide After, PlanWrites, AddAbsent, SortedMembers, MembersOf, PlanFor, First, DocumentOf, DatedMember;
    if v.Present? && (v.company.Some? || DocumentOf(org) in v.taxIds) {
      var u :| u !in v.members && !DatedMember(rows, users, u);
      FirstAtClocks(rows, users, now, later, u);
      AddAbsentIs(v.members, p.org.members, u);
      AddAbsentIs(once.members, q.org.members, u);
      AddAbsentIs(v.members, q.org.members, u);
      assert once.members[u].createdAt == now;
    }
  }

  // ---------------------------------------------------------------- whole runs at two clocks

  lemma CompleteView(db: Db, plans: seq<Plan>, j: nat)
    requires Valid(db) && DistinctRefs(plans) && j < |plans|
    ensures Valid(Run(db, Writes(plans)))
    ensures ViewOf(Run(db, Writes(plans)), plans[j].Ref()) ==
            After(ViewOf(db, plans[j].Ref()), plans[j], |PlanWrites(plans[j])|)
  {
    hide Valid, ViewOf, Run, RunView, For, PlanWrites, Writes, After;
    var p := plans[j];
    ViewOfRun(db, Writes(plans), p.Ref());
    ForPlan(plans, j);
    assert PlanWrites(p)[..|PlanWrites(p)|] == PlanWrites(p);
    RunPrefix(ViewOf(db, p.Ref()), p, |PlanWrites(p)|);
  }

  lemma PartialView(db: Db, plans: seq<Plan>, j: nat, k: nat) returns (m: nat)
    requires Valid(db) && DistinctRefs(plans) && j < |plans| && k <= |Writes(plans)|
    ensures Valid(Run(db, Writes(plans)[..k])) && m <= |PlanWrites(plans[j])|
    ensures ViewOf(Run(db, Writes(plans)[..k]), plans[j].Ref()) == After(ViewOf(db, plans[j].Ref()), plans[j], m)
  {
    hide Valid, ViewOf, Run, RunView, For, PlanWrites, Writes, After;
    var p := plans[j];
    ViewOfRun(db, Writes(plans)[..k], p.Ref());
    ForPlan(plans, j);
    ForPrefix(Writes(plans), k, p.Ref());
    var part := For(Writes(plans)[..k], p.Ref());
    PrefixIsPrefix(part, PlanWrites(p));
    m := |part|;
    RunPrefix(ViewOf(db, p.Ref()), p, m);
  }

  lemma ViewUntouched(db: Db, plans: seq<Plan>, k: nat, ref: string)
    requires Valid(db) && k <= |Writes(plans)| && forall j :: 0 <= j < |plans| ==> plans[j].Ref() != ref
    ensures Valid(Run(db, Writes(plans)[..k])) && ViewOf(Run(db, Writes(plans)[..k]), ref) == ViewOf(db, ref)
  {
    hide Valid, ViewOf, Run, RunView, For, PlanWrites, Writes;
    ViewOfRun(db, Writes(plans)[..k], ref);
    ForNoPlan(plans, ref);
    ForPrefix(Writes(plans), k, ref);
    PrefixIsPrefix(For(Writes(plans)[..k], ref), []);
    RunNothing(ViewOf(db, ref));
  }

  lemma NobodysRef(orgs: seq<DfeOrg>, rows: map<string, seq<DfeMember>>, users: set<string>, now: int, ref: string)
    requires forall i :: 0 <= i < |orgs| && PlanFor(orgs[i], RowsOf(rows, orgs[i].pk), users, now).Some? ==>
               orgs[i].pk != ref
    ensures forall j :: 0 <= j < |Plans(orgs, rows, users, now)| ==> Plans(orgs, rows, users, now)[j].Ref() != ref
  {
    hide PlanFor, RowsOf, Plans;
    forall j | 0 <= j < |Plans(orgs, rows, users, now)| ensures Plans(orgs, rows, users, now)[j].Ref() != ref {
      var i := PlansComeFromOrgs(orgs, rows, users, now, j);
    }
  }

  /** One planned organization, over a run at one clock that stopped and a complete run at another. */
  lemma PlannedResumes(db: Db, orgs: seq<DfeOrg>, rows: map<string, seq<DfeMember>>, users: set<string>, i: nat,
                       clock: int, k: nat, now: int)
    requires Valid(db) && DistinctKeys(orgs) && i < |orgs| && k <= |Writes(Plans(orgs, rows, users, clock))|
    requires PlanFor(orgs[i], RowsOf(rows, orgs[i].pk), users, now).Some?
    requires orgs[i].createdAt.Some? || Settled(ViewOf(db, orgs[i].pk), orgs[i], RowsOf(rows, orgs[i].pk), users)
    ensures var after := Run(db, Writes(Plans(orgs, rows, users, clock))[..k]);
            Valid(after) && SameAfter(after, db, Writes(Plans(orgs, rows, users, now)), orgs[i].pk)
  {
    hide Valid, ViewOf, Run, Writes, Plans, PlanFor, RowsOf, After, PlanWrites, Settled, Interchangeable, DistinctKeys,
      DistinctRefs;
    var org, page := orgs[i], RowsOf(rows, orgs[i].pk);
    PlannedAtAnyClock(org, page, users, now, clock);
    PlannedAtAnyClock(org, page, users, clock, now);
    PlansAreDistinct(orgs, rows, users, clock);
    PlansAreDistinct(orgs, rows, users, now);
    var a := PlanIsListed(orgs, rows, users, clock, i);
    var b := PlanIsListed(orgs, rows, users, now, i);
    var first, second := Plans(orgs, rows, users, clock), Plans(orgs, rows, users, now);
    var m := PartialView(db, first, a, k);
    var after := Run(db, Writes(first)[..k]);
    CompleteView(after, second, b);
    CompleteView(db, second, b);
    var v := ViewOf(db, org.pk);
    if org.createdAt.Some? {
      AfterTwice(v, first[a], m);
    } else {
      SettledIsInterchangeable(v, org, page, users, clock, now);
      OneThenOther(v, first[a], second[b], m);
    }
  }

  lemma RefResumes(db: Db, orgs: seq<DfeOrg>, rows: map<string, seq<DfeMember>>, users: set<string>, clock: int, k: nat,
                   now: int, ref: string)
    requires Valid(db) && DistinctKeys(orgs) && Datable(db, orgs, rows, users)
    requires k <= |Writes(Plans(orgs, rows, users, clock))|
    ensures var after := Run(db, Writes(Plans(orgs, rows, users, clock))[..k]);
            Valid(after) && SameAfter(after, db, Writes(Plans(orgs, rows, users, now)), ref)
  {
    hide Valid, ViewOf, Run, Writes, Plans, PlanFor, RowsOf, Settled, DistinctKeys;
    if i :| 0 <= i < |orgs| && PlanFor(orgs[i], RowsOf(rows, orgs[i].pk), users, now).Some? && orgs[i].pk == ref {
      PlannedResumes(db, orgs, rows, users, i, clock, k, now);
    } else {
      hide Datable;
      forall i | 0 <= i < |orgs| && PlanFor(orgs[i], RowsOf(rows, orgs[i].pk), users, clock).Some?
        ensures orgs[i].pk != ref {
        PlannedAtAnyClock(orgs[i], RowsOf(rows, orgs[i].pk), users, clock, now);
      }
      NobodysRef(orgs, rows, users, now, ref);
      NobodysRef(orgs, rows, users, clock, ref);
      UntouchedResumes(db, Plans(orgs, rows, users, clock), Plans(orgs, rows, users, now), k, ref);
    }
  }

  lemma UntouchedResumes(db: Db, first: seq<Plan>, second: seq<Plan>, k: nat, ref: string)
    requires Valid(db) && k <= |Writes(first)|
    requires forall j :: 0 <= j < |first| ==> first[j].Ref() != ref
    requires forall j :: 0 <= j < |second| ==> second[j].Ref() != ref
    ensures Valid(Run(db, Writes(first)[..k])) && SameAfter(Run(db, Writes(first)[..k]), db, Writes(second), ref)
  {
    hide Valid, ViewOf, Run, Writes;
    ViewUntouched(db, first, k, ref);
    assert Writes(second)[..|Writes(second)|] == Writes(second);
    ViewUntouched(db, second, |Writes(second)|, ref);
    ViewUntouched(Run(db, Writes(first)[..k]), second, |Writes(second)|, ref);
  }

  lemma UnsettledShows(db: Db, orgs: seq<DfeOrg>, rows: map<string, seq<DfeMember>>, users: set<string>, i: nat,
                       now: int, later: int)
    requires Valid(db) && DistinctKeys(orgs) && i < |orgs| && now != later && orgs[i].createdAt.None?
    requires PlanFor(orgs[i], RowsOf(rows, orgs[i].pk), users, now).Some?
    requires !Settled(ViewOf(db, orgs[i].pk), orgs[i], RowsOf(rows, orgs[i].pk), users)
    ensures var after := Run(db, Writes(Plans(orgs, rows, users, now)));
            Valid(after) && RanOnce(db, after, orgs, rows, users)
              && !SameAfter(after, db, Writes(Plans(orgs, rows, users, later)), orgs[i].pk)
  {
    hide Valid, ViewOf, Run, Writes, Plans, PlanFor, RowsOf, After, PlanWrites, Settled, DistinctKeys, DistinctRefs;
    var org, page := orgs[i], RowsOf(rows, orgs[i].pk);
    PlannedAtAnyClock(org, page, users, now, later);
    PlannedAtAnyClock(org, page, users, later, now);
    PlansAreDistinct(orgs, rows, users, now);
    PlansAreDistinct(orgs, rows, users, later);
    var a := PlanIsListed(orgs, rows, users, now, i);
    var b := PlanIsListed(orgs, rows, users, later, i);
    var first, second := Plans(orgs, rows, users, now), Plans(orgs, rows, users, later);
    var after := Run(db, Writes(first));
    CompleteView(db, first, a);
    CompleteView(after, second, b);
    CompleteView(db, second, b);
    ClockShows(ViewOf(db, org.pk), org, page, users, now, later);
    assert Writes(first)[..|Writes(first)|] == Writes(first);
    PartlyAt(db, after, Writes(first), |Writes(first)|);
  }

  /** The exact condition for resuming, from any valid database: every planned organization has a readable
      creation date, or leaves nothing to the clock. */
  lemma ResumableIff(db: Db, orgs: seq<DfeOrg>, rows: map<string, seq<DfeMember>>, users: set<string>)
    requires Valid(db) && DistinctKeys(orgs)
    ensures Resumable(db, orgs, rows, users) <==> Datable(db, orgs, rows, users)
  {
    hide Valid, ViewOf, Run, Writes, Plans, PlanFor, RowsOf, SameAfter, Settled, DistinctKeys;
    if Datable(db, orgs, rows, users) {
      forall after, now, ref | RanOnce(db, after, orgs, rows, users) && Valid(after)
        ensures SameAfter(after, db, Writes(Plans(orgs, rows, users, now)), ref)
      {
        var clock :| Partly(db, after, Writes(Plans(orgs, rows, users, clock)));
        var ws := Writes(Plans(orgs, rows, users, clock));
        var k :| 0 <= k <= |ws| && after == Run(db, ws[..k]);
        RefResumes(db, orgs, rows, users, clock, k, now, ref);
      }
    } else {
      var i, now :| 0 <= i < |orgs| && PlanFor(orgs[i], RowsOf(rows, orgs[i].pk), users, now).Some?
                    && orgs[i].createdAt.None?
                       && !Settled(ViewOf(db, orgs[i].pk), orgs[i], RowsOf(rows, orgs[i].pk), users);
      UnsettledShows(db, orgs, rows, users, i, now, now + 1);
      var after := Run(db, Writes(Plans(orgs, rows, users, now)));
      assert !SameAfter(after, db, Writes(Plans(orgs, rows, users, now + 1)), orgs[i].pk);
    }
  }

  /** For a first import only the dates of the planned organizations matter. */
  lemma FirstImportResumableIff(db: Db, orgs: seq<DfeOrg>, rows: map<string, seq<DfeMember>>, users: set<string>)
    requires Valid(db) && DistinctKeys(orgs) && forall i :: 0 <= i < |orgs| ==> orgs[i].pk !in db.orgIndex
    ensures Resumable(db, orgs, rows, users) <==> ReadableDates(orgs, rows, users)
  {
    ResumableIff(db, orgs, rows, users);
    forall i | 0 <= i < |orgs| ensures ViewOf(db, orgs[i].pk).Absent? {}
    hide Valid, ViewOf, PlanFor, RowsOf, Resumable, DatedMember, DocumentOf;
  }
}
