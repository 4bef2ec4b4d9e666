/**
 * Resuming the migration: any number of runs that died at any write, followed by a complete run,
 * leave what one uninterrupted run leaves, up to the generated ids.
 */
module MigrationResume {
  import opened Wrappers
  import opened MigrationPlan
  import opened MigrationRun

  function RunView(v: View, ws: seq<Write>): View {
    if ws == [] then v else DoView(RunView(v, ws[..|ws| - 1]), ws[|ws| - 1])
  }

  /** The writes that concern one source reference. */
  function For(ws: seq<Write>, ref: string): seq<Write> {
    if ws == [] then []
    else For(ws[..|ws| - 1], ref) + (if RefOf(ws[|ws| - 1]) == ref then [ws[|ws| - 1]] else [])
  }

  lemma {:induction false} ViewOfRun(db: Db, ws: seq<Write>, ref: string)
    requires Valid(db)
    ensures Valid(Run(db, ws))
    ensures ViewOf(Run(db, ws), ref) == RunView(ViewOf(db, ref), For(ws, ref))
  {
    hide Valid, ViewOf, Do, DoView;
    if ws != [] {
      var front, last := ws[..|ws| - 1], ws[|ws| - 1];
      ViewOfRun(db, front, ref);
      ViewStep(Run(db, front), last, ref);
      if RefOf(last) == ref {
        assert (For(front, ref) + [last])[..|For(front, ref)|] == For(front, ref);
      } else {
        assert For(ws, ref) == For(front, ref);
      }
    }
  }

  lemma {:induction false} ForAppend(a: seq<Write>, b: seq<Write>, ref: string)
    ensures For(a + b, ref) == For(a, ref) + For(b, ref)
  {
    if b == [] {
      assert a + b == a;
    } else {
      ForAppend(a, b[..|b| - 1], ref);
      assert (a + b)[..|a + b| - 1] == a + b[..|b| - 1];
    }
  }

  lemma {:induction false} ForAll(ws: seq<Write>, ref: string)
    requires forall w :: w in ws ==> RefOf(w) == ref
    ensures For(ws, ref) == ws
  {
    if ws != [] {
      ForAll(ws[..|ws| - 1], ref);
      assert ws == ws[..|ws| - 1] + [ws[|ws| - 1]];
    }
  }

  lemma {:induction false} ForNone(ws: seq<Write>, ref: string)
    requires forall w :: w in ws ==> RefOf(w) != ref
    ensures For(ws, ref) == []
  {
    if ws != [] {
      ForNone(ws[..|ws| - 1], ref);
    }
  }

  lemma ForPrefix(ws: seq<Write>, k: nat, ref: string)
    requires k <= |ws|
    ensures For(ws[..k], ref) <= For(ws, ref)
  {
    ForAppend(ws[..k], ws[k..], ref);
    assert ws == ws[..k] + ws[k..];
  }

  ghost predicate DistinctRefs(plans: seq<Plan>) {
    forall i, j :: 0 <= i < j < |plans| ==> plans[i].Ref() != plans[j].Ref()
  }

  function PlanWrites(p: Plan): seq<Write> {
    OrgWrites(p) + CompanyWrites(p)
  }

  lemma PlanWritesRef(p: Plan, ref: string)
    ensures For(PlanWrites(p), ref) == if p.Ref() == ref then PlanWrites(p) else []
  {
    if p.Ref() == ref {
      ForAll(PlanWrites(p), ref);
    } else {
      ForNone(PlanWrites(p), ref);
    }
  }

  lemma WritesOneMore(plans: seq<Plan>, ref: string)
    requires plans != []
    ensures For(Writes(plans), ref) == For(Writes(plans[..|plans| - 1]), ref)
                                       + (if plans[|plans| - 1].Ref() == ref then PlanWrites(plans[|plans| - 1])
                                          else [])
  {
    hide OrgWrites, CompanyWrites, For;
    var front, last := plans[..|plans| - 1], plans[|plans| - 1];
    PlanWritesRef(last, ref);
    ForAppend(Writes(front), PlanWrites(last), ref);
    assert Writes(plans) == Writes(front) + PlanWrites(last);
  }

  lemma {:induction false} ForNoPlan(plans: seq<Plan>, ref: string)
    requires forall i :: 0 <= i < |plans| ==> plans[i].Ref() != ref
    ensures For(Writes(plans), ref) == []
  {
    if plans != [] {
      WritesOneMore(plans, ref);
      hide For, Writes, PlanWrites;
      ForNoPlan(plans[..|plans| - 1], ref);
    }
  }

  /** Each source reference sees only its own plan's writes. */
  lemma {:induction false} ForPlan(plans: seq<Plan>, i: nat)
    requires DistinctRefs(plans) && i < |plans|
    ensures For(Writes(plans), plans[i].Ref()) == PlanWrites(plans[i])
  {
    hide For, Writes, PlanWrites;
    var front := plans[..|plans| - 1];
    WritesOneMore(plans, plans[i].Ref());
    if i < |front| {
      assert front[i] == plans[i];
      ForPlan(front, i);
    } else {
      ForNoPlan(front, plans[i].Ref());
    }
  }

  lemma {:induction false} RunViewAppend(v: View, a: seq<Write>, b: seq<Write>)
    ensures RunView(v, a + b) == RunView(RunView(v, a), b)
  {
    hide DoView;
    if b == [] {
      assert a + b == a;
    } else {
      RunViewAppend(v, a, b[..|b| - 1]);
      assert (a + b)[..|a + b| - 1] == a + b[..|b| - 1];
    }
  }

  // ---------------------------------------------------------------- writing one plan twice

  function AddAbsent(members: map<string, StoredMember>, ms: seq<Membership>): map<string, StoredMember> {
    if ms == [] then members else PutAbsent(AddAbsent(members, ms[..|ms| - 1]), ms[|ms| - 1])
  }

  function AddEdges(edges: map<string, Edge>, actors: seq<Actor>): map<string, Edge> {
    if actors == [] then edges else PutEdge(AddEdges(edges, actors[..|actors| - 1]), actors[|actors| - 1])
  }

  predicate Extends(a: map<string, StoredMember>, b: map<string, StoredMember>) {
    forall u :: u in a ==> u in b && b[u] == a[u]
  }

  /** Memberships that are there stay as they are, and the listed ones are there afterwards. */
  lemma {:induction false} AddAbsentKeeps(members: map<string, StoredMember>, ms: seq<Membership>, k: nat)
    requires k <= |ms|
    ensures Extends(members, AddAbsent(members, ms))
    ensures forall i :: 0 <= i < |ms| ==> ms[i].userId in AddAbsent(members, ms)
    ensures Extends(AddAbsent(members, ms[..k]), AddAbsent(members, ms))
  {
    if k < |ms| {
      AddAbsentKeeps(members, ms[..|ms| - 1], k);
      assert ms[..|ms| - 1][..k] == ms[..k];
    } else {
      assert ms[..k] == ms;
      if ms != [] {
        AddAbsentKeeps(members, ms[..|ms| - 1], k - 1);
        forall i | 0 <= i < |ms| - 1 ensures ms[i].userId in AddAbsent(members, ms) {
          assert ms[..|ms| - 1][i] == ms[i];
        }
      }
    }
  }

  /** Adding a part first and then the whole list is adding the whole list. */
  lemma {:induction false} AbsorbMembers(members: map<string, StoredMember>, ms: seq<Membership>, k: nat, j: nat)
    requires k <= |ms| && j <= |ms|
    ensures AddAbsent(AddAbsent(members, ms[..k]), ms[..j]) ==
            if j <= k then AddAbsent(members, ms[..k]) else AddAbsent(members, ms[..j])
  {
    if j > 0 {
      AbsorbMembers(members, ms, k, j - 1);
      assert ms[..j][..j - 1] == ms[..j - 1];
      if j <= k {
        AddAbsentKeeps(members, ms[..k], k);
        assert ms[..k][j - 1] == ms[j - 1];
      } else if j - 1 == k {
        assert ms[..j - 1] == ms[..k];
      }
    } else {
      assert ms[..0] == [];
    }
  }

  predicate AgreeAt(a: map<string, Edge>, b: map<string, Edge>, u: string) {
    (u in a <==> u in b) && (u in a ==> a[u] == b[u])
  }

  predicate Listed(actors: seq<Actor>, u: string) {
    exists i :: 0 <= i < |actors| && actors[i].userId == u
  }

  /** Putting the listed edges settles them, whatever they were. */
  lemma {:induction false} EdgesSettle(a: map<string, Edge>, b: map<string, Edge>, actors: seq<Actor>, u: string)
    requires AgreeAt(a, b, u) || Listed(actors, u)
    ensures AgreeAt(AddEdges(a, actors), AddEdges(b, actors), u)
  {
    if actors != [] {
      var front := actors[..|actors| - 1];
      if actors[|actors| - 1].userId != u {
        if Listed(actors, u) {
          var i :| 0 <= i < |actors| && actors[i].userId == u;
          assert front[i] == actors[i];
        }
        EdgesSettle(a, b, front, u);
      }
    }
  }

  lemma {:induction false} EdgesElsewhere(edges: map<string, Edge>, actors: seq<Actor>, u: string)
    requires !Listed(actors, u)
    ensures AgreeAt(AddEdges(edges, actors), edges, u)
  {
    if actors != [] {
      var front := actors[..|actors| - 1];
      assert actors[|actors| - 1].userId != u;
      assert forall i :: 0 <= i < |front| ==> front[i] == actors[i];
      EdgesElsewhere(edges, front, u);
    }
  }

  lemma ListedPrefix(actors: seq<Actor>, k: nat, u: string)
    requires k <= |actors| && !Listed(actors, u)
    ensures !Listed(actors[..k], u)
  {
    forall i | 0 <= i < k ensures actors[..k][i].userId != u {
      assert actors[..k][i] == actors[i];
    }
  }

  lemma AbsorbEdges(edges: map<string, Edge>, actors: seq<Actor>, k: nat)
    requires k <= |actors|
    ensures AddEdges(AddEdges(edges, actors[..k]), actors) == AddEdges(edges, actors)
  {
    var part := AddEdges(edges, actors[..k]);
    forall u ensures AgreeAt(AddEdges(part, actors), AddEdges(edges, actors), u) {
      if !Listed(actors, u) {
        ListedPrefix(actors, k, u);
        EdgesElsewhere(edges, actors[..k], u);
      }
      EdgesSettle(part, edges, actors, u);
    }
    SameEdges(AddEdges(part, actors), AddEdges(edges, actors));
  }

  lemma SameEdges(a: map<string, Edge>, b: map<string, Edge>)
    requires forall u :: AgreeAt(a, b, u)
    ensures a == b
  {
    forall u ensures (u in a <==> u in b) && (u in a ==> a[u] == b[u]) {
      assert AgreeAt(a, b, u);
    }
  }

  // ---------------------------------------------------------------- one plan's writes in closed form

  function WithOrg(v: View, p: Plan): (r: View)
    ensures r.Present?
  {
    DoView(v, EnsureOrg(p))
  }

  function WithMembers(v: View, ms: seq<Membership>): View
    requires v.Present?
  {
    v.(members := AddAbsent(v.members, ms))
  }

  function WithEdges(v: View, actors: seq<Actor>): View
    requires v.Present?
  {
    if v.company.None? then v
      else v.(company := Some(v.company.value.(edges := AddEdges(v.company.value.edges, actors))))
  }

  function WithCompany(v: View, p: Plan): (r: View)
    ensures r.Present?
  {
    DoView(WithMembers(WithOrg(v, p), p.org.members), EnsureCompany(p))
  }

  function MemberWrites(ref: string, ms: seq<Membership>): seq<Write> {
    seq(|ms|, i requires 0 <= i < |ms| => EnsureMember(ref, ms[i]))
  }

  function ActorWrites(ref: string, actors: seq<Actor>): seq<Write> {
    seq(|actors|, i requires 0 <= i < |actors| => EnsureActor(ref, actors[i]))
  }

  lemma {:induction false} RunMembers(v: View, ref: string, ms: seq<Membership>)
    requires v.Present?
    ensures RunView(v, MemberWrites(ref, ms)) == WithMembers(v, ms)
  {
    if ms != [] {
      RunMembers(v, ref, ms[..|ms| - 1]);
      assert MemberWrites(ref, ms)[..|ms| - 1] == MemberWrites(ref, ms[..|ms| - 1]);
    }
  }

  lemma {:induction false} RunActors(v: View, ref: string, actors: seq<Actor>)
    requires v.Present?
    ensures RunView(v, ActorWrites(ref, actors)) == WithEdges(v, actors)
  {
    if actors != [] {
      RunActors(v, ref, actors[..|actors| - 1]);
      assert ActorWrites(ref, actors)[..|actors| - 1] == ActorWrites(ref, actors[..|actors| - 1]);
    }
  }

  /** The view after the first k writes of a plan. */
  function After(v: View, p: Plan, k: nat): View
    requires k <= |PlanWrites(p)|
  {
    var n := |p.org.members|;
    if k == 0 then v
    else if k <= n + 1 then WithMembers(WithOrg(v, p), p.org.members[..k - 1])
    else WithEdges(WithCompany(v, p), p.company.actors[..k - n - 2])
  }

  lemma PrefixOf(p: Plan, k: nat)
    requires k <= |PlanWrites(p)|
    ensures |PlanWrites(p)| == |p.org.members| + |p.company.actors| + 2
    ensures var n := |p.org.members|;
            PlanWrites(p)[..k] ==
              if k == 0 then []
              else if k <= n + 1 then [EnsureOrg(p)] + MemberWrites(p.Ref(), p.org.members[..k - 1])
              else
                [EnsureOrg(p)] + MemberWrites(p.Ref(), p.org.members) + [EnsureCompany(p)]
                + ActorWrites(p.Ref(), p.company.actors[..k - n - 2])
  {}

  lemma RunOne(v: View, w: Write)
    ensures RunView(v, [w]) == DoView(v, w)
  {
    hide DoView;
    assert [w][..0] == [];
    assert RunView(v, []) == v;
  }

  lemma RunPrefix(v: View, p: Plan, k: nat)
    requires k <= |PlanWrites(p)|
    ensures RunView(v, PlanWrites(p)[..k]) == After(v, p, k)
  {
    hide DoView, RunView, PlanWrites, MemberWrites, ActorWrites, AddAbsent, AddEdges;
    PrefixOf(p, k);
    var n := |p.org.members|;
    RunOne(v, EnsureOrg(p));
    if k == 0 {
      RunNothing(v);
    } else if k <= n + 1 {
      RunViewAppend(v, [EnsureOrg(p)], MemberWrites(p.Ref(), p.org.members[..k - 1]));
      RunMembers(WithOrg(v, p), p.Ref(), p.org.members[..k - 1]);
    } else {
      var a, b := [EnsureOrg(p)], MemberWrites(p.Ref(), p.org.members);
      var c := ActorWrites(p.Ref(), p.company.actors[..k - n - 2]);
      RunViewAppend(v, a, b);
      RunMembers(WithOrg(v, p), p.Ref(), p.org.members);
      RunViewAppend(v, a + b, [EnsureCompany(p)]);
      RunOne(WithMembers(WithOrg(v, p), p.org.members), EnsureCompany(p));
      RunViewAppend(v, a + b + [EnsureCompany(p)], c);
      RunActors(WithCompany(v, p), p.Ref(), p.company.actors[..k - n - 2]);
    }
  }

  lemma RunNothing(v: View)
    ensures RunView(v, []) == v
  {}

  /** A complete pass after a pass that stopped anywhere leaves what the complete pass alone leaves. */
  lemma AfterTwice(v: View, p: Plan, k: nat)
    requires k <= |PlanWrites(p)|
    ensures After(After(v, p, k), p, |PlanWrites(p)|) == After(v, p, |PlanWrites(p)|)
  {
    hide PlanWrites, AddAbsent, AddEdges;
    PrefixOf(p, 0);
    var n, m := |p.org.members|, |p.company.actors|;
    var ms, actors := p.org.members, p.company.actors;
    assert ms[..n] == ms && actors[..m] == actors;
    if k == 0 {
    } else if k <= n + 1 {
      AbsorbMembers(WithOrg(v, p).members, ms, k - 1, n);
    } else {
      AbsorbMembers(WithOrg(v, p).members, ms, n, n);
      if WithCompany(v, p).company.Some? {
        AbsorbEdges(WithCompany(v, p).company.value.edges, actors, k - n - 2);
      }
    }
  }

  // ---------------------------------------------------------------- whole runs

  /** Runs that died after k of their writes, one after the other. */
  function Attempts(db: Db, ws: seq<Write>, died: seq<nat>): Db
    decreases |died|
  {
    if died == [] then db
    else
      var k := died[0];
      Attempts(Run(db, ws[..if k < |ws| then k else |ws|]), ws, died[1..])
  }

  lemma PrefixIsPrefix(ws: seq<Write>, all: seq<Write>)
    requires ws <= all
    ensures ws == all[..|ws|]
  {}

  lemma OneAttempt(db: Db, plans: seq<Plan>, k: nat, ref: string)
    requires Valid(db) && DistinctRefs(plans) && k <= |Writes(plans)|
    ensures Valid(Run(db, Writes(plans)[..k])) && Valid(Run(db, Writes(plans)))
    ensures Valid(Run(Run(db, Writes(plans)[..k]), Writes(plans)))
    ensures ViewOf(Run(Run(db, Writes(plans)[..k]), Writes(plans)), ref) == ViewOf(Run(db, Writes(plans)), ref)
  {
    hide Valid, ViewOf, Run, RunView, For, PlanWrites, After, Writes;
    var ws := Writes(plans);
    var v := ViewOf(db, ref);
    ViewOfRun(db, ws[..k], ref);
    ViewOfRun(db, ws, ref);
    ViewOfRun(Run(db, ws[..k]), ws, ref);
    ForPrefix(ws, k, ref);
    if i :| 0 <= i < |plans| && plans[i].Ref() == ref {
      ForPlan(plans, i);
      var p := plans[i];
      var part := For(ws[..k], ref);
      PrefixIsPrefix(part, PlanWrites(p));
      RunPrefix(v, p, |part|);
      RunPrefix(v, p, |PlanWrites(p)|);
      RunPrefix(After(v, p, |part|), p, |PlanWrites(p)|);
      assert PlanWrites(p)[..|PlanWrites(p)|] == PlanWrites(p);
      AfterTwice(v, p, |part|);
    } else {
      ForNoPlan(plans, ref);
      PrefixIsPrefix(For(ws[..k], ref), []);
      RunNothing(v);
    }
  }

  /** Any number of runs that died anywhere, followed by a complete run, leave for every source
      reference what one uninterrupted run leaves: the same organization, memberships, company, tax ids
      and actor edges, up to the generated ids. */
  lemma {:induction false} InterruptedRunsConverge(db: Db, plans: seq<Plan>, died: seq<nat>, ref: string)
    requires Valid(db) && DistinctRefs(plans)
    ensures Valid(Attempts(db, Writes(plans), died))
    ensures Valid(Run(Attempts(db, Writes(plans), died), Writes(plans))) && Valid(Run(db, Writes(plans)))
    ensures ViewOf(Run(Attempts(db, Writes(plans), died), Writes(plans)), ref) == ViewOf(Run(db, Writes(plans)), ref)
    decreases |died|
  {
    hide Valid, ViewOf, Run, Writes;
    var ws := Writes(plans);
    if died == [] {
      RunKeepsValid(db, ws);
    } else {
      var k := if died[0] < |ws| then died[0] else |ws|;
      OneAttempt(db, plans, k, ref);
      InterruptedRunsConverge(Run(db, ws[..k]), plans, died[1..], ref);
    }
  }

  /** A source reference has at most one organization and at most one company. */
  lemma OnePerSourceRef(db: Db, ws: seq<Write>, ref: string)
    requires Valid(db)
    ensures var end := Run(db, ws);
            && (forall a, b ::
                  a in end.orgs && b in end.orgs && end.orgs[a].source == end.orgs[b].source == Some(ref) ==>
                    a == b)
            && (forall a, b ::
                  && a in end.companies && b in end.companies
                  && end.companies[a].source == end.companies[b].source == Some(ref) ==>
                    a == b)
  {
    RunKeepsValid(db, ws);
    var end := Run(db, ws);
    hide Run;
    forall a, b | a in end.orgs && b in end.orgs && end.orgs[a].source == end.orgs[b].source == Some(ref)
      ensures a == b {
      assert end.orgIndex[ref] == a && end.orgIndex[ref] == b;
    }
    forall a, b | a in end.companies && b in end.companies
      && end.companies[a].source == end.companies[b].source == Some(ref) ensures a == b {
      assert end.companyIndex[ref] == a && end.companyIndex[ref] == b;
    }
  }

  /** No write of any run changes an organization, a company or a membership that was there: roles are
      never overwritten. */
  lemma {:induction false} ExistingRowsStay(db: Db, ws: seq<Write>)
    requires Valid(db)
    ensures var end := Run(db, ws);
            && (forall id :: id in db.orgs ==> id in end.orgs && end.orgs[id] == db.orgs[id])
            && (forall k :: k in db.members ==> k in end.members && end.members[k] == db.members[k])
            && (forall k :: k in db.companies ==> k in end.companies && end.companies[k] == db.companies[k])
  {
    if ws != [] {
      var front := ws[..|ws| - 1];
      ExistingRowsStay(db, front);
      RunKeepsValid(db, front);
      StepKeepsRows(Run(db, front), ws[|ws| - 1]);
      hide Valid, Do;
    }
  }

  lemma StepKeepsRows(db: Db, w: Write)
    requires Valid(db)
    ensures var end := Do(db, w);
            && (forall id :: id in db.orgs ==> id in end.orgs && end.orgs[id] == db.orgs[id])
            && (forall k :: k in db.members ==> k in end.members && end.members[k] == db.members[k])
            && (forall k :: k in db.companies ==> k in end.companies && end.companies[k] == db.companies[k])
  {
    hide OrgIndexOk, CompanyIndexOk;
  }

  // ---------------------------------------------------------------- what a complete run leaves

  function Owners(members: map<string, StoredMember>): set<string> {
    set u | u in members && members[u].role == Owner
  }

  lemma {:induction false} AddAbsentOwners(members: map<string, StoredMember>, ms: seq<Membership>)
    requires forall m :: m in ms ==> m.role != Owner
    ensures Owners(AddAbsent(members, ms)) == Owners(members)
  {
    if ms != [] {
      var front, last := ms[..|ms| - 1], ms[|ms| - 1];
      AddAbsentOwners(members, front);
      assert last in ms;
      var before, after := AddAbsent(members, front), AddAbsent(members, ms);
      assert forall u :: u in after && u !in before ==> after[u].role != Owner;
      assert forall u :: u in before ==> u in after && after[u] == before[u];
      assert Owners(after) == Owners(before);
    }
  }

  lemma {:induction false} EdgesHold(edges: map<string, Edge>, actors: seq<Actor>, i: nat)
    requires i < |actors|
    ensures actors[i].userId in AddEdges(edges, actors)
  {
    if i < |actors| - 1 {
      EdgesHold(edges, actors[..|actors| - 1], i);
    }
  }

  /** After a complete run every planned organization is there with every planned member; the owner set
      is the single planned owner, or what it was if the organization had been imported before; and
      unless the tax id is taken inside the organization, its company is there with every planned
      actor. */
  lemma CompleteRunImportsEverything(db: Db, plans: seq<Plan>, i: nat)
    requires Valid(db) && DistinctRefs(plans) && i < |plans|
    requires forall m :: m in plans[i].org.members ==> m.role != Owner
    ensures Valid(Run(db, Writes(plans)))
    ensures var p := plans[i];
            var before, after := ViewOf(db, p.Ref()), ViewOf(Run(db, Writes(plans)), p.Ref());
            && after.Present?
            && Owners(after.members) == (if before.Present? then Owners(before.members) else {p.org.owner})
            && (forall m :: m in p.org.members ==> m.userId in after.members)
            && (after.company.Some? <==> before.Absent? || before.company.Some? || p.company.taxId !in before.taxIds)
            && (after.company.Some? ==> forall a :: a in p.company.actors ==> a.userId in after.company.value.edges)
  {
    hide Valid, ViewOf, Run, RunView, For, PlanWrites, Writes;
    var p, ws := plans[i], Writes(plans);
    var v := ViewOf(db, p.Ref());
    ViewOfRun(db, ws, p.Ref());
    ForPlan(plans, i);
    assert PlanWrites(p)[..|PlanWrites(p)|] == PlanWrites(p);
    RunPrefix(v, p, |PlanWrites(p)|);
    PrefixOf(p, 0);
    FinalView(v, p);
  }

  lemma FinalView(v: View, p: Plan)
    requires forall m :: m in p.org.members ==> m.role != Owner
    ensures |PlanWrites(p)| == |p.org.members| + |p.company.actors| + 2
    ensures var after := After(v, p, |PlanWrites(p)|);
            && after.Present?
            && Owners(after.members) == (if v.Present? then Owners(v.members) else {p.org.owner})
            && (forall m :: m in p.org.members ==> m.userId in after.members)
            && (after.company.Some? <==> v.Absent? || v.company.Some? || p.company.taxId !in v.taxIds)
            && (after.company.Some? ==> forall a :: a in p.company.actors ==> a.userId in after.company.value.edges)
  {
    hide PlanWrites, AddAbsent, AddEdges;
    PrefixOf(p, 0);
    var ms, actors := p.org.members, p.company.actors;
    assert actors[..|actors|] == actors;
    AddAbsentOwners(WithOrg(v, p).members, ms);
    AddAbsentKeeps(WithOrg(v, p).members, ms, 0);
    if WithCompany(v, p).company.Some? {
      forall a | a in actors ensures a.userId in AddEdges(WithCompany(v, p).company.value.edges, actors) {
        var j :| 0 <= j < |actors| && actors[j] == a;
        EdgesHold(WithCompany(v, p).company.value.edges, actors, j);
      }
    }
  }

  /** Whether a plan is blocked is decided by its own source reference before the run. */
  lemma BlockedByOwnWrites(db: Db, p: Plan)
    requires Valid(db)
    ensures Blocked(Run(db, OrgWrites(p)), p) <==> Blocked(db, p)
  {
    hide Valid, ViewOf, Run, RunView, For, Blocked, AddAbsent, CompanyWrites;
    RunKeepsValid(db, OrgWrites(p));
    BlockedInView(db, p);
    BlockedInView(Run(db, OrgWrites(p)), p);
    var v, n := ViewOf(db, p.Ref()), |p.org.members|;
    ViewOfRun(db, OrgWrites(p), p.Ref());
    ForAll(OrgWrites(p), p.Ref());
    assert PlanWrites(p)[..n + 1] == OrgWrites(p);
    RunPrefix(v, p, n + 1);
  }

  lemma BlockedElsewhere(db: Db, plans: seq<Plan>, p: Plan)
    requires Valid(db) && forall i :: 0 <= i < |plans| ==> plans[i].Ref() != p.Ref()
    ensures Blocked(Run(db, Writes(plans)), p) <==> Blocked(db, p)
  {
    hide Valid, ViewOf, Run, RunView, For, Blocked, BlockedView, Writes;
    RunKeepsValid(db, Writes(plans));
    BlockedInView(db, p);
    BlockedInView(Run(db, Writes(plans)), p);
    ViewOfRun(db, Writes(plans), p.Ref());
    ForNoPlan(plans, p.Ref());
    RunNothing(ViewOf(db, p.Ref()));
  }

  /** A run that nothing blocks leaves every planned organization with its company and all its actors. */
  lemma UnblockedRunImportsCompanies(db: Db, plans: seq<Plan>, i: nat)
    requires Valid(db) && DistinctRefs(plans) && i < |plans| && !Blocked(db, plans[i])
    requires forall m :: m in plans[i].org.members ==> m.role != Owner
    ensures Valid(Run(db, Writes(plans)))
    ensures var after := ViewOf(Run(db, Writes(plans)), plans[i].Ref());
            && after.Present? && after.company.Some?
            && forall a :: a in plans[i].company.actors ==> a.userId in after.company.value.edges
  {
    hide Valid, ViewOf, Run, Writes, Blocked;
    BlockedInView(db, plans[i]);
    CompleteRunImportsEverything(db, plans, i);
  }

  // ---------------------------------------------------------------- a stale lookup

  /** Finding an earlier import must not lag behind. The index is read with eventual consistency, and
      the create is conditional on the absence of a row under a new id only: an apply that does not yet
      see its own organization creates a second one for the same source reference. */
  lemma StaleLookupDuplicates(db: Db, p: Plan)
    requires Valid(db) && p.Ref() !in db.orgIndex
    ensures var first := CreateWithOwner(db, p);
            var stale := first.(orgIndex := db.orgIndex);
            var second := Do(stale, EnsureOrg(p));
            exists a, b :: a != b && a in second.orgs && b in second.orgs
                           && second.orgs[a].source == second.orgs[b].source == Some(p.Ref())
  {
    hide Valid;
    var first := CreateWithOwner(db, p);
    var second := Do(first.(orgIndex := db.orgIndex), EnsureOrg(p));
    var a, b := db.nextId, db.nextId + 1;
    assert second.orgs[a] == second.orgs[b] == OrganizationOf(p);
  }
}
