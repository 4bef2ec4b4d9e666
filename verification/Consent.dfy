/**
 * Where the scopes of a grant come from, over every run of the authorization-code flow: which approval
 * put them there, what overlapping decisions lose, and when a revocation is undone.
 */
module Consent {
  import opened Wrappers
  import opened AuthCode
  import opened OauthClients

  // ---------------------------------------------------------------- every open decision has its steps

  /** Step k is the approval that opened decision d, for the scopes the client was then allowed. */
  predicate DecidedAt(s: State, acts: seq<Act>, k: nat, d: int, user: string, client: string, scopes: seq<string>)
    requires k < |acts|
  {
    && acts[k].Decide? && acts[k].d == d && acts[k].approved && acts[k].user == user && acts[k].client == client
    && client in At(s, acts, k).clients && scopes == FilterScopes(At(s, acts, k).clients[client], acts[k].scopes)
  }

  predicate Traced(s: State, acts: seq<Act>, n: nat, d: int, x: Decision)
    requires n <= |acts|
  {
    match x
    case Deciding(user, client, scopes, at) => at < n && DecidedAt(s, acts, at, d, user, client, scopes)
    case Merging(user, client, scopes, at, read, existing) =>
      && at < read < n && DecidedAt(s, acts, at, d, user, client, scopes)
      && acts[read] == ReadGrant(d) && existing == Granted(At(s, acts, read), user, client)
    case Decided => true
  }

  ghost predicate AllTraced(s: State, acts: seq<Act>, n: nat)
    requires n <= |acts|
  {
    forall d :: d in At(s, acts, n).decisions ==> Traced(s, acts, n, d, At(s, acts, n).decisions[d])
  }

  lemma TracesLast(s: State, acts: seq<Act>, n: nat, d: int, x: Decision)
    requires n < |acts| && Traced(s, acts, n, d, x)
    ensures Traced(s, acts, n + 1, d, x)
  {
    hide At, DecidedAt, Granted;
  }

  lemma NewDecision(s: State, acts: seq<Act>, n: nat, t: State)
    requires n < |acts| && t == At(s, acts, n) && t.steps == n && acts[n].Decide? && acts[n].d !in t.decisions
    ensures Traced(s, acts, n + 1, acts[n].d, DecisionStep(t, acts[n]).decisions[acts[n].d])
  {
    hide At, FilterScopes;
  }

  lemma ReadDecision(s: State, acts: seq<Act>, n: nat, t: State, d: int)
    requires n < |acts| && t == At(s, acts, n) && t.steps == n && acts[n] == ReadGrant(d) && d in t.decisions
    requires Traced(s, acts, n, d, t.decisions[d])
    ensures Traced(s, acts, n + 1, d, DecisionStep(t, ReadGrant(d)).decisions[d])
  {
    hide At, DecidedAt, Granted;
  }

  lemma DecisionsNext(t: State, act: Act)
    ensures Next(t, act).decisions == if OnDecisions(act) then DecisionStep(t, act).decisions else t.decisions
  {
    Frame(t, act);
    if OnDecisions(act) {
      hide DecisionStep, Leaves;
    } else {
      hide Next;
    }
  }

  /** A decision changes only in its own steps. */
  lemma OtherDecision(t: State, act: Act, d: int)
    requires d in Next(t, act).decisions && act != ReadGrant(d) && !(act.Decide? && act.d == d && d !in t.decisions)
    ensures d in t.decisions && (Next(t, act).decisions[d] == t.decisions[d] || Next(t, act).decisions[d] == Decided)
  {
    DecisionsNext(t, act);
    hide Next, DecisionStep;
    if OnDecisions(act) {
      OtherDecisionStep(t, act, d);
    }
  }

  lemma OtherDecisionStep(t: State, act: Act, d: int)
    requires act.Decide? || act.ReadGrant? || act.PutGrant?
    requires d in DecisionStep(t, act).decisions && act != ReadGrant(d)
    requires !(act.Decide? && act.d == d && d !in t.decisions)
    ensures d in t.decisions
            && (DecisionStep(t, act).decisions[d] == t.decisions[d] || DecisionStep(t, act).decisions[d] == Decided)
  {
    hide Judged, Merged, Granted;
  }

  lemma TraceKeeps(s: State, acts: seq<Act>, n: nat, d: int)
    requires n < |acts| && At(s, acts, n).steps == n && AllTraced(s, acts, n) && d in At(s, acts, n + 1).decisions
    ensures Traced(s, acts, n + 1, d, At(s, acts, n + 1).decisions[d])
  {
    AtNext(s, acts, n);
    var t, act := At(s, acts, n), acts[n];
    hide At, Traced, DecisionStep;
    if act.Decide? && act.d == d && d !in t.decisions {
      NewDecision(s, acts, n, t);
    } else if act == ReadGrant(d) && d in t.decisions {
      ReadDecision(s, acts, n, t, d);
    } else {
      if act == ReadGrant(d) {
        NothingToRead(t, d);
      } else {
        OtherDecision(t, act, d);
      }
      hide Next;
      if t.decisions[d] == At(s, acts, n + 1).decisions[d] {
        TracesLast(s, acts, n, d, t.decisions[d]);
      } else {
        DecidedIsTraced(s, acts, n + 1, d);
      }
    }
  }

  lemma NothingToRead(t: State, d: int)
    requires d !in t.decisions
    ensures Next(t, ReadGrant(d)).decisions == t.decisions
  {}

  lemma DecidedIsTraced(s: State, acts: seq<Act>, n: nat, d: int)
    requires n <= |acts|
    ensures Traced(s, acts, n, d, Decided)
  {}

  lemma {:induction false} DecisionsTraced(s: State, acts: seq<Act>, n: nat)
    requires Start(s) && n <= |acts|
    ensures AllTraced(s, acts, n)
  {
    hide Next, Traced, OnceInv;
    if n > 0 {
      DecisionsTraced(s, acts, n - 1);
      RunKeepsOnce(s, acts, n - 1);
      hide At;
      forall d | d in At(s, acts, n).decisions ensures Traced(s, acts, n, d, At(s, acts, n).decisions[d]) {
        TraceKeeps(s, acts, n - 1, d);
      }
    }
  }

  lemma TracedNow(s: State, acts: seq<Act>, n: nat, d: int)
    requires Start(s) && n <= |acts| && d in At(s, acts, n).decisions
    ensures Traced(s, acts, n, d, At(s, acts, n).decisions[d])
  {
    DecisionsTraced(s, acts, n);
    hide At, Traced;
  }

  // ---------------------------------------------------------------- what a step does to a grant

  /** The step records an approval of that user for that client. */
  predicate Records(t: State, act: Act, user: string, client: string) {
    act.PutGrant? && act.d in t.decisions && t.decisions[act.d].Merging? && t.decisions[act.d].user == user
      && t.decisions[act.d].client == client
  }

  function Recorded(t: State, act: Act): seq<string>
    requires act.PutGrant? && act.d in t.decisions && t.decisions[act.d].Merging?
  {
    Merged(t.decisions[act.d].existing, t.decisions[act.d].scopes)
  }

  lemma GrantStep(t: State, act: Act, user: string, client: string)
    ensures Granted(Next(t, act), user, client) ==
            if Records(t, act, user, client) then Recorded(t, act)
            else if act == Revoke(user, client) then []
            else Granted(t, user, client)
  {
    if act.Decide? || act.ReadGrant? || act.PutGrant? {
      hide DecisionStep, Recorded;
      RecordStep(t, act, user, client);
      assert Next(t, act).grants == DecisionStep(t, act).grants;
    } else {
      Frame(t, act);
      hide Next;
    }
  }

  lemma RecordStep(t: State, act: Act, user: string, client: string)
    requires act.Decide? || act.ReadGrant? || act.PutGrant?
    ensures Granted(DecisionStep(t, act), user, client) == if Records(t, act, user, client) then Recorded(t, act)
            else Granted(t, user, client)
  {
    hide Judged, Merged;
  }

  lemma RecordedElements(t: State, act: Act, scope: string)
    requires act.PutGrant? && act.d in t.decisions && t.decisions[act.d].Merging?
    ensures scope in Recorded(t, act) <==> scope in t.decisions[act.d].existing || scope in t.decisions[act.d].scopes
  {
    var x := t.decisions[act.d];
    WithoutElements(x.existing + x.scopes, [], scope);
    hide Without;
  }

  // ---------------------------------------------------------------- overlapping decisions

  /** Step q, after the read at r, records another decision's approval, which grants the scope for the first
      time since that read. */
  ghost predicate OverlapAdds(s: State, acts: seq<Act>, r: nat, q: nat, d: int, user: string, client: string,
                              scope: string)
    requires r <= q < |acts|
  {
    && Records(At(s, acts, q), acts[q], user, client) && acts[q].d != d
    && (forall n :: r <= n <= q ==> scope !in Granted(At(s, acts, n), user, client))
    && scope in Granted(At(s, acts, q + 1), user, client)
  }

  lemma {:induction false} FirstAdded(s: State, acts: seq<Act>, r: nat, p: nat, user: string, client: string,
                                      scope: string) returns (q: nat)
    requires r <= p <= |acts| && scope !in Granted(At(s, acts, r), user, client)
    requires scope in Granted(At(s, acts, p), user, client)
    ensures r <= q < p && Records(At(s, acts, q), acts[q], user, client)
    ensures forall n :: r <= n <= q ==> scope !in Granted(At(s, acts, n), user, client)
    ensures scope in Granted(At(s, acts, q + 1), user, client)
    decreases p - r
  {
    hide Granted, Records, Next;
    AtNext(s, acts, r);
    hide At;
    GrantStep(At(s, acts, r), acts[r], user, client);
    if scope in Granted(At(s, acts, r + 1), user, client) {
      q := r;
    } else {
      q := FirstAdded(s, acts, r + 1, p, user, client, scope);
    }
  }

  lemma {:induction false} DecidedStays(s: State, acts: seq<Act>, m: nat, n: nat, d: int)
    requires m <= n <= |acts| && d in At(s, acts, m).decisions && At(s, acts, m).decisions[d] == Decided
    ensures d in At(s, acts, n).decisions && At(s, acts, n).decisions[d] == Decided
  {
    if m < n {
      DecidedStays(s, acts, m, n - 1, d);
      DecidedNext(At(s, acts, n - 1), acts[n - 1], d);
    }
  }

  lemma DecidedNext(t: State, act: Act, d: int)
    requires d in t.decisions && t.decisions[d] == Decided
    ensures d in Next(t, act).decisions && Next(t, act).decisions[d] == Decided
  {
    DecisionsNext(t, act);
    hide Next, DecisionStep;
    if OnDecisions(act) {
      DecidedStep(t, act, d);
    }
  }

  lemma DecidedStep(t: State, act: Act, d: int)
    requires d in t.decisions && t.decisions[d] == Decided && (act.Decide? || act.ReadGrant? || act.PutGrant?)
    ensures d in DecisionStep(t, act).decisions && DecisionStep(t, act).decisions[d] == Decided
  {
    hide Judged, Merged, Granted;
  }

  /** A decision records once. */
  lemma RecordsOnce(s: State, acts: seq<Act>, q: nat, p: nat, d: int)
    requires q < p < |acts| && acts[q] == PutGrant(d) && d in At(s, acts, q).decisions
    requires At(s, acts, q).decisions[d].Merging?
    ensures !(d in At(s, acts, p).decisions && At(s, acts, p).decisions[d].Merging?)
  {
    hide At, Next;
    AtNext(s, acts, q);
    PutDecides(At(s, acts, q), d);
    DecidedStays(s, acts, q + 1, p, d);
  }

  lemma PutDecides(t: State, d: int)
    requires d in t.decisions && t.decisions[d].Merging?
    ensures d in Next(t, PutGrant(d)).decisions && Next(t, PutGrant(d)).decisions[d] == Decided
  {
    hide Merged;
  }

  ghost predicate OverlapAdded(s: State, acts: seq<Act>, r: nat, p: nat, d: int, user: string, client: string,
                               scope: string)
    requires r <= p <= |acts|
  {
    exists q :: r <= q < p && OverlapAdds(s, acts, r, q, d, user, client, scope)
  }

  /** Exactly when recording an approval loses a granted scope: the scope is not part of the approval, and
      another decision of that user for that client, recorded after this one read the grant, had added it. */
  lemma RecordingLosesIff(s: State, acts: seq<Act>, p: nat, scope: string)
    requires Start(s) && p < |acts| && acts[p].PutGrant? && acts[p].d in At(s, acts, p).decisions
    requires At(s, acts, p).decisions[acts[p].d].Merging?
    ensures var x := At(s, acts, p).decisions[acts[p].d];
            && x.read < p && acts[x.read] == ReadGrant(acts[p].d)
            && (scope in Granted(At(s, acts, p), x.user, x.client) ==>
                  (scope !in Granted(At(s, acts, p + 1), x.user, x.client) <==>
                     scope !in x.scopes && OverlapAdded(s, acts, x.read, p, acts[p].d, x.user, x.client, scope)))
  {
    DecisionsTraced(s, acts, p);
    AtNext(s, acts, p);
    hide At, Granted, Next, OverlapAdded;
    var t, d := At(s, acts, p), acts[p].d;
    var x := t.decisions[d];
    assert Traced(s, acts, p, d, x);
    GrantStep(t, acts[p], x.user, x.client);
    RecordedElements(t, acts[p], scope);
    if scope in Granted(t, x.user, x.client) {
      if scope !in x.existing {
        AddedByOther(s, acts, x.read, p, d, x.user, x.client, scope);
      } else {
        assert !OverlapAdded(s, acts, x.read, p, d, x.user, x.client, scope) by {
          NotAdded(s, acts, x.read, p, d, x.user, x.client, scope);
        }
      }
    }
  }

  lemma AddedByOther(s: State, acts: seq<Act>, r: nat, p: nat, d: int, user: string, client: string, scope: string)
    requires r < p < |acts| && acts[r] == ReadGrant(d) && d in At(s, acts, p).decisions
    requires At(s, acts, p).decisions[d].Merging?
    requires scope !in Granted(At(s, acts, r), user, client) && scope in Granted(At(s, acts, p), user, client)
    ensures OverlapAdded(s, acts, r, p, d, user, client, scope)
  {
    hide At, Granted;
    var q := FirstAdded(s, acts, r, p, user, client, scope);
    if acts[q].d == d {
      RecordsOnce(s, acts, q, p, d);
    }
    assert OverlapAdds(s, acts, r, q, d, user, client, scope);
  }

  lemma NotAdded(s: State, acts: seq<Act>, r: nat, p: nat, d: int, user: string, client: string, scope: string)
    requires r <= p <= |acts| && scope in Granted(At(s, acts, r), user, client)
    ensures !OverlapAdded(s, acts, r, p, d, user, client, scope)
  {
    hide At, Granted, Records;
  }

  /** Some other decision of that user for that client is recorded between the two steps. */
  ghost predicate Overlapped(s: State, acts: seq<Act>, r: nat, p: nat, d: int, user: string, client: string)
    requires r <= p <= |acts|
  {
    exists q :: r <= q < p && Records(At(s, acts, q), acts[q], user, client) && acts[q].d != d
  }

  /** Without an overlapping decision nothing that is granted is lost, whatever is revoked meanwhile. */
  lemma ApprovalsAddUp(s: State, acts: seq<Act>, p: nat)
    requires Start(s) && p < |acts| && acts[p].PutGrant? && acts[p].d in At(s, acts, p).decisions
    requires At(s, acts, p).decisions[acts[p].d].Merging?
    ensures var x := At(s, acts, p).decisions[acts[p].d];
            && x.read < p
            && (!Overlapped(s, acts, x.read, p, acts[p].d, x.user, x.client) ==>
                  Covers(Granted(At(s, acts, p + 1), x.user, x.client), Granted(At(s, acts, p), x.user, x.client)))
  {
    hide At, Granted;
    var x := At(s, acts, p).decisions[acts[p].d];
    RecordingLosesIff(s, acts, p, "");
    forall scope ensures x.read < p &&
      (!Overlapped(s, acts, x.read, p, acts[p].d, x.user, x.client)
       && scope in Granted(At(s, acts, p), x.user, x.client) ==>
         scope in Granted(At(s, acts, p + 1), x.user, x.client))
    {
      RecordingLosesIff(s, acts, p, scope);
      hide Records;
    }
  }

  // ---------------------------------------------------------------- approvals and revocations

  /** Step k is the user's approval of the scope for the client, which was registered with it. */
  predicate ApprovedAt(s: State, acts: seq<Act>, k: nat, user: string, client: string, scope: string)
    requires k < |acts|
  {
    && acts[k].Decide? && acts[k].approved && acts[k].user == user && acts[k].client == client
       && scope in acts[k].scopes
    && client in At(s, acts, k).clients && scope in At(s, acts, k).clients[client].allowedScopes
  }

  ghost predicate ApprovedBefore(s: State, acts: seq<Act>, n: nat, user: string, client: string, scope: string)
    requires n <= |acts|
  {
    exists k :: 0 <= k < n && ApprovedAt(s, acts, k, user, client, scope)
  }

  predicate Unrevoked(acts: seq<Act>, m: nat, n: nat, user: string, client: string)
    requires n <= |acts|
  {
    forall v :: m <= v < n ==> acts[v] != Revoke(user, client)
  }

  /** The scope was approved, and nothing has been revoked since that approval. */
  ghost predicate ApprovedStill(s: State, acts: seq<Act>, n: nat, user: string, client: string, scope: string)
    requires n <= |acts|
  {
    exists k :: 0 <= k < n && ApprovedAt(s, acts, k, user, client, scope) && Unrevoked(acts, k, n, user, client)
  }

  /** Recording step p brings the scope back over the revocation at v: either its decision approved the scope
      before v, or it read the scope as granted before v. */
  predicate RestoresAt(s: State, acts: seq<Act>, v: nat, p: nat, user: string, client: string, scope: string)
    requires v < p < |acts|
  {
    && acts[v] == Revoke(user, client) && Records(At(s, acts, p), acts[p], user, client)
    && var x := At(s, acts, p).decisions[acts[p].d];
       (x.at < v && scope in x.scopes) || (x.read < v && scope in x.existing)
  }

  /** The last revocation before n was undone for the scope. */
  ghost predicate Restored(s: State, acts: seq<Act>, n: nat, user: string, client: string, scope: string)
    requires n <= |acts|
  {
    exists v, p :: 0 <= v < p < n && RestoresAt(s, acts, v, p, user, client, scope)
      && Unrevoked(acts, v + 1, n, user, client)
  }

  ghost predicate Consented(s: State, acts: seq<Act>, n: nat, user: string, client: string, scope: string)
    requires n <= |acts|
  {
    && ApprovedBefore(s, acts, n, user, client, scope)
    && (ApprovedStill(s, acts, n, user, client, scope) || Restored(s, acts, n, user, client, scope))
  }

  lemma ApprovalOf(s: State, acts: seq<Act>, k: nat, d: int, user: string, client: string, scopes: seq<string>,
                   scope: string)
    requires k < |acts| && DecidedAt(s, acts, k, d, user, client, scopes) && scope in scopes
    ensures ApprovedAt(s, acts, k, user, client, scope)
  {
    hide At;
    FilterScopesKeeps(At(s, acts, k).clients[client], acts[k].scopes);
    hide FilterScopes;
  }

  lemma ConsentedLater(s: State, acts: seq<Act>, m: nat, n: nat, user: string, client: string, scope: string)
    requires m <= n <= |acts| && Consented(s, acts, m, user, client, scope)
    ensures ApprovedBefore(s, acts, n, user, client, scope)
    ensures Unrevoked(acts, m, n, user, client) ==> Consented(s, acts, n, user, client, scope)
  {
    hide At, ApprovedAt, RestoresAt, Unrevoked;
    var k :| 0 <= k < m && ApprovedAt(s, acts, k, user, client, scope);
    if Unrevoked(acts, m, n, user, client) {
      if ApprovedStill(s, acts, m, user, client, scope) {
        StillLater(s, acts, m, n, user, client, scope);
      } else {
        var v, p :| 0 <= v < p < m && RestoresAt(s, acts, v, p, user, client, scope)
            && Unrevoked(acts, v + 1, m, user, client);
        UnrevokedJoin(acts, v + 1, m, n, user, client);
      }
    }
  }

  lemma StillLater(s: State, acts: seq<Act>, m: nat, n: nat, user: string, client: string, scope: string)
    requires m <= n <= |acts| && ApprovedStill(s, acts, m, user, client, scope) && Unrevoked(acts, m, n, user, client)
    ensures ApprovedStill(s, acts, n, user, client, scope)
  {
    hide At, ApprovedAt, Unrevoked;
    var k :| 0 <= k < m && ApprovedAt(s, acts, k, user, client, scope) && Unrevoked(acts, k, m, user, client);
    UnrevokedJoin(acts, k, m, n, user, client);
  }

  lemma {:induction false} LastRevocation(acts: seq<Act>, m: nat, n: nat, user: string, client: string) returns (v: nat)
    requires n <= |acts| && !Unrevoked(acts, m, n, user, client)
    ensures m <= v < n && acts[v] == Revoke(user, client) && Unrevoked(acts, v + 1, n, user, client)
  {
    if acts[n - 1] == Revoke(user, client) {
      v := n - 1;
    } else {
      v := LastRevocation(acts, m, n - 1, user, client);
    }
  }

  lemma UnrevokedJoin(acts: seq<Act>, j: nat, m: nat, n: nat, user: string, client: string)
    requires j <= m <= n <= |acts| && Unrevoked(acts, j, m, user, client) && Unrevoked(acts, m, n, user, client)
    ensures Unrevoked(acts, j, n, user, client)
  {}

  /** A recorded approval brings its own scopes, which its decision approved. */
  lemma OwnConsented(s: State, acts: seq<Act>, n: nat, user: string, client: string, scope: string)
    requires n < |acts| && Records(At(s, acts, n), acts[n], user, client)
    requires var x := At(s, acts, n).decisions[acts[n].d]; Traced(s, acts, n, acts[n].d, x) && scope in x.scopes
    ensures Consented(s, acts, n + 1, user, client, scope)
  {
    hide At, ApprovedAt, Granted, Unrevoked;
    var x := At(s, acts, n).decisions[acts[n].d];
    ApprovalOf(s, acts, x.at, acts[n].d, user, client, x.scopes, scope);
    if !Unrevoked(acts, x.at, n + 1, user, client) {
      var v := LastRevocation(acts, x.at, n + 1, user, client);
      assert RestoresAt(s, acts, v, n, user, client, scope);
    }
  }

  /** It keeps what its read found. */
  lemma EarlierConsented(s: State, acts: seq<Act>, n: nat, user: string, client: string, scope: string)
    requires n < |acts| && Records(At(s, acts, n), acts[n], user, client)
    requires var x := At(s, acts, n).decisions[acts[n].d];
             && Traced(s, acts, n, acts[n].d, x) && scope in x.existing
             && Consented(s, acts, x.read, user, client, scope)
    ensures Consented(s, acts, n + 1, user, client, scope)
  {
    hide At, ApprovedAt, DecidedAt, Granted, Unrevoked, ApprovedBefore, ApprovedStill;
    var x := At(s, acts, n).decisions[acts[n].d];
    ConsentedLater(s, acts, x.read, n + 1, user, client, scope);
    if !Unrevoked(acts, x.read, n + 1, user, client) {
      var v := LastRevocation(acts, x.read, n + 1, user, client);
      assert RestoresAt(s, acts, v, n, user, client, scope);
    }
  }

  lemma UnrevokedHere(acts: seq<Act>, n: nat, user: string, client: string)
    requires n < |acts| && acts[n] != Revoke(user, client)
    ensures Unrevoked(acts, n, n + 1, user, client)
  {}

  /** Every granted scope was approved by that user for that client while the client was registered with
      it; and not revoked since, unless a recording brought this very scope back over the last revocation. */
  lemma {:induction false} GrantedScopesWereApproved(s: State, acts: seq<Act>, n: nat, user: string, client: string,
                                                     scope: string)
    requires Start(s) && n <= |acts| && scope in Granted(At(s, acts, n), user, client)
    ensures Consented(s, acts, n, user, client, scope)
  {
    hide At, Next, Granted, Consented, Recorded, Unrevoked, ApprovedBefore, DecidedAt, Start;
    if n == 0 {
      NothingGranted(s, acts, user, client);
    } else {
      AtNext(s, acts, n - 1);
      var t, act := At(s, acts, n - 1), acts[n - 1];
      GrantStep(t, act, user, client);
      if Records(t, act, user, client) {
        var x := t.decisions[act.d];
        TracedNow(s, acts, n - 1, act.d);
        RecordedElements(t, act, scope);
        if scope in x.scopes {
          OwnConsented(s, acts, n - 1, user, client, scope);
        } else {
          GrantedScopesWereApproved(s, acts, x.read, user, client, scope);
          EarlierConsented(s, acts, n - 1, user, client, scope);
        }
      } else {
        hide Records;
        GrantedScopesWereApproved(s, acts, n - 1, user, client, scope);
        UnrevokedHere(acts, n - 1, user, client);
        ConsentedLater(s, acts, n - 1, n, user, client, scope);
      }
    }
  }

  lemma NothingGranted(s: State, acts: seq<Act>, user: string, client: string)
    requires Start(s)
    ensures Granted(At(s, acts, 0), user, client) == []
  {}

  /** The other half: such a recording grants the scope, which stands revoked afterwards unless it had been
      approved anew. */
  lemma RestoringUndoesRevocation(s: State, acts: seq<Act>, v: nat, p: nat, user: string, client: string, scope: string)
    requires Start(s) && v < p < |acts| && RestoresAt(s, acts, v, p, user, client, scope)
    ensures scope in Granted(At(s, acts, p + 1), user, client)
    ensures !ApprovedStill(s, acts, p, user, client, scope) ==> !ApprovedStill(s, acts, p + 1, user, client, scope)
  {
    hide At, Granted, Next, Recorded, ApprovedAt;
    AtNext(s, acts, p);
    GrantStep(At(s, acts, p), acts[p], user, client);
    RecordedElements(At(s, acts, p), acts[p], scope);
    hide Records;
    RecordingApprovesNothing(s, acts, p, user, client, scope);
  }

  lemma RecordingApprovesNothing(s: State, acts: seq<Act>, p: nat, user: string, client: string, scope: string)
    requires p < |acts| && acts[p].PutGrant?
    ensures ApprovedStill(s, acts, p + 1, user, client, scope) ==> ApprovedStill(s, acts, p, user, client, scope)
  {
    hide At, ApprovedAt;
    if ApprovedStill(s, acts, p + 1, user, client, scope) {
      var k :| 0 <= k < p + 1 && ApprovedAt(s, acts, k, user, client, scope) && Unrevoked(acts, k, p + 1, user, client);
      OnlyDecisionsApprove(s, acts, k, user, client, scope);
      assert Unrevoked(acts, k, p, user, client);
    }
  }

  /** A revocation fails to hold at some moment of the run: the scope is granted although it was revoked after
      its last approval. */
  ghost predicate RevocationUndone(s: State, acts: seq<Act>, user: string, client: string, scope: string) {
    exists n :: 0 <= n <= |acts| && GrantedThoughRevoked(s, acts, n, user, client, scope)
  }

  ghost predicate GrantedThoughRevoked(s: State, acts: seq<Act>, n: nat, user: string, client: string, scope: string)
    requires n <= |acts|
  {
    scope in Granted(At(s, acts, n), user, client) && !ApprovedStill(s, acts, n, user, client, scope)
  }

  /** Some recording brings the scope back over the last revocation before it, not approved anew. */
  ghost predicate RestoredUnapproved(s: State, acts: seq<Act>, user: string, client: string, scope: string) {
    exists v, p :: 0 <= v < p < |acts| && RestoresAt(s, acts, v, p, user, client, scope)
                   && Unrevoked(acts, v + 1, p, user, client) && !ApprovedStill(s, acts, p, user, client, scope)
  }

  /** Exactly when a revocation is undone in a run: when a decision that had approved the scope, or read it as
      granted, before the last revocation is recorded after it, and nobody approved the scope anew. */
  lemma RevocationUndoneIff(s: State, acts: seq<Act>, user: string, client: string, scope: string)
    requires Start(s)
    ensures RevocationUndone(s, acts, user, client, scope) <==> RestoredUnapproved(s, acts, user, client, scope)
  {
    hide At, ApprovedStill, RestoresAt, Unrevoked, ApprovedBefore, Start;
    if RevocationUndone(s, acts, user, client, scope) {
      var n :| 0 <= n <= |acts| && GrantedThoughRevoked(s, acts, n, user, client, scope);
      GrantedScopesWereApproved(s, acts, n, user, client, scope);
      var v, p :| 0 <= v < p < n && RestoresAt(s, acts, v, p, user, client, scope)
          && Unrevoked(acts, v + 1, n, user, client);
      UnrevokedWithin(acts, v + 1, p, n, user, client);
      if ApprovedStill(s, acts, p, user, client, scope) {
        StillLater(s, acts, p, n, user, client, scope);
      }
    }
    if RestoredUnapproved(s, acts, user, client, scope) {
      var v, p :| 0 <= v < p < |acts| && RestoresAt(s, acts, v, p, user, client, scope)
                  && Unrevoked(acts, v + 1, p, user, client) && !ApprovedStill(s, acts, p, user, client, scope);
      RestoringUndoesRevocation(s, acts, v, p, user, client, scope);
      assert GrantedThoughRevoked(s, acts, p + 1, user, client, scope);
    }
  }

  lemma UnrevokedWithin(acts: seq<Act>, m: nat, p: nat, n: nat, user: string, client: string)
    requires m <= p <= n <= |acts| && Unrevoked(acts, m, n, user, client)
    ensures Unrevoked(acts, m, p, user, client) && Unrevoked(acts, p, n, user, client)
  {}

  lemma OnlyDecisionsApprove(s: State, acts: seq<Act>, k: nat, user: string, client: string, scope: string)
    requires k < |acts|
    ensures ApprovedAt(s, acts, k, user, client, scope) ==> acts[k].Decide?
  {}

  /** Every scope of a token set issued to a third-party client was approved for that client by that same
      user before consent was asked; and not revoked in between, unless a recording brought this very scope
      back over the last revocation. */
  lemma ThirdPartyScopesWereApproved(s: State, acts: seq<Act>, i: nat, scope: string)
    requires Start(s) && i < |At(s, acts, |acts|).issued|
    requires var t := At(s, acts, |acts|).issued[i];
             && t.stored.read <= |acts| && t.client in At(s, acts, t.stored.read).clients
             && !At(s, acts, t.stored.read).clients[t.client].firstParty && scope in t.scopes
    ensures var t := At(s, acts, |acts|).issued[i];
            t.stored.asked <= |acts| && Consented(s, acts, t.stored.asked, t.user, t.client, scope)
  {
    hide At, Consented;
    var t := At(s, acts, |acts|).issued[i];
    TokensAreAuthorized(s, acts, |acts|);
    assert TokenOk(s, acts, |acts|, t);
    GrantedScopesWereApproved(s, acts, t.stored.asked, t.user, t.client, scope);
  }
}
