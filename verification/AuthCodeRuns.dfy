/**
 * Concrete runs of the authorization-code flow: two approvals of which one is lost, a revocation that is
 * undone, and a client that becomes public between its request and its exchange.
 */
module AuthCodeRuns {
  import opened Wrappers
  import opened CacheClient
  import opened OauthClients
  import opened AuthCode
  import opened AuthCodeHandlers
  import Consent

  lemma OneScope(client: OAuthClient, scope: string)
    requires scope in client.allowedScopes
    ensures FilterScopes(client, [scope]) == [scope]
  {
    assert [scope][..0] == [];
  }

  lemma MergedOne(scope: string)
    ensures Merged([], [scope]) == [scope]
  {
    assert [] + [scope] == [scope] && [scope][1..] == [];
    assert Without([], [] + [scope]) == [];
    assert Without([scope], []) == [scope] + Without([scope][1..], [] + [scope]);
  }

  lemma DecideOne(s: State, d: int, user: string, client: string, redirect: string, scope: string)
    requires d !in s.decisions && user != "" && client in s.clients && redirect in s.clients[client].redirects
    requires scope in s.clients[client].allowedScopes
    ensures Next(s, Decide(d, user, client, redirect, [scope], true)) ==
            s.(steps := s.steps + 1, decisions := s.decisions[d := Deciding(user, client, [scope], s.steps)])
  {
    OneScope(s.clients[client], scope);
    hide FilterScopes;
  }

  lemma ReadNothing(s: State, d: int, user: string, client: string, scope: string, at: nat)
    requires d in s.decisions && s.decisions[d] == Deciding(user, client, [scope], at) && s.grants == map[]
    ensures Next(s, ReadGrant(d)) ==
            s.(steps := s.steps + 1, decisions := s.decisions[d := Merging(user, client, [scope], at, s.steps, [])])
  {}

  lemma PutOne(s: State, d: int, user: string, client: string, scope: string, at: nat, read: nat)
    requires d in s.decisions && s.decisions[d] == Merging(user, client, [scope], at, read, [])
    ensures var t := Next(s, PutGrant(d));
            t == s.(steps := s.steps + 1, grants := s.grants[(user, client) := [scope]],
                    decisions := s.decisions[d := Decided])
    ensures Granted(Next(s, PutGrant(d)), user, client) == [scope]
  {
    MergedOne(scope);
    hide Merged;
  }

  /** Two approvals by one user for one client, recorded side by side, can lose one of them. */
  lemma ConcurrentApprovalsCanLoseOne(s: State, user: string, client: string, redirect: string, a: string, b: string)
    requires Start(s) && user != "" && client in s.clients && redirect in s.clients[client].redirects
    requires a in s.clients[client].allowedScopes && b in s.clients[client].allowedScopes && a != b
    ensures var acts := [Decide(1, user, client, redirect, [a], true), Decide(2, user, client, redirect, [b], true),
                         ReadGrant(1), ReadGrant(2), PutGrant(1), PutGrant(2)];
            a in Granted(At(s, acts, 5), user, client) && a !in Granted(At(s, acts, 6), user, client)
  {
    hide At, Next, Granted;
    var acts := [Decide(1, user, client, redirect, [a], true), Decide(2, user, client, redirect, [b], true),
                 ReadGrant(1), ReadGrant(2), PutGrant(1), PutGrant(2)];
    AtNext(s, acts, 0);
    DecideOne(At(s, acts, 0), 1, user, client, redirect, a);
    AtNext(s, acts, 1);
    DecideOne(At(s, acts, 1), 2, user, client, redirect, b);
    AtNext(s, acts, 2);
    ReadNothing(At(s, acts, 2), 1, user, client, a, 0);
    AtNext(s, acts, 3);
    ReadNothing(At(s, acts, 3), 2, user, client, b, 1);
    AtNext(s, acts, 4);
    PutOne(At(s, acts, 4), 1, user, client, a, 0, 2);
    AtNext(s, acts, 5);
    PutOne(At(s, acts, 5), 2, user, client, b, 1, 3);
  }

  lemma ReadOne(s: State, d: int, user: string, client: string, scope: string, at: nat, existing: seq<string>)
    requires d in s.decisions && s.decisions[d] == Deciding(user, client, [scope], at)
    requires (user, client) in s.grants && s.grants[(user, client)] == existing
    ensures Next(s, ReadGrant(d)) ==
            s.(steps := s.steps + 1,
               decisions := s.decisions[d := Merging(user, client, [scope], at, s.steps, existing)])
  {}

  /** A revocation can be undone: an approval of another scope, which read the grant before the user revoked
      it, puts the revoked scope back. */
  lemma RevocationIsUndone(s: State, user: string, client: string, redirect: string, a: string, b: string)
    requires Start(s) && user != "" && client in s.clients && redirect in s.clients[client].redirects
    requires a in s.clients[client].allowedScopes && b in s.clients[client].allowedScopes && a != b
    ensures var acts := [Decide(1, user, client, redirect, [a], true), ReadGrant(1), PutGrant(1),
                         Decide(2, user, client, redirect, [b], true), ReadGrant(2), Revoke(user, client), PutGrant(2)];
            Granted(At(s, acts, 6), user, client) == [] && Consent.GrantedThoughRevoked(s, acts, 7, user, client, a)
  {
    hide At, Next, Granted;
    var acts := [Decide(1, user, client, redirect, [a], true), ReadGrant(1), PutGrant(1),
                 Decide(2, user, client, redirect, [b], true), ReadGrant(2), Revoke(user, client), PutGrant(2)];
    AtNext(s, acts, 0);
    DecideOne(At(s, acts, 0), 1, user, client, redirect, a);
    AtNext(s, acts, 1);
    ReadNothing(At(s, acts, 1), 1, user, client, a, 0);
    AtNext(s, acts, 2);
    PutOne(At(s, acts, 2), 1, user, client, a, 0, 1);
    AtNext(s, acts, 3);
    DecideOne(At(s, acts, 3), 2, user, client, redirect, b);
    AtNext(s, acts, 4);
    ReadOne(At(s, acts, 4), 2, user, client, b, 3, [a]);
    AtNext(s, acts, 5);
    RevokeOnly(At(s, acts, 5), user, client);
    AtNext(s, acts, 6);
    Consent.GrantStep(At(s, acts, 6), acts[6], user, client);
    Consent.RecordedElements(At(s, acts, 6), acts[6], a);
    NotStill(s, acts, user, client, a);
  }

  lemma RevokeOnly(s: State, user: string, client: string)
    ensures Next(s, Revoke(user, client)) == s.(steps := s.steps + 1, grants := s.grants - {(user, client)})
    ensures Granted(Next(s, Revoke(user, client)), user, client) == []
  {}

  lemma NotStill(s: State, acts: seq<Act>, user: string, client: string, a: string)
    requires |acts| == 7 && acts[5] == Revoke(user, client) && acts[6].PutGrant?
    ensures !Consent.ApprovedStill(s, acts, 7, user, client, a)
  {
    hide At;
    forall k | 0 <= k < 7 && Consent.ApprovedAt(s, acts, k, user, client, a)
      ensures !Consent.Unrevoked(acts, k, 7, user, client) {
      assert k <= 5;
    }
  }

  // ---------------------------------------------------------------- a client registered anew

  const USER := "user"

  function Unchallenged(client: string, redirect: string, scope: string): Request {
    Request(client, redirect, "code", [scope], NoChallenge, false, None)
  }

  /** The user approves the client, it asks for a code, its owner deletes it, an operator registers a public
      client under the same id, and that one presents the code. */
  function ReplacedRun(client: string, redirect: string, scope: string, code: string, again: OAuthClient): seq<Act> {
    [Decide(1, USER, client, redirect, [scope], true), ReadGrant(1), PutGrant(1),
     Authorize(1, Unchallenged(client, redirect, scope)), CheckSession(1, Some(Session(USER, "session", 0)), false),
     CheckConsent(1), StoreCode(1, code), DeleteClient(client), CheckFree(1, client, again), StoreClient(1),
     Exchange(1, code, client, redirect, "", false), Redeem(1), Answer(1, true)]
  }

  lemma ReplaceClient(s: State, client: string, again: OAuthClient)
    requires 1 !in s.creations
    ensures Next(Next(Next(s, DeleteClient(client)), CheckFree(1, client, again)), StoreClient(1)) ==
            s.(steps := s.steps + 3, clients := s.clients[client := again], creations := s.creations[1 := Created])
  {
    assert (s.clients - {client})[client := again] == s.clients[client := again];
    assert s.creations[1 := Creating(client, again)][1 := Created] == s.creations[1 := Created];
  }

  lemma PassesUnchallenged(clients: map<string, OAuthClient>, client: string, redirect: string, scope: string)
    requires client != "" && redirect != "" && client in clients && !clients[client].isPublic
    requires redirect in clients[client].redirects && scope in clients[client].allowedScopes
    ensures Gates(clients, Unchallenged(client, redirect, scope)) == Ok([scope])
  {
    OneScope(clients[client], scope);
    hide FilterScopes;
  }

  lemma ReadBack(mem: Mem<StoredCode>, now: int, code: string, sc: StoredCode)
    ensures Read(Put(mem, now, code, Value(sc), CODE_TTL), now, code) == Some(Value(sc))
  {}

  lemma Approve(s: State, acts: seq<Act>, client: string, redirect: string, scope: string)
    requires Start(s) && client in s.clients && redirect in s.clients[client].redirects
    requires scope in s.clients[client].allowedScopes
    requires |acts| >= 3 && acts[..3] == [Decide(1, USER, client, redirect, [scope], true), ReadGrant(1), PutGrant(1)]
    ensures At(s, acts, 3) == s.(steps := 3, grants := map[(USER, client) := [scope]], decisions := map[1 := Decided])
  {
    hide At, Next;
    assert acts[0] == acts[..3][0] && acts[1] == acts[..3][1] && acts[2] == acts[..3][2];
    AtNext(s, acts, 0);
    DecideOne(s, 1, USER, client, redirect, scope);
    AtNext(s, acts, 1);
    ReadNothing(At(s, acts, 1), 1, USER, client, scope, 0);
    AtNext(s, acts, 2);
    PutOne(At(s, acts, 2), 1, USER, client, scope, 0, 1);
  }

  /** One undisturbed request without a challenge stores a code. */
  lemma Asks(s: State, client: string, redirect: string, scope: string, code: string)
    requires client != "" && redirect != "" && code !in s.used && s.authorizations == map[]
    requires client in s.clients && !s.clients[client].isPublic && HasGrant(s, USER, client, [scope])
    requires redirect in s.clients[client].redirects && scope in s.clients[client].allowedScopes
    ensures var r := Unchallenged(client, redirect, scope);
            var t := Authorized(s, 1, r, Some(Session(USER, "session", 0)), false, code);
            var c := Code(USER, "session", client, redirect, [scope], NoChallenge);
            && t == s.(steps := s.steps + 4, authorizations := t.authorizations, codes := t.codes, used := t.used)
            && Read(t.codes, s.now, code) == Some(Value(StoredCode(c, s.steps, s.steps + 2, s.steps + 3)))
  {
    var r, session := Unchallenged(client, redirect, scope), Some(Session(USER, "session", 0));
    hide Gates, Read, Put, Authorized, HasGrant;
    PassesUnchallenged(s.clients, client, redirect, scope);
    AuthorizedCases(s, 1, r, session, false, code);
    var c := Code(USER, "session", client, redirect, [scope], NoChallenge);
    ReadBack(s.codes, s.now, code, StoredCode(c, s.steps, s.steps + 2, s.steps + 3));
  }

  /** The code is stored without a challenge, and its client is registered anew. */
  lemma AsksAndIsReplaced(s: State, client: string, redirect: string, scope: string, code: string, again: OAuthClient)
    requires Start(s) && client != "" && redirect != "" && client in s.clients && !s.clients[client].isPublic
    requires redirect in s.clients[client].redirects && scope in s.clients[client].allowedScopes
    ensures var t := At(s, ReplacedRun(client, redirect, scope, code, again), 10);
            var c := Code(USER, "session", client, redirect, [scope], NoChallenge);
            && t.steps == 10 && t.now == s.now && t.clients == s.clients[client := again]
            && t.exchanges == map[] && t.issued == []
            && Read(t.codes, t.now, code) == Some(Value(StoredCode(c, 3, 5, 6)))
  {
    var acts := ReplacedRun(client, redirect, scope, code, again);
    hide Read, At, Next;
    Approve(s, acts, client, redirect, scope);
    Asks(At(s, acts, 3), client, redirect, scope, code);
    FourSteps(s, acts, 3);
    ReplaceClient(At(s, acts, 7), client, again);
    ThreeSteps(s, acts, 7);
  }

  /** Being public at the exchange is not enough: a developer's confidential client asks without a challenge,
      is deleted and registered anew under its id as a public one, and gets its tokens without a verifier. */
  lemma ReplacedClientSkipsPkce(s: State, client: string, redirect: string, scope: string, code: string,
                                again: OAuthClient)
    requires Start(s) && client != "" && redirect != "" && code != "" && client in s.clients
    requires !s.clients[client].firstParty && !s.clients[client].isPublic
    requires redirect in s.clients[client].redirects && scope in s.clients[client].allowedScopes
    requires again.isPublic
    ensures var acts := ReplacedRun(client, redirect, scope, code, again);
            && |At(s, acts, 13).issued| == 1
            && var t := At(s, acts, 13).issued[0];
               && t.client == client && t.began == 10
               && client in At(s, acts, 10).clients && At(s, acts, 10).clients[client].isPublic
               && t.stored.code.challenge != Digest(t.verifier)
  {
    var acts := ReplacedRun(client, redirect, scope, code, again);
    hide Read, Redeemable, At, Next;
    AsksAndIsReplaced(s, client, redirect, scope, code, again);
    RedeemsUnchallenged(code, client, redirect, Code(USER, "session", client, redirect, [scope], NoChallenge));
    ExchangedCases(At(s, acts, 10), 1, code, client, redirect, "", false, true);
    ThreeSteps(s, acts, 10);
  }

  lemma RedeemsUnchallenged(code: string, client: string, redirect: string, c: Code)
    requires c.client == client && c.redirect == redirect && c.challenge == NoChallenge
    ensures forall began :: Redeemable(Authenticated(code, client, redirect, "", began), c)
  {}

  lemma ThreeSteps(s: State, acts: seq<Act>, n: nat)
    requires n + 3 <= |acts|
    ensures At(s, acts, n + 3) == Next(Next(Next(At(s, acts, n), acts[n]), acts[n + 1]), acts[n + 2])
  {
    hide At, Next;
    AtNext(s, acts, n);
    AtNext(s, acts, n + 1);
    AtNext(s, acts, n + 2);
  }

  lemma FourSteps(s: State, acts: seq<Act>, n: nat)
    requires n + 4 <= |acts|
    ensures At(s, acts, n + 4) == Next(Next(Next(Next(At(s, acts, n), acts[n]), acts[n + 1]), acts[n + 2]), acts[n + 3])
    ensures At(s, acts, 0) == s
  {
    hide At, Next;
    ThreeSteps(s, acts, n);
    AtNext(s, acts, n + 3);
  }
}
