/**
 * The authorization and token endpoints as one request runs them, over the cache client that holds the
 * codes. Each is proved to do what the interleaved machine does when nothing else moves.
 */
module AuthCodeHandlers {
  import opened Wrappers
  import opened CacheClient
  import opened AuthCode
  import opened OauthClients

  /** The cache holds codes without the bookkeeping the machine adds. */
  function PlainData(d: Data<StoredCode>): Data<Code> {
    match d
    case Number(n) => Number(n)
    case Value(v) => Value(v.code)
  }

  function Plain(mem: Mem<StoredCode>): Mem<Code> {
    map k | k in mem :: Entry(PlainData(mem[k].data), mem[k].expires)
  }

  /** One whole authorization request of the machine. */
  function Authorized(s: State, a: int, r: Request, session: Option<Session>, termsPending: bool, code: string): State {
    Next(Next(Next(Next(s, Authorize(a, r)), CheckSession(a, session, termsPending)), CheckConsent(a)),
         StoreCode(a, code))
  }

  function Exchanged(s: State, x: int, code: string, client: string, redirect: string, verifier: string, secretOk: bool,
                     ok: bool): State {
    Next(Next(Next(s, Exchange(x, code, client, redirect, verifier, secretOk)), Redeem(x)), Answer(x, ok))
  }

  function ConsentDecided(s: State, d: int, user: string, client: string, redirect: string, scopes: seq<string>,
                          approved: bool): State {
    Next(Next(Next(s, Decide(d, user, client, redirect, scopes, approved)), ReadGrant(d)), PutGrant(d))
  }

  datatype AuthorizeAnswer =
    | Redirected(code: string) | LoginFirst | TermsFirst | ConsentFirst | NotAuthorized(why: Refusal)

  /** How the machine's record of a request reads as an answer. */
  predicate Matches(x: Authorization, r: AuthorizeAnswer) {
    match x
    case Issued(code) => r == Redirected(code)
    case SentToLogin => r == LoginFirst
    case SentToTerms => r == TermsFirst
    case SentToConsent => r == ConsentFirst
    case Refused(why) => r == NotAuthorized(why)
    case _ => false
  }

  /** The client is registered with this redirect, and both are named. */
  predicate Known(clients: map<string, OAuthClient>, r: Request) {
    r.client != "" && r.redirect != "" && r.client in clients && r.redirect in clients[r.client].redirects
  }

  predicate SomeScopeAllowed(client: OAuthClient, scopes: seq<string>) {
    exists x :: x in scopes && x in client.allowedScopes
  }

  /** Everything asked of a request before its session is looked at. */
  predicate Admitted(clients: map<string, OAuthClient>, r: Request) {
    && Known(clients, r) && r.responseType == "code" && (r.challenge != NoChallenge ==> r.s256)
    && SomeScopeAllowed(clients[r.client], r.scopes) && (clients[r.client].isPublic ==> r.challenge != NoChallenge)
  }

  /** There is a session, and it is no older than the request allows, give or take a minute. */
  predicate SessionServes(r: Request, session: Option<Session>, now: int) {
    session.Some? && (r.maxAge.Some? ==> now / SECOND - session.value.authTime <= r.maxAge.value + 60)
  }

  predicate NeedsConsent(clients: map<string, OAuthClient>, grants: map<(string, string), seq<string>>, r: Request,
                         user: string)
    requires r.client in clients
  {
    && !clients[r.client].firstParty
    && ((user, r.client) !in grants
        || exists x :: x in r.scopes && x in clients[r.client].allowedScopes && x !in grants[(user, r.client)])
  }

  datatype TokenError = InvalidRequest | InvalidClient | InvalidGrant

  datatype TokenResponse = TokenResponse(user: string, session: string, client: string, scopes: seq<string>,
                                         idToken: bool)

  class Provider {
    var clients: map<string, OAuthClient>
    var grants: map<(string, string), seq<string>>
    const codes: CacheClient.Client<Code>

    constructor (clients: map<string, OAuthClient>, grants: map<(string, string), seq<string>>,
                 codes: CacheClient.Client<Code>)
      ensures this.clients == clients && this.grants == grants && this.codes == codes
    {
      this.clients, this.grants, this.codes := clients, grants, codes;
    }

    ghost predicate Shows(s: State)
      reads this, codes
    {
      clients == s.clients && grants == s.grants && codes.mem == Plain(s.codes)
    }

    /** Without a stored grant the answer is no, even for an empty request. */
    method HasGrant(user: string, client: string, requested: seq<string>) returns (granted: bool)
      ensures granted <==> (user, client) in grants && forall x :: x in requested ==> x in grants[(user, client)]
    {
      if (user, client) !in grants {
        return false;
      }
      var scopes := grants[(user, client)];
      for i := 0 to |requested|
        invariant forall k :: 0 <= k < i ==> requested[k] in scopes
      {
        if requested[i] !in scopes {
          assert requested[i] in requested;
          return false;
        }
      }
      return true;
    }

    method CheckRequest(r: Request) returns (scopes: Result<seq<string>, Refusal>)
      ensures scopes == Gates(clients, r)
      ensures scopes.Ok? <==> Admitted(clients, r)
      ensures scopes.Ok? ==>
                forall x :: x in scopes.value <==> x in r.scopes && x in clients[r.client].allowedScopes
      ensures scopes == Err(MissingParameter) <==> r.client == "" || r.redirect == ""
      ensures scopes == Err(UnknownClient) <==> r.client != "" && r.redirect != "" && r.client !in clients
      ensures scopes == Err(RedirectNotRegistered) <==>
                && r.client != "" && r.redirect != "" && r.client in clients
                && r.redirect !in clients[r.client].redirects
      ensures scopes == Err(UnsupportedResponseType) <==> Known(clients, r) && r.responseType != "code"
      ensures scopes == Err(OnlyS256) <==>
                Known(clients, r) && r.responseType == "code" && r.challenge != NoChallenge && !r.s256
      ensures scopes == Err(InvalidScope) <==>
                && Known(clients, r) && r.responseType == "code" && (r.challenge != NoChallenge ==> r.s256)
                && !SomeScopeAllowed(clients[r.client], r.scopes)
      ensures scopes == Err(PkceRequired) <==>
                && Known(clients, r) && r.responseType == "code" && SomeScopeAllowed(clients[r.client], r.scopes)
                && clients[r.client].isPublic && r.challenge == NoChallenge
    {
      hide FilterScopes;
      if r.client == "" || r.redirect == "" {
        return Err(MissingParameter);
      }
      if r.client !in clients {
        return Err(UnknownClient);
      }
      var client := clients[r.client];
      if r.redirect !in client.redirects {
        return Err(RedirectNotRegistered);
      }
      if r.responseType != "code" {
        return Err(UnsupportedResponseType);
      }
      if r.challenge != NoChallenge && !r.s256 {
        return Err(OnlyS256);
      }
      var allowed := AllowedScopes(client, r.scopes);
      if |allowed| == 0 {
        return Err(InvalidScope);
      }
      assert allowed[0] in allowed;
      if client.isPublic && r.challenge == NoChallenge {
        return Err(PkceRequired);
      }
      return Ok(allowed);
    }

    /** One authorization request does what the machine's four steps do. A code is stored only when the
        answer redirects with it; a disabled cache stores none, and the answer is the same. */
    method Authorize(now: int, r: Request, session: Option<Session>, termsPending: bool, code: string, ghost s: State,
                     ghost a: int)
      returns (answer: AuthorizeAnswer)
      requires Shows(s) && s.now == now && a !in s.authorizations && code !in s.used
      modifies codes
      ensures codes.enabled ==> Shows(Authorized(s, a, r, session, termsPending, code))
      ensures !codes.enabled ==> codes.mem == old(codes.mem)
      ensures a in Authorized(s, a, r, session, termsPending, code).authorizations
              && Matches(Authorized(s, a, r, session, termsPending, code).authorizations[a], answer)
      ensures !answer.Redirected? ==> codes.mem == old(codes.mem)
      ensures answer.NotAuthorized? <==> !Admitted(clients, r)
      ensures answer == LoginFirst <==> Admitted(clients, r) && !SessionServes(r, session, now)
      ensures answer == TermsFirst <==> Admitted(clients, r) && SessionServes(r, session, now) && termsPending
      ensures answer == ConsentFirst <==>
                && Admitted(clients, r) && SessionServes(r, session, now) && !termsPending
                && NeedsConsent(clients, grants, r, session.value.user)
      ensures answer.Redirected? <==>
                && Admitted(clients, r) && SessionServes(r, session, now) && !termsPending
                && !NeedsConsent(clients, grants, r, session.value.user)
      ensures answer.Redirected? ==> answer.code == code
      ensures answer.Redirected? && codes.enabled ==>
                && code in codes.mem && codes.mem == old(codes.mem)[code := codes.mem[code]]
                && codes.mem[code].expires == now + 60 * SECOND && codes.mem[code].data.Value?
                && var c := codes.mem[code].data.v;
                   && c.user == session.value.user && c.session == session.value.id && c.client == r.client
                   && c.redirect == r.redirect && c.challenge == r.challenge
                   && forall x :: x in c.scopes <==> x in r.scopes && x in clients[r.client].allowedScopes
    {
      hide Gates, Plain, Authorized, FilterScopes, SomeScopeAllowed, Admitted;
      AuthorizedCases(s, a, r, session, termsPending, code);
      hide Next;
      GatesMean(clients, r);
      var scopes := CheckRequest(r);
      if scopes.Err? {
        return NotAuthorized(scopes.error);
      }
      if session.None? {
        return LoginFirst;
      }
      var sess := session.value;
      if r.maxAge.Some? && now / SECOND - sess.authTime > r.maxAge.value + MAX_AGE_GRACE {
        return LoginFirst;
      }
      if termsPending {
        return TermsFirst;
      }
      if !clients[r.client].firstParty {
        var granted := HasGrant(sess.user, r.client, scopes.value);
        if !granted {
          return ConsentFirst;
        }
      }
      var c := Code(sess.user, sess.id, r.client, r.redirect, scopes.value, r.challenge);
      codes.Set(now, code, Value(c), CODE_TTL);
      PlainPut(s.codes, now, code, StoredCode(c, s.steps, s.steps + 2, s.steps + 3));
      answer := Redirected(code);
    }

    /** The exchange takes the code out before checking it, and answers with tokens exactly when the
        machine's three steps issue a token set, for the stored user, session and scopes. A disabled cache
        finds no code. */
    method AuthorizationCode(now: int, code: string, client: string, redirect: string, verifier: string, secretOk: bool,
                             userAndSessionOk: bool, ghost s: State, ghost x: int)
      returns (r: Result<TokenResponse, TokenError>)
      requires Shows(s) && s.now == now && x !in s.exchanges
      modifies codes
      ensures !codes.enabled ==> r.Err? && codes.mem == old(codes.mem)
      ensures codes.enabled ==> Shows(Exchanged(s, x, code, client, redirect, verifier, secretOk, userAndSessionOk))
      ensures codes.enabled ==>
              var end := Exchanged(s, x, code, client, redirect, verifier, secretOk, userAndSessionOk);
              if r.Ok? then
                && |end.issued| == |s.issued| + 1
                && var t := end.issued[|s.issued|];
                   r.value == TokenResponse(t.user, t.session, t.client, t.scopes, "openid" in t.scopes)
              else end.issued == s.issued
      ensures r == Err(InvalidRequest) <==> code == "" || client == "" || redirect == ""
      ensures r == Err(InvalidClient) <==>
              code != "" && client != "" && redirect != ""
                && (client !in clients || (!clients[client].isPublic && !secretOk))
      ensures r == Err(InvalidRequest) || r == Err(InvalidClient) ==> codes.mem == old(codes.mem)
      ensures codes.mem ==
              if codes.enabled && r != Err(InvalidRequest) && r != Err(InvalidClient) then old(codes.mem) - {code}
              else old(codes.mem)
      ensures r.Ok? <==>
                && code != "" && client != "" && redirect != ""
                && client in clients && (clients[client].isPublic || secretOk)
                && codes.enabled && code in old(codes.mem) && now <= old(codes.mem)[code].expires
                && old(codes.mem)[code].data.Value?
                && (var c := old(codes.mem)[code].data.v;
                    && c.client == client && c.redirect == redirect
                    && (c.challenge != NoChallenge ==> verifier != "" && c.challenge == Digest(verifier)))
                && userAndSessionOk
      ensures r.Ok? ==>
                var c, t := old(codes.mem)[code].data.v, r.value;
                && t.user == c.user && t.session == c.session && t.client == client && t.scopes == c.scopes
                && (t.idToken <==> "openid" in c.scopes)
    {
      hide Plain, Exchanged, Read;
      ExchangedCases(s, x, code, client, redirect, verifier, secretOk, userAndSessionOk);
      hide Next, Redeemable;
      if code == "" || client == "" || redirect == "" {
        return Err(InvalidRequest);
      }
      if client !in clients {
        return Err(InvalidClient);
      }
      if !clients[client].isPublic && !secretOk {
        return Err(InvalidClient);
      }
      PlainRemove(s.codes, now, code);
      RedeemableMeans(s.codes, now, code, client, redirect, verifier, s.steps);
      var found := codes.GetDel(now, code);
      if found.Err? || !found.value.Value? {
        return Err(InvalidGrant);
      }
      var ac := found.value.v;
      if ac.client != client {
        return Err(InvalidGrant);
      }
      if ac.redirect != redirect {
        return Err(InvalidGrant);
      }
      if ac.challenge != NoChallenge {
        if verifier == "" {
          return Err(InvalidGrant);
        }
        if !VerifyPkce(verifier, ac.challenge) {
          return Err(InvalidGrant);
        }
      }
      if !userAndSessionOk {
        return Err(InvalidGrant);
      }
      r := Ok(TokenResponse(ac.user, ac.session, client, ac.scopes, "openid" in ac.scopes));
    }

    method MergeScopes(existing: seq<string>, more: seq<string>) returns (merged: seq<string>)
      ensures merged == Merged(existing, more)
      ensures forall x :: x in merged <==> x in existing || x in more
      ensures NoRepeats(merged)
      ensures NoRepeats(existing) ==> existing <= merged
    {
      MergedShape(existing, more);
      var all := existing + more;
      merged := [];
      for i := 0 to |all|
        invariant Without(all, []) == merged + Without(all[i..], merged)
      {
        if all[i] !in merged {
          merged := merged + [all[i]];
        }
        assert all[i..][1..] == all[i + 1..];
      }
    }

    /** An approval adds the client's allowed scopes to the user's grant and keeps the earlier ones. */
    method ConsentDecision(user: string, client: string, redirect: string, scopes: seq<string>, approved: bool,
                           ghost s: State, ghost d: int)
      returns (recorded: bool)
      requires Shows(s) && d !in s.decisions
      modifies this
      ensures clients == old(clients)
      ensures Shows(ConsentDecided(s, d, user, client, redirect, scopes, approved))
      ensures recorded ==>
                && client in s.clients && (user, client) in grants
                && forall x :: x in grants[(user, client)] <==>
                     (x in Granted(s, user, client) || (x in scopes && x in s.clients[client].allowedScopes))
      ensures !recorded ==> grants == old(grants)
      ensures recorded <==>
                && user != "" && client in clients && redirect in clients[client].redirects && approved
                && SomeScopeAllowed(clients[client], scopes)
      ensures recorded ==>
                && grants == old(grants)[(user, client) := grants[(user, client)]]
                && forall x :: x in grants[(user, client)] <==>
                     || ((user, client) in old(grants) && x in old(grants)[(user, client)])
                     || (x in scopes && x in clients[client].allowedScopes)
    {
      hide Plain, ConsentDecided, FilterScopes, Merged;
      ConsentCases(s, d, user, client, redirect, scopes, approved);
      hide Next;
      if user == "" || client !in clients || redirect !in clients[client].redirects || !approved {
        return false;
      }
      var allowed := AllowedScopes(clients[client], scopes);
      if |allowed| == 0 {
        return false;
      }
      assert allowed[0] in allowed;
      var existing := if (user, client) in grants then grants[(user, client)] else [];
      var merged := MergeScopes(existing, allowed);
      grants := grants[(user, client) := merged];
      forall x ensures x in merged <==>
        x in Granted(s, user, client) || (x in scopes && x in s.clients[client].allowedScopes) {
        MergedElements(existing, allowed, x);
        FilterScopesKeeps(clients[client], scopes);
      }
      recorded := true;
    }
  }

  predicate TooOld(r: Request, session: Session, now: int) {
    r.maxAge.Some? && now / SECOND - session.authTime > r.maxAge.value + MAX_AGE_GRACE
  }

  /** Where an undisturbed authorization request ends. */
  lemma AuthorizedCases(s: State, a: int, r: Request, session: Option<Session>, termsPending: bool, code: string)
    requires a !in s.authorizations && code !in s.used
    ensures var end := Authorized(s, a, r, session, termsPending, code);
            var scopes := Gates(s.clients, r);
            && end == s.(steps := s.steps + 4, authorizations := end.authorizations, codes := end.codes,
                         used := end.used)
            && a in end.authorizations
            && if scopes.Err? then end.authorizations[a] == Refused(scopes.error) && end.codes == s.codes
               else if session.None? || TooOld(r, session.value, s.now) then end.authorizations[a] == SentToLogin
                 && end.codes == s.codes
               else if termsPending then end.authorizations[a] == SentToTerms && end.codes == s.codes
               else
                 r.client in s.clients
                 && if !s.clients[r.client].firstParty && !HasGrant(s, session.value.user, r.client, scopes.value) then
                      end.authorizations[a] == SentToConsent && end.codes == s.codes
                    else
                      var sc := StoredCode(Code(session.value.user, session.value.id, r.client, r.redirect,
                                                scopes.value, r.challenge),
                                           s.steps, s.steps + 2, s.steps + 3);
                      end.authorizations[a] == Issued(code)
                        && end.codes == Put(s.codes, s.now, code, Value(sc), CODE_TTL)
  {
    GatesMean(s.clients, r);
    hide Gates, FilterScopes, HasGrant, Next, TooOld, Put;
    var scopes := Gates(s.clients, r);
    var x1 := if scopes.Ok? then Gated(r, s.clients[r.client].firstParty, scopes.value, s.steps)
        else Refused(scopes.error);
    GateStep(s, a, r);
    var x2 := AfterSession(x1, s.now, session, termsPending);
    SessionOnly(s, a, x1, session, termsPending);
    var x3 := AfterConsent(s, x2, s.steps + 2);
    ConsentOnly(s, a, x2);
    StoreOnly(s, a, x3, code);
  }

  function Standing(s: State, k: nat, a: int, x: Authorization): State {
    s.(steps := s.steps + k, authorizations := s.authorizations[a := x])
  }

  lemma GateStep(s: State, a: int, r: Request)
    requires a !in s.authorizations
    ensures var scopes := Gates(s.clients, r);
            && (scopes.Ok? ==> r.client in s.clients)
            && Next(s, Authorize(a, r)) ==
               Standing(s, 1, a, if scopes.Ok? then Gated(r, s.clients[r.client].firstParty, scopes.value, s.steps)
                        else Refused(scopes.error))
  {
    GatesMean(s.clients, r);
    hide Gates;
  }

  function AfterSession(x: Authorization, now: int, session: Option<Session>, termsPending: bool): Authorization {
    if !x.Gated? then x
    else if session.None? || TooOld(x.request, session.value, now) then SentToLogin
    else if termsPending then SentToTerms
    else SignedIn(x.request, x.firstParty, x.scopes, x.read, session.value.user, session.value.id)
  }

  lemma SessionOnly(s: State, a: int, x: Authorization, session: Option<Session>, termsPending: bool)
    ensures Next(Standing(s, 1, a, x), CheckSession(a, session, termsPending)) ==
            Standing(s, 2, a, AfterSession(x, s.now, session, termsPending))
  {
    var y := AfterSession(x, s.now, session, termsPending);
    assert s.authorizations[a := x][a := y] == s.authorizations[a := y];
  }

  function AfterConsent(s: State, x: Authorization, step: nat): Authorization {
    if !x.SignedIn? then x
    else if x.firstParty || AuthCode.HasGrant(s, x.user, x.request.client, x.scopes) then
      Approved(x.request, x.scopes, x.read, x.user, x.session, step)
    else SentToConsent
  }

  lemma ConsentOnly(s: State, a: int, x: Authorization)
    ensures Next(Standing(s, 2, a, x), CheckConsent(a)) == Standing(s, 3, a, AfterConsent(s, x, s.steps + 2))
  {
    var y := AfterConsent(s, x, s.steps + 2);
    assert x.SignedIn? ==>
        HasGrant(Standing(s, 2, a, x), x.user, x.request.client, x.scopes) ==
          HasGrant(s, x.user, x.request.client, x.scopes);
    hide HasGrant;
    assert s.authorizations[a := x][a := y] == s.authorizations[a := y];
  }

  lemma StoreOnly(s: State, a: int, x: Authorization, code: string)
    requires code !in s.used
    ensures var end := Next(Standing(s, 3, a, x), StoreCode(a, code));
            && end == s.(steps := s.steps + 4, authorizations := end.authorizations, codes := end.codes,
                         used := end.used)
            && a in end.authorizations
            && (!x.Approved? ==> end.authorizations[a] == x && end.codes == s.codes)
            && (x.Approved? ==>
                  var sc := StoredCode(Code(x.user, x.session, x.request.client, x.request.redirect, x.scopes,
                                            x.request.challenge), x.read, x.asked, s.steps + 3);
                  end.authorizations[a] == Issued(code) && end.codes == Put(s.codes, s.now, code, Value(sc), CODE_TTL))
  {
    hide Put;
  }

  lemma PlainPut(mem: Mem<StoredCode>, now: int, code: string, sc: StoredCode)
    ensures Plain(Put(mem, now, code, Value(sc), CODE_TTL)) == Put(Plain(mem), now, code, Value(sc.code), CODE_TTL)
  {}

  ghost predicate NoRepeats(s: seq<string>) {
    forall i, j :: 0 <= i < j < |s| ==> s[i] != s[j]
  }

  lemma {:induction false} WithoutDistinct(s: seq<string>, seen: seq<string>)
    ensures NoRepeats(Without(s, seen))
  {
    if s == [] {
      assert Without(s, seen) == [];
    } else if s[0] in seen {
      WithoutDistinct(s[1..], seen);
      assert Without(s, seen) == Without(s[1..], seen);
    } else {
      var rest := Without(s[1..], seen + [s[0]]);
      WithoutDistinct(s[1..], seen + [s[0]]);
      WithoutElements(s[1..], seen + [s[0]], s[0]);
      var w := Without(s, seen);
      assert w == [s[0]] + rest;
      forall i, j | 0 <= i < j < |w| ensures w[i] != w[j] {
        assert w[j] == rest[j - 1] && rest[j - 1] in rest;
        if i > 0 {
          assert w[i] == rest[i - 1];
        }
      }
    }
  }

  lemma {:induction false} WithoutKeeps(a: seq<string>, b: seq<string>, seen: seq<string>)
    requires NoRepeats(a)
    requires forall x :: x in a ==> x !in seen
    ensures a <= Without(a + b, seen)
  {
    if a == [] {
      assert a <= Without(a + b, seen);
    } else {
      assert (a + b)[0] == a[0] && (a + b)[1..] == a[1..] + b && a == [a[0]] + a[1..];
      assert a[0] in a && a[0] !in seen;
      forall x | x in a[1..] ensures x in a && x !in seen + [a[0]] {
        var i :| 0 <= i < |a[1..]| && a[1..][i] == x;
        assert a[0] != a[i + 1];
      }
      WithoutKeeps(a[1..], b, seen + [a[0]]);
      assert Without(a + b, seen) == [a[0]] + Without(a[1..] + b, seen + [a[0]]);
    }
  }

  lemma MergedShape(existing: seq<string>, more: seq<string>)
    ensures var merged := Merged(existing, more);
            && (forall x :: x in merged <==> x in existing || x in more)
            && NoRepeats(merged)
            && (NoRepeats(existing) ==> existing <= merged)
  {
    forall x ensures x in Merged(existing, more) <==> x in existing || x in more {
      MergedElements(existing, more, x);
    }
    WithoutDistinct(existing + more, []);
    if NoRepeats(existing) {
      WithoutKeeps(existing, more, []);
    }
  }

  lemma MergedElements(existing: seq<string>, more: seq<string>, x: string)
    ensures x in Merged(existing, more) <==> x in existing || x in more
  {
    WithoutElements(existing + more, [], x);
  }

  lemma PlainRemove(mem: Mem<StoredCode>, now: int, code: string)
    ensures Plain(Remove(mem, code)) == Remove(Plain(mem), code)
    ensures Readable(Plain(mem), now, code) <==> Readable(mem, now, code)
    ensures code in mem ==> code in Plain(mem) && Plain(mem)[code].data == PlainData(mem[code].data)
  {}


  lemma RedeemableMeans(mem: Mem<StoredCode>, now: int, code: string, client: string, redirect: string,
                        verifier: string, began: nat)
    ensures var found := Read(mem, now, code);
            && (found.Some? <==> Readable(mem, now, code))
            && (found.Some? ==> found.value == mem[code].data)
            && (found.Some? && found.value.Value? ==>
                  var ac := found.value.v.code;
                  Redeemable(Authenticated(code, client, redirect, verifier, began), ac) <==>
                    && ac.client == client && ac.redirect == redirect
                    && (ac.challenge != NoChallenge ==> verifier != "" && VerifyPkce(verifier, ac.challenge)))
  {}

  predicate Acceptable(s: State, code: string, client: string, redirect: string, secretOk: bool) {
    code != "" && client != "" && redirect != "" && client in s.clients && (s.clients[client].isPublic || secretOk)
  }

  lemma BeginOnly(s: State, x: int, code: string, client: string, redirect: string, verifier: string, secretOk: bool)
    requires x !in s.exchanges
    ensures Next(s, Exchange(x, code, client, redirect, verifier, secretOk)) ==
            s.(steps := s.steps + 1,
               exchanges := s.exchanges[x := if Acceptable(s, code, client, redirect, secretOk) then
                                        Authenticated(code, client, redirect, verifier, s.steps) else Answered])
  {}

  /** What looking the code up makes of an exchange. */
  function Redemption(s: State, e: AuthCode.Exchange): AuthCode.Exchange {
    if !e.Authenticated? then e
    else
      var found := Read(s.codes, s.now, e.code);
      if found.Some? && found.value.Value? && Redeemable(e, found.value.v.code) then
        Redeemed(e.code, e.client, e.redirect, e.verifier, e.began, found.value.v, s.steps)
      else Answered
  }

  lemma RedeemOnly(s: State, x: int)
    requires x in s.exchanges
    ensures Next(s, Redeem(x)) ==
            s.(steps := s.steps + 1, exchanges := s.exchanges[x := Redemption(s, s.exchanges[x])],
               codes := if s.exchanges[x].Authenticated? then Remove(s.codes, s.exchanges[x].code) else s.codes)
  {
    hide Read, Remove, Redeemable;
    assert s.exchanges[x := s.exchanges[x]] == s.exchanges;
  }

  lemma AnswerOnly(s: State, x: int, ok: bool)
    requires x in s.exchanges
    ensures var t, e := Next(s, Answer(x, ok)), s.exchanges[x];
            && t.clients == s.clients && t.grants == s.grants && t.codes == s.codes
            && t.issued == if e.Redeemed? && ok then
                             var c := e.stored.code;
                             s.issued + [TokenSet(e.code, e.client, e.redirect, e.verifier, c.user, c.session, c.scopes,
                                                  e.began, e.stored, e.at)]
                           else s.issued
  {}

  /** Where an undisturbed exchange ends. */
  lemma ExchangedCases(s: State, x: int, code: string, client: string, redirect: string, verifier: string,
                       secretOk: bool, ok: bool)
    requires x !in s.exchanges
    ensures var end := Exchanged(s, x, code, client, redirect, verifier, secretOk, ok);
            && end.clients == s.clients && end.grants == s.grants
            && if !Acceptable(s, code, client, redirect, secretOk) then end.codes == s.codes && end.issued == s.issued
               else
                 && end.codes == Remove(s.codes, code)
                 && var found := Read(s.codes, s.now, code);
                    if found.Some? && found.value.Value? && ok
                      && Redeemable(Authenticated(code, client, redirect, verifier, s.steps), found.value.v.code) then
                      var c := found.value.v.code;
                      end.issued == s.issued
                        + [TokenSet(code, client, redirect, verifier, c.user, c.session, c.scopes, s.steps,
                                    found.value.v, s.steps + 1)]
                    else end.issued == s.issued
  {
    hide Read, Remove, Redeemable, Next, Acceptable;
    BeginOnly(s, x, code, client, redirect, verifier, secretOk);
    var s1 := Next(s, Exchange(x, code, client, redirect, verifier, secretOk));
    RedeemOnly(s1, x);
    AnswerOnly(Next(s1, Redeem(x)), x, ok);
  }

  lemma DecideOnly(s: State, d: int, user: string, client: string, redirect: string, scopes: seq<string>,
                   approved: bool)
    requires d !in s.decisions
    ensures Next(s, Decide(d, user, client, redirect, scopes, approved)) ==
            s.(steps := s.steps + 1, decisions := s.decisions[d := Judged(s, user, client, redirect, scopes, approved)])
  {
    hide Judged;
  }

  lemma MergeOnly(s: State, d: int)
    requires d in s.decisions && !s.decisions[d].Merging?
    ensures var end := Next(Next(s, ReadGrant(d)), PutGrant(d));
            && end.clients == s.clients && end.codes == s.codes
            && var x := s.decisions[d];
               end.grants == if x.Decided? then s.grants
                             else s.grants[(x.user, x.client) := Merged(Granted(s, x.user, x.client), x.scopes)]
  {
    hide Merged, Granted;
    var x := s.decisions[d];
    if x.Deciding? {
      assert Next(s, ReadGrant(d)) == s.(steps := s.steps + 1,
        decisions := s.decisions[d := Merging(x.user, x.client, x.scopes, x.at, s.steps,
                                              Granted(s, x.user, x.client))]);
    }
  }

  /** Where an undisturbed consent decision ends. */
  lemma ConsentCases(s: State, d: int, user: string, client: string, redirect: string, scopes: seq<string>,
                     approved: bool)
    requires d !in s.decisions
    ensures var end := ConsentDecided(s, d, user, client, redirect, scopes, approved);
            && end.clients == s.clients && end.codes == s.codes
            && if user == "" || client !in s.clients || redirect !in s.clients[client].redirects || !approved
                  || FilterScopes(s.clients[client], scopes) == [] then end.grants == s.grants
               else end.grants == s.grants[(user, client) := Merged(Granted(s, user, client),
                                                                    FilterScopes(s.clients[client], scopes))]
  {
    DecideOnly(s, d, user, client, redirect, scopes, approved);
    hide FilterScopes, Merged, Next;
    var s1 := Next(s, Decide(d, user, client, redirect, scopes, approved));
    MergeOnly(s1, d);
    assert Granted(s1, user, client) == Granted(s, user, client);
  }
}
