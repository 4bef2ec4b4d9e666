/**
 * The authorization-code flow as interleaved steps: authorization requests, consent decisions and code
 * exchanges run side by side while clients, grants and the clock change. What the session and user
 * services answer is part of the step. A code challenge is a perfect digest.
 */
module AuthCode {
  import opened Wrappers
  import opened CacheClient
  import opened OauthClients
  import Keys

  const SECOND := Keys.SECOND
  const CODE_TTL := 60 * SECOND
  const MAX_AGE_GRACE := 60

  datatype Challenge = NoChallenge | Digest(verifier: string) | OtherText

  predicate VerifyPkce(verifier: string, challenge: Challenge) {
    challenge == Digest(verifier)
  }

  datatype Request = Request(client: string, redirect: string, responseType: string, scopes: seq<string>,
                             challenge: Challenge, s256: bool, maxAge: Option<nat>)

  datatype Refusal =
    | MissingParameter | UnknownClient | RedirectNotRegistered
    | UnsupportedResponseType | OnlyS256 | InvalidScope | PkceRequired

  /** The checks before the session is looked at, in order; the result is the scopes to grant. */
  function Gates(clients: map<string, OAuthClient>, r: Request): Result<seq<string>, Refusal> {
    if r.client == "" || r.redirect == "" then Err(MissingParameter)
    else if r.client !in clients then Err(UnknownClient)
    else
      var c := clients[r.client];
      if r.redirect !in c.redirects then Err(RedirectNotRegistered)
      else if r.responseType != "code" then Err(UnsupportedResponseType)
      else if r.challenge != NoChallenge && !r.s256 then Err(OnlyS256)
      else if FilterScopes(c, r.scopes) == [] then Err(InvalidScope)
      else if c.isPublic && r.challenge == NoChallenge then Err(PkceRequired)
      else Ok(FilterScopes(c, r.scopes))
  }

  datatype Code = Code(user: string, session: string, client: string, redirect: string, scopes: seq<string>,
                       challenge: Challenge)

  /** A stored code with the steps at which its client was read, its consent asked and itself stored;
      the steps are recorded for stating the theorem only. */
  datatype StoredCode = StoredCode(code: Code, read: nat, asked: nat, stored: nat)

  datatype Session = Session(user: string, id: string, authTime: int)

  datatype Authorization =
    | Gated(request: Request, firstParty: bool, scopes: seq<string>, read: nat)
    | SignedIn(request: Request, firstParty: bool, scopes: seq<string>, read: nat, user: string, session: string)
    | Approved(request: Request, scopes: seq<string>, read: nat, user: string, session: string, asked: nat)
    | Refused(why: Refusal)
    | SentToLogin | SentToTerms | SentToConsent
    | Issued(code: string)

  datatype Decision =
    | Deciding(user: string, client: string, scopes: seq<string>, at: nat)
    | Merging(user: string, client: string, scopes: seq<string>, at: nat, read: nat, existing: seq<string>)
    | Decided

  /** A registration that has found its client id free and is about to store the client. */
  datatype Creation = Creating(id: string, registration: OAuthClient) | Created

  datatype Exchange =
    | Authenticated(code: string, client: string, redirect: string, verifier: string, began: nat)
    | Redeemed(code: string, client: string, redirect: string, verifier: string, began: nat, stored: StoredCode,
               at: nat)
    | Answered

  /** One token response: access token, id token and refresh token together. */
  datatype TokenSet = TokenSet(code: string, client: string, redirect: string, verifier: string, user: string,
                               session: string, scopes: seq<string>, began: nat, stored: StoredCode, redeemed: nat)

  datatype State = State(
    steps: nat,
    now: int,
    clients: map<string, OAuthClient>,
    creations: map<int, Creation>,
    grants: map<(string, string), seq<string>>,
    codes: Mem<StoredCode>,
    used: set<string>,
    authorizations: map<int, Authorization>,
    decisions: map<int, Decision>,
    exchanges: map<int, Exchange>,
    issued: seq<TokenSet>)

  datatype Act =
    | Wait(until: int)
    | CheckFree(o: int, id: string, registration: OAuthClient)
    | StoreClient(o: int)
    | UpdateClient(id: string, redirects: Option<seq<string>>, allowed: Option<seq<string>>, upserts: bool)
    | DeleteClient(id: string)
    | Revoke(user: string, client: string)
    | Authorize(a: int, request: Request)
    | CheckSession(a: int, session: Option<Session>, termsPending: bool)
    | CheckConsent(a: int)
    | StoreCode(a: int, code: string)
    | Decide(d: int, user: string, client: string, redirect: string, scopes: seq<string>, approved: bool)
    | ReadGrant(d: int)
    | PutGrant(d: int)
    | Exchange(x: int, code: string, client: string, redirect: string, verifier: string, secretOk: bool)
    | Redeem(x: int)
    | Answer(x: int, userAndSessionOk: bool)

  function Granted(s: State, user: string, client: string): seq<string> {
    if (user, client) in s.grants then s.grants[(user, client)] else []
  }

  predicate Covers(granted: seq<string>, requested: seq<string>) {
    forall x :: x in requested ==> x in granted
  }

  /** There is a grant and it covers the scopes. */
  predicate HasGrant(s: State, user: string, client: string, requested: seq<string>) {
    (user, client) in s.grants && Covers(s.grants[(user, client)], requested)
  }

  function Without(s: seq<string>, seen: seq<string>): seq<string> {
    if s == [] then []
    else if s[0] in seen then Without(s[1..], seen)
    else [s[0]] + Without(s[1..], seen + [s[0]])
  }

  /** Earlier scopes first, each once. */
  function Merged(existing: seq<string>, more: seq<string>): seq<string> {
    Without(existing + more, [])
  }

  lemma {:induction false} WithoutElements(s: seq<string>, seen: seq<string>, x: string)
    ensures x in Without(s, seen) <==> x in s && x !in seen
  {
    if s != [] {
      WithoutElements(s[1..], if s[0] in seen then seen else seen + [s[0]], x);
      assert s == [s[0]] + s[1..];
    }
  }

  function SetAuthorization(s: State, a: int, x: Authorization): State {
    s.(authorizations := s.authorizations[a := x])
  }

  /** The session must exist and be young enough for max_age; pending terms go first. */
  function SessionStep(s: State, a: int, session: Option<Session>, termsPending: bool): State {
    if a !in s.authorizations || !s.authorizations[a].Gated? then s
    else
      var x := s.authorizations[a];
      SetAuthorization(s, a,
        if session.None? then SentToLogin
        else if x.request.maxAge.Some?
          && s.now / SECOND - session.value.authTime > x.request.maxAge.value + MAX_AGE_GRACE then SentToLogin
        else if termsPending then SentToTerms
        else SignedIn(x.request, x.firstParty, x.scopes, x.read, session.value.user, session.value.id))
  }

  /** Third-party clients need a grant that covers the scopes. */
  function ConsentStep(s: State, a: int): State {
    if a !in s.authorizations || !s.authorizations[a].SignedIn? then s
    else
      var x := s.authorizations[a];
      SetAuthorization(s, a,
        if x.firstParty || HasGrant(s, x.user, x.request.client, x.scopes) then
          Approved(x.request, x.scopes, x.read, x.user, x.session, s.steps)
        else SentToConsent)
  }

  /** Generated codes never repeat. */
  function StoreStep(s: State, a: int, code: string): State {
    if a !in s.authorizations || !s.authorizations[a].Approved? || code in s.used then s
    else
      var x := s.authorizations[a];
      var stored := StoredCode(Code(x.user, x.session, x.request.client, x.request.redirect, x.scopes,
                                    x.request.challenge),
                               x.read, x.asked, s.steps);
      SetAuthorization(s.(codes := Put(s.codes, s.now, code, Value(stored), CODE_TTL), used := s.used + {code}), a,
                       Issued(code))
  }

  /** What a consent decision starts with: the approved scopes the client is allowed, or nothing to record. */
  function Judged(s: State, user: string, client: string, redirect: string, scopes: seq<string>,
                  approved: bool): Decision {
    if user == "" || client !in s.clients || redirect !in s.clients[client].redirects || !approved
       || FilterScopes(s.clients[client], scopes) == [] then Decided
    else Deciding(user, client, FilterScopes(s.clients[client], scopes), s.steps)
  }

  function DecisionStep(s: State, act: Act): State
    requires act.Decide? || act.ReadGrant? || act.PutGrant?
  {
    match act
    case Decide(d, user, client, redirect, scopes, approved) =>
      if d in s.decisions then s
      else s.(decisions := s.decisions[d := Judged(s, user, client, redirect, scopes, approved)])
    case ReadGrant(d) =>
      if d in s.decisions && s.decisions[d].Deciding? then
        var x := s.decisions[d];
        s.(decisions := s.decisions[d := Merging(x.user, x.client, x.scopes, x.at, s.steps,
                                                 Granted(s, x.user, x.client))])
      else s
    case PutGrant(d) =>
      if d in s.decisions && s.decisions[d].Merging? then
        var x := s.decisions[d];
        s.(grants := s.grants[(x.user, x.client) := Merged(x.existing, x.scopes)],
           decisions := s.decisions[d := Decided])
      else s
    case _ => s
  }

  function SetExchange(s: State, x: int, e: Exchange): State {
    s.(exchanges := s.exchanges[x := e])
  }

  predicate Redeemable(e: Exchange, code: Code) {
    && e.Authenticated?
    && code.client == e.client && code.redirect == e.redirect
    && (code.challenge != NoChallenge ==> e.verifier != "" && VerifyPkce(e.verifier, code.challenge))
  }

  /** The client authenticates itself before its code is looked up. */
  function Presented(s: State, code: string, client: string, redirect: string, verifier: string,
                     secretOk: bool): Exchange {
    if code == "" || client == "" || redirect == "" || client !in s.clients
      || (!s.clients[client].isPublic && !secretOk) then Answered
    else Authenticated(code, client, redirect, verifier, s.steps)
  }

  function BeginStep(s: State, x: int, code: string, client: string, redirect: string, verifier: string,
                     secretOk: bool): State {
    if x in s.exchanges then s else SetExchange(s, x, Presented(s, code, client, redirect, verifier, secretOk))
  }

  /** The code is taken out before anything about it is checked. */
  function RedeemStep(s: State, x: int): State {
    if x !in s.exchanges || !s.exchanges[x].Authenticated? then s
    else
      var e := s.exchanges[x];
      var found := Read(s.codes, s.now, e.code);
      SetExchange(s.(codes := Remove(s.codes, e.code)), x,
        if found.Some? && found.value.Value? && Redeemable(e, found.value.v.code) then
          Redeemed(e.code, e.client, e.redirect, e.verifier, e.began, found.value.v, s.steps)
        else Answered)
  }

  function TokensFor(e: Exchange): TokenSet
    requires e.Redeemed?
  {
    var c := e.stored.code;
    TokenSet(e.code, e.client, e.redirect, e.verifier, c.user, c.session, c.scopes, e.began, e.stored, e.at)
  }

  function AnswerStep(s: State, x: int, ok: bool): State {
    if x !in s.exchanges || !s.exchanges[x].Redeemed? then s
    else
      var t := SetExchange(s, x, Answered);
      if ok then t.(issued := s.issued + [TokensFor(s.exchanges[x])]) else t
  }

  /** What an update of the given fields leaves. The store library, which is not part of this model, either
      refuses a missing row or creates one without a type. */
  function Updated(clients: map<string, OAuthClient>, id: string, redirects: Option<seq<string>>,
                   allowed: Option<seq<string>>, upserts: bool): map<string, OAuthClient> {
    if id !in clients && !upserts then clients
    else
      var c := if id in clients then clients[id] else OAuthClient(false, false, [], []);
      clients[id := c.(redirects := if redirects.Some? then redirects.value else c.redirects,
                       allowedScopes := if allowed.Some? then allowed.value else c.allowedScopes)]
  }

  /** A registration looks the id up before it stores the client, in two steps. */
  function ClientStep(s: State, act: Act): State
    requires act.CheckFree? || act.StoreClient? || act.UpdateClient? || act.DeleteClient?
  {
    match act
    case CheckFree(o, id, registration) =>
      if o in s.creations then s
      else s.(creations := s.creations[o := if id in s.clients then Created else Creating(id, registration)])
    case StoreClient(o) =>
      if o in s.creations && s.creations[o].Creating? then
        s.(clients := s.clients[s.creations[o].id := s.creations[o].registration],
           creations := s.creations[o := Created])
      else s
    case UpdateClient(id, redirects, allowed, upserts) =>
      s.(clients := Updated(s.clients, id, redirects, allowed, upserts))
    case DeleteClient(id) => s.(clients := s.clients - {id})
  }

  function Effect(s: State, act: Act): State {
    match act
    case Wait(t) => if s.now <= t then s.(now := t) else s
    case CheckFree(_, _, _) => ClientStep(s, act)
    case StoreClient(_) => ClientStep(s, act)
    case UpdateClient(_, _, _, _) => ClientStep(s, act)
    case DeleteClient(_) => ClientStep(s, act)
    case Revoke(user, client) => s.(grants := s.grants - {(user, client)})
    case Authorize(a, r) =>
      if a in s.authorizations then s
      else
        var scopes := Gates(s.clients, r);
        SetAuthorization(s, a, if scopes.Ok? then Gated(r, s.clients[r.client].firstParty, scopes.value, s.steps)
                         else Refused(scopes.error))
    case CheckSession(a, session, termsPending) => SessionStep(s, a, session, termsPending)
    case CheckConsent(a) => ConsentStep(s, a)
    case StoreCode(a, code) => StoreStep(s, a, code)
    case Decide(_, _, _, _, _, _) => DecisionStep(s, act)
    case ReadGrant(_) => DecisionStep(s, act)
    case PutGrant(_) => DecisionStep(s, act)
    case Exchange(x, code, client, redirect, verifier, secretOk) =>
      BeginStep(s, x, code, client, redirect, verifier, secretOk)
    case Redeem(x) => RedeemStep(s, x)
    case Answer(x, ok) => AnswerStep(s, x, ok)
  }

  function Next(s: State, act: Act): (t: State)
    ensures t.steps == s.steps + 1
  {
    Effect(s, act).(steps := s.steps + 1)
  }

  function At(s: State, acts: seq<Act>, n: nat): State
    requires n <= |acts|
  {
    if n == 0 then s else Next(At(s, acts, n - 1), acts[n - 1])
  }

  predicate Start(s: State) {
    s.steps == 0 && s.creations == map[] && s.grants == map[] && s.codes == map[] && s.used == {}
      && s.authorizations == map[] && s.decisions == map[]
    && s.exchanges == map[] && s.issued == []
  }

  // ---------------------------------------------------------------- what each step leaves alone

  predicate OnClients(act: Act) {
    act.CheckFree? || act.StoreClient? || act.UpdateClient? || act.DeleteClient?
  }

  predicate OnAuthorizations(act: Act) {
    act.Authorize? || act.CheckSession? || act.CheckConsent? || act.StoreCode?
  }

  predicate OnDecisions(act: Act) {
    act.Decide? || act.ReadGrant? || act.PutGrant?
  }

  predicate OnExchanges(act: Act) {
    act.Exchange? || act.Redeem? || act.Answer?
  }

  predicate Leaves(s: State, t: State, act: Act) {
    && (!OnClients(act) ==> t.clients == s.clients && t.creations == s.creations)
    && (!OnAuthorizations(act) ==> t.authorizations == s.authorizations)
    && (!OnDecisions(act) ==> t.decisions == s.decisions)
    && (!OnDecisions(act) && !act.Revoke? ==> t.grants == s.grants)
    && (!OnExchanges(act) ==> t.exchanges == s.exchanges)
    && (!act.Answer? ==> t.issued == s.issued)
    && (!act.StoreCode? ==> t.used == s.used)
    && (!act.StoreCode? && !act.Redeem? ==> t.codes == s.codes)
  }

  lemma ClientFrame(s: State, act: Act)
    requires OnClients(act)
    ensures Leaves(s, ClientStep(s, act), act)
  {
    hide Updated;
  }

  lemma AuthorizationFrame(s: State, a: int, session: Option<Session>, termsPending: bool, code: string)
    ensures Leaves(s, SessionStep(s, a, session, termsPending), CheckSession(a, session, termsPending))
    ensures Leaves(s, ConsentStep(s, a), CheckConsent(a))
    ensures Leaves(s, StoreStep(s, a, code), StoreCode(a, code))
  {
    hide HasGrant, Put;
  }

  lemma DecisionFrame(s: State, d: int, user: string, client: string, redirect: string, scopes: seq<string>,
                      approved: bool)
    ensures var act := Decide(d, user, client, redirect, scopes, approved); Leaves(s, DecisionStep(s, act), act)
    ensures Leaves(s, DecisionStep(s, ReadGrant(d)), ReadGrant(d))
    ensures Leaves(s, DecisionStep(s, PutGrant(d)), PutGrant(d))
  {
    hide Judged, Merged, Granted;
  }

  lemma BeginFrame(s: State, x: int, code: string, client: string, redirect: string, verifier: string, secretOk: bool)
    ensures Leaves(s, BeginStep(s, x, code, client, redirect, verifier, secretOk),
                   Exchange(x, code, client, redirect, verifier, secretOk))
  {
    hide Presented;
  }

  lemma RedeemFrame(s: State, x: int)
    ensures Leaves(s, RedeemStep(s, x), Redeem(x))
  {
    hide Redeemable, Read, Remove;
  }

  predicate Answers(s: State, x: int) {
    x in s.exchanges && s.exchanges[x].Redeemed?
  }

  lemma AnswerEffect(s: State, x: int, ok: bool)
    ensures var t := AnswerStep(s, x, ok);
            && t.exchanges == (if Answers(s, x) then s.exchanges[x := Answered] else s.exchanges)
            && t.issued == (if Answers(s, x) && ok then s.issued + [TokensFor(s.exchanges[x])] else s.issued)
  {
    hide TokensFor;
  }

  lemma AnswerFrame(s: State, x: int, ok: bool)
    ensures Leaves(s, AnswerStep(s, x, ok), Answer(x, ok))
  {
    hide TokensFor;
  }

  lemma PlainFrame(s: State, until: int, user: string, client: string)
    ensures Leaves(s, Effect(s, Wait(until)), Wait(until))
    ensures Leaves(s, Effect(s, Revoke(user, client)), Revoke(user, client))
  {
    hide ClientStep, SessionStep, ConsentStep, StoreStep, DecisionStep, BeginStep, RedeemStep, AnswerStep, Gates;
  }

  lemma GateFrame(s: State, a: int, r: Request)
    ensures Leaves(s, Effect(s, Authorize(a, r)), Authorize(a, r))
  {
    hide Gates;
  }

  lemma EffectFrame(s: State, act: Act)
    ensures Leaves(s, Effect(s, act), act)
  {
    hide Leaves, ClientStep, SessionStep, ConsentStep, StoreStep, DecisionStep, BeginStep, RedeemStep, AnswerStep,
      Gates, SetAuthorization;
    if OnClients(act) {
      ClientFrame(s, act);
    } else if act.Decide? {
      DecisionFrame(s, act.d, act.user, act.client, act.redirect, act.scopes, act.approved);
    } else if act.ReadGrant? || act.PutGrant? {
      DecisionFrame(s, act.d, "", "", "", [], false);
    } else if act.Exchange? {
      BeginFrame(s, act.x, act.code, act.client, act.redirect, act.verifier, act.secretOk);
    } else if act.Redeem? {
      RedeemFrame(s, act.x);
    } else if act.Answer? {
      AnswerFrame(s, act.x, act.userAndSessionOk);
    } else if act.CheckSession? {
      AuthorizationFrame(s, act.a, act.session, act.termsPending, "");
    } else if act.CheckConsent? {
      AuthorizationFrame(s, act.a, None, false, "");
    } else if act.StoreCode? {
      AuthorizationFrame(s, act.a, None, false, act.code);
    } else if act.Wait? {
      PlainFrame(s, act.until, "", "");
    } else if act.Revoke? {
      PlainFrame(s, 0, act.user, act.client);
    } else {
      GateFrame(s, act.a, act.request);
    }
  }

  lemma Frame(s: State, act: Act)
    ensures Leaves(s, Next(s, act), act)
  {
    EffectFrame(s, act);
    hide Effect, OnClients, OnAuthorizations, OnDecisions, OnExchanges;
  }

  // ---------------------------------------------------------------- a code is redeemed once

  ghost predicate Spent(s: State, code: string) {
    code in s.used && code !in s.codes
  }

  predicate Holds(s: State, x: int, code: string) {
    x in s.exchanges && s.exchanges[x].Redeemed? && s.exchanges[x].code == code
  }

  ghost predicate StoredAreUsed(s: State) {
    forall c :: c in s.codes ==> c in s.used
  }

  ghost predicate HeldOnce(s: State) {
    && (forall x, c :: Holds(s, x, c) ==> Spent(s, c))
    && (forall x, y, c :: Holds(s, x, c) && Holds(s, y, c) ==> x == y)
  }

  ghost predicate IssuedOnce(s: State) {
    && (forall i :: 0 <= i < |s.issued| ==> Spent(s, s.issued[i].code) && forall x :: !Holds(s, x, s.issued[i].code))
    && (forall i, j :: 0 <= i < j < |s.issued| ==> s.issued[i].code != s.issued[j].code)
  }

  ghost predicate OnceInv(s: State) {
    StoredAreUsed(s) && HeldOnce(s) && IssuedOnce(s)
  }

  /** Steps that free no code: nothing spent comes back, and nobody holds a code they did not hold. */
  lemma QuietStep(s: State, t: State)
    requires OnceInv(s) && StoredAreUsed(t) && t.issued == s.issued
    requires forall c :: Spent(s, c) ==> Spent(t, c)
    requires forall x, c :: Holds(t, x, c) ==> Holds(s, x, c)
    ensures OnceInv(t)
  {}

  lemma RedeemEffect(s: State, x: int)
    requires StoredAreUsed(s) && x in s.exchanges && s.exchanges[x].Authenticated?
    ensures var t := RedeemStep(s, x);
            && StoredAreUsed(t) && t.issued == s.issued && t.used == s.used
               && t.codes == s.codes - {s.exchanges[x].code}
            && t.exchanges == s.exchanges[x := t.exchanges[x]]
            && (t.exchanges[x].Redeemed? ==>
                s.exchanges[x].code in s.codes && t.exchanges[x].code == s.exchanges[x].code)
  {
    hide Redeemable;
  }

  lemma RedeemOnce(s: State, x: int)
    requires OnceInv(s)
    ensures OnceInv(Next(s, Redeem(x)))
  {
    hide RedeemStep;
    var t := Next(s, Redeem(x));
    if x in s.exchanges && s.exchanges[x].Authenticated? {
      RedeemEffect(s, x);
      hide Next;
      var code := s.exchanges[x].code;
      if t.exchanges[x].Redeemed? {
        RedeemedOnce(s, t, x, code);
      } else {
        QuietStep(s, t);
      }
    } else {
      RedeemNothing(s, x);
      SameCodes(s, t);
      QuietStep(s, t);
    }
  }

  lemma RedeemNothing(s: State, x: int)
    requires x !in s.exchanges || !s.exchanges[x].Authenticated?
    ensures RedeemStep(s, x) == s
  {}

  lemma RedeemedOnce(s: State, t: State, x: int, code: string)
    requires OnceInv(s) && StoredAreUsed(t) && t.issued == s.issued
    requires !Spent(s, code) && Spent(t, code)
    requires forall c :: Spent(s, c) ==> Spent(t, c)
    requires forall y, c :: Holds(t, y, c) ==> Holds(s, y, c) || (y == x && c == code)
    ensures OnceInv(t)
  {}

  lemma AnswerOnce(s: State, x: int, ok: bool)
    requires OnceInv(s)
    ensures OnceInv(Next(s, Answer(x, ok)))
  {
    AnswerEffect(s, x, ok);
    Frame(s, Answer(x, ok));
    hide AnswerStep;
    var t := Next(s, Answer(x, ok));
    assert t.codes == s.codes && t.used == s.used;
    forall y, c | Holds(t, y, c) ensures Holds(s, y, c) {}
    if t.issued == s.issued {
      QuietStep(s, t);
    } else {
      var code := s.exchanges[x].code;
      assert Holds(s, x, code);
      forall y ensures !Holds(t, y, code) {
        if Holds(t, y, code) {
          assert false;
        }
      }
      AnsweredOnce(s, t, code);
    }
  }

  lemma AnsweredOnce(s: State, t: State, code: string)
    requires OnceInv(s) && t.codes == s.codes && t.used == s.used
    requires |t.issued| == |s.issued| + 1 && t.issued[..|s.issued|] == s.issued && t.issued[|s.issued|].code == code
    requires exists x :: Holds(s, x, code)
    requires forall y, c :: Holds(t, y, c) ==> Holds(s, y, c)
    requires forall y :: !Holds(t, y, code)
    ensures OnceInv(t)
  {
    forall i | 0 <= i < |t.issued| ensures Spent(t, t.issued[i].code) && forall x :: !Holds(t, x, t.issued[i].code) {
      if i < |s.issued| {
        assert t.issued[i] == s.issued[i];
      }
    }
    forall i, j | 0 <= i < j < |t.issued| ensures t.issued[i].code != t.issued[j].code {
      assert t.issued[i] == s.issued[i];
      if j < |s.issued| {
        assert t.issued[j] == s.issued[j];
      }
    }
  }

  lemma StepKeepsOnce(s: State, act: Act)
    requires OnceInv(s)
    ensures OnceInv(Next(s, act))
  {
    if act.Redeem? {
      RedeemOnce(s, act.x);
    } else if act.Answer? {
      AnswerOnce(s, act.x, act.userAndSessionOk);
    } else {
      OtherStep(s, act);
      QuietStep(s, Next(s, act));
    }
  }

  ghost predicate Quiet(s: State, t: State) {
    && StoredAreUsed(t) && t.issued == s.issued
    && (forall c :: Spent(s, c) ==> Spent(t, c))
    && (forall x, c :: Holds(t, x, c) ==> Holds(s, x, c))
  }

  lemma SameCodes(s: State, t: State)
    requires StoredAreUsed(s) && t.exchanges == s.exchanges && t.issued == s.issued && t.codes == s.codes
    requires t.used == s.used
    ensures Quiet(s, t)
  {}

  lemma StoreCodeIsQuiet(s: State, t: State, code: string)
    requires StoredAreUsed(s) && t.exchanges == s.exchanges && t.issued == s.issued
    requires code !in s.used && t.codes.Keys == s.codes.Keys + {code} && t.used == s.used + {code}
    ensures Quiet(s, t)
  {}

  lemma StoreEffect(s: State, a: int, code: string)
    ensures var t := StoreStep(s, a, code);
            t.(authorizations := s.authorizations) == s ||
            (code !in s.used && t.codes.Keys == s.codes.Keys + {code} && t.used == s.used + {code}
             && t.exchanges == s.exchanges && t.issued == s.issued)
  {}

  lemma StoreIsQuiet(s: State, a: int, code: string)
    requires StoredAreUsed(s)
    ensures Quiet(s, Next(s, StoreCode(a, code)))
  {
    StoreEffect(s, a, code);
    Frame(s, StoreCode(a, code));
    hide StoreStep, StoredAreUsed, Quiet;
    var t := Next(s, StoreCode(a, code));
    if t.codes == s.codes && t.used == s.used {
      SameCodes(s, t);
    } else {
      StoreCodeIsQuiet(s, t, code);
    }
  }

  lemma NewExchangeIsQuiet(s: State, t: State, x: int, e: Exchange)
    requires StoredAreUsed(s) && t.issued == s.issued && t.codes == s.codes && t.used == s.used
    requires !e.Redeemed? && t.exchanges == s.exchanges[x := e]
    ensures Quiet(s, t)
  {}

  lemma BeginEffect(s: State, x: int, code: string, client: string, redirect: string, verifier: string, secretOk: bool)
    ensures var t := BeginStep(s, x, code, client, redirect, verifier, secretOk);
            t == s || (x !in s.exchanges && exists e: Exchange :: !e.Redeemed? && t == SetExchange(s, x, e))
  {}

  lemma ExchangeIsQuiet(s: State, act: Act)
    requires StoredAreUsed(s) && act.Exchange?
    ensures Quiet(s, Next(s, act))
  {
    BeginEffect(s, act.x, act.code, act.client, act.redirect, act.verifier, act.secretOk);
    hide BeginStep, Quiet, StoredAreUsed;
    var t := BeginStep(s, act.x, act.code, act.client, act.redirect, act.verifier, act.secretOk);
    if t == s {
      SameCodes(s, Next(s, act));
    } else {
      var e: Exchange :| !e.Redeemed? && t == SetExchange(s, act.x, e);
      NewExchangeIsQuiet(s, Next(s, act), act.x, e);
    }
  }

  lemma OtherStep(s: State, act: Act)
    requires OnceInv(s) && !act.Redeem? && !act.Answer?
    ensures Quiet(s, Next(s, act))
  {
    hide HeldOnce, IssuedOnce;
    if act.StoreCode? {
      StoreIsQuiet(s, act.a, act.code);
    } else if act.Exchange? {
      ExchangeIsQuiet(s, act);
    } else {
      Frame(s, act);
      hide Next, Quiet, StoredAreUsed;
      SameCodes(s, Next(s, act));
    }
  }

  lemma {:induction false} RunKeepsOnce(s: State, acts: seq<Act>, n: nat)
    requires Start(s) && n <= |acts|
    ensures OnceInv(At(s, acts, n)) && At(s, acts, n).steps == n
  {
    hide Next, OnceInv;
    if n > 0 {
      RunKeepsOnce(s, acts, n - 1);
      StepKeepsOnce(At(s, acts, n - 1), acts[n - 1]);
    } else {
      StartOnce(s);
    }
  }

  lemma StartOnce(s: State)
    requires Start(s)
    ensures OnceInv(s)
  {}

  /** Each authorization code yields at most one token set, however many requests present it. */
  lemma OneTokenSetPerCode(s: State, acts: seq<Act>, i: nat, j: nat)
    requires Start(s)
    requires i < j < |At(s, acts, |acts|).issued|
    ensures At(s, acts, |acts|).issued[i].code != At(s, acts, |acts|).issued[j].code
  {
    hide Next;
    RunKeepsOnce(s, acts, |acts|);
  }

  // ---------------------------------------------------------------- what a token set stands for

  predicate PassedGates(s: State, r: Request, scopes: seq<string>, firstParty: bool) {
    Gates(s.clients, r) == Ok(scopes) && firstParty == s.clients[r.client].firstParty
  }

  /** Step read is the authorization request. */
  predicate RequestedAt(acts: seq<Act>, n: nat, read: nat, r: Request)
    requires n <= |acts|
  {
    read < n && acts[read].Authorize? && acts[read].request == r
  }

  predicate AuthorizationOk(s: State, acts: seq<Act>, n: nat, x: Authorization)
    requires n <= |acts|
  {
    match x
    case Gated(r, firstParty, scopes, read) => RequestedAt(acts, n, read, r)
      && PassedGates(At(s, acts, read), r, scopes, firstParty)
    case SignedIn(r, firstParty, scopes, read, _, _) => RequestedAt(acts, n, read, r)
      && PassedGates(At(s, acts, read), r, scopes, firstParty)
    case Approved(r, scopes, read, user, session, asked) =>
      read <= asked <= n && RequestedAt(acts, n, read, r)
      && (PassedGates(At(s, acts, read), r, scopes, true)
          || (PassedGates(At(s, acts, read), r, scopes, false) && HasGrant(At(s, acts, asked), user, r.client, scopes)))
    case _ => true
  }

  /** The step is an authorization request for a code, for this code's client, redirect, scopes and challenge,
      with S256 if there is a challenge. */
  predicate Requests(act: Act, code: Code) {
    && act.Authorize? && act.request.client == code.client && act.request.redirect == code.redirect
    && act.request.challenge == code.challenge && Covers(act.request.scopes, code.scopes)
    && act.request.responseType == "code" && (code.challenge != NoChallenge ==> act.request.s256)
  }

  /** What held when the code was issued. The client was registered with the redirect and every scope; a
      public client had sent a challenge; a third-party client had the user's consent to every scope. */
  predicate CodeOk(s: State, acts: seq<Act>, n: nat, sc: StoredCode)
    requires n <= |acts|
  {
    && sc.read <= sc.asked <= sc.stored <= n && sc.read < n && Requests(acts[sc.read], sc.code)
    && var code := sc.code;
       var clients := At(s, acts, sc.read).clients;
       && code.client in clients
       && code.redirect in clients[code.client].redirects
       && code.scopes != [] && Covers(clients[code.client].allowedScopes, code.scopes)
       && (clients[code.client].isPublic ==> code.challenge != NoChallenge)
       && (!clients[code.client].firstParty ==> HasGrant(At(s, acts, sc.asked), code.user, code.client, code.scopes))
  }

  predicate EntryOk(s: State, acts: seq<Act>, n: nat, e: Entry<StoredCode>)
    requires n <= |acts|
  {
    e.data.Value? && CodeOk(s, acts, n, e.data.v) && e.expires == At(s, acts, e.data.v.stored).now + CODE_TTL
  }

  /** The client authenticated itself at step k: it is public there, or its secret was right. */
  predicate ClientAuthenticated(s: State, acts: seq<Act>, k: nat, client: string)
    requires k < |acts|
  {
    && acts[k].Exchange? && acts[k].client == client
    && client in At(s, acts, k).clients && (At(s, acts, k).clients[client].isPublic || acts[k].secretOk)
  }

  predicate Proven(challenge: Challenge, verifier: string) {
    challenge != NoChallenge ==> VerifyPkce(verifier, challenge)
  }

  predicate ExchangeOk(s: State, acts: seq<Act>, n: nat, e: Exchange)
    requires n <= |acts|
  {
    match e
    case Authenticated(_, client, _, _, began) => began < n && ClientAuthenticated(s, acts, began, client)
    case Redeemed(_, client, redirect, verifier, began, sc, at) =>
      && began < n && ClientAuthenticated(s, acts, began, client)
      && CodeOk(s, acts, n, sc) && sc.code.client == client && sc.code.redirect == redirect
         && Proven(sc.code.challenge, verifier)
      && at <= n && At(s, acts, at).now <= At(s, acts, sc.stored).now + CODE_TTL
    case Answered => true
  }

  predicate TokenOk(s: State, acts: seq<Act>, n: nat, t: TokenSet)
    requires n <= |acts|
  {
    && t.began < n && ClientAuthenticated(s, acts, t.began, t.client)
    && CodeOk(s, acts, n, t.stored)
    && t.client == t.stored.code.client && t.redirect == t.stored.code.redirect && t.user == t.stored.code.user
    && t.session == t.stored.code.session && t.scopes == t.stored.code.scopes
    && Proven(t.stored.code.challenge, t.verifier)
    && t.redeemed <= n && At(s, acts, t.redeemed).now <= At(s, acts, t.stored.stored).now + CODE_TTL
  }

  ghost predicate AuthorizationsOk(s: State, acts: seq<Act>, n: nat)
    requires n <= |acts|
  {
    forall a :: a in At(s, acts, n).authorizations ==> AuthorizationOk(s, acts, n, At(s, acts, n).authorizations[a])
  }

  ghost predicate EntriesOk(s: State, acts: seq<Act>, n: nat)
    requires n <= |acts|
  {
    forall c :: c in At(s, acts, n).codes ==> EntryOk(s, acts, n, At(s, acts, n).codes[c])
  }

  ghost predicate ExchangesOk(s: State, acts: seq<Act>, n: nat)
    requires n <= |acts|
  {
    forall x :: x in At(s, acts, n).exchanges ==> ExchangeOk(s, acts, n, At(s, acts, n).exchanges[x])
  }

  ghost predicate TokensOk(s: State, acts: seq<Act>, n: nat)
    requires n <= |acts|
  {
    forall i :: 0 <= i < |At(s, acts, n).issued| ==> TokenOk(s, acts, n, At(s, acts, n).issued[i])
  }

  lemma GatesMean(clients: map<string, OAuthClient>, r: Request)
    ensures Gates(clients, r).Ok? ==>
              && r.client in clients && r.redirect in clients[r.client].redirects
              && Gates(clients, r).value != [] && Covers(clients[r.client].allowedScopes, Gates(clients, r).value)
              && Covers(r.scopes, Gates(clients, r).value)
              && r.responseType == "code" && (r.challenge != NoChallenge ==> r.s256)
              && (clients[r.client].isPublic ==> r.challenge != NoChallenge)
  {
    if r.client in clients {
      FilterScopesKeeps(clients[r.client], r.scopes);
    }
  }

  /** Every fact about step n still holds at step n + 1. */
  lemma FactsLast(s: State, acts: seq<Act>, n: nat)
    requires n < |acts|
    ensures forall x :: AuthorizationOk(s, acts, n, x) ==> AuthorizationOk(s, acts, n + 1, x)
    ensures forall sc :: CodeOk(s, acts, n, sc) ==> CodeOk(s, acts, n + 1, sc)
    ensures forall e :: EntryOk(s, acts, n, e) ==> EntryOk(s, acts, n + 1, e)
    ensures forall e :: ExchangeOk(s, acts, n, e) ==> ExchangeOk(s, acts, n + 1, e)
    ensures forall t :: TokenOk(s, acts, n, t) ==> TokenOk(s, acts, n + 1, t)
  {
    hide At, PassedGates, Covers, HasGrant, Requests;
  }

  lemma GatedOk(s: State, acts: seq<Act>, n: nat, a: int, r: Request)
    requires n < |acts| && acts[n] == Authorize(a, r) && At(s, acts, n).steps == n
    requires a !in At(s, acts, n).authorizations
    ensures AuthorizationOk(s, acts, n + 1, At(s, acts, n + 1).authorizations[a])
  {
    hide Gates;
    assert At(s, acts, n + 1) == Next(At(s, acts, n), acts[n]);
  }

  lemma SessionOk(s: State, acts: seq<Act>, n: nat, t: State, a: int, session: Option<Session>, termsPending: bool)
    requires n < |acts| && a in t.authorizations && AuthorizationOk(s, acts, n, t.authorizations[a])
    ensures AuthorizationOk(s, acts, n + 1, SessionStep(t, a, session, termsPending).authorizations[a])
  {
    hide At, PassedGates, Covers, HasGrant, Requests;
  }

  lemma ConsentOk(s: State, acts: seq<Act>, n: nat, t: State, a: int)
    requires n < |acts| && t == At(s, acts, n) && t.steps == n && a in t.authorizations
    requires AuthorizationOk(s, acts, n, t.authorizations[a])
    ensures AuthorizationOk(s, acts, n + 1, ConsentStep(t, a).authorizations[a])
  {
    hide At, Gates, Covers, HasGrant;
  }

  lemma StoreOk(s: State, acts: seq<Act>, n: nat, t: State, a: int, code: string)
    requires n < |acts| && a in t.authorizations && AuthorizationOk(s, acts, n, t.authorizations[a])
    ensures AuthorizationOk(s, acts, n + 1, StoreStep(t, a, code).authorizations[a])
  {
    hide At, PassedGates, Covers, HasGrant, Requests;
  }

  predicate Touches(act: Act, a: int) {
    match act
    case Authorize(b, _) => b == a
    case CheckSession(b, _, _) => b == a
    case CheckConsent(b) => b == a
    case StoreCode(b, _) => b == a
    case _ => false
  }

  lemma SessionTouchesOne(t: State, a: int, b: int, session: Option<Session>, termsPending: bool)
    requires a != b
    ensures b in SessionStep(t, a, session, termsPending).authorizations <==> b in t.authorizations
    ensures b in t.authorizations ==> SessionStep(t, a, session, termsPending).authorizations[b] == t.authorizations[b]
  {}

  lemma ConsentTouchesOne(t: State, a: int, b: int)
    requires a != b
    ensures b in ConsentStep(t, a).authorizations <==> b in t.authorizations
    ensures b in t.authorizations ==> ConsentStep(t, a).authorizations[b] == t.authorizations[b]
  {
    hide HasGrant;
  }

  lemma StoreTouchesOne(t: State, a: int, b: int, code: string)
    requires a != b
    ensures b in StoreStep(t, a, code).authorizations <==> b in t.authorizations
    ensures b in t.authorizations ==> StoreStep(t, a, code).authorizations[b] == t.authorizations[b]
  {
    hide Put;
  }

  lemma GateTouchesOne(t: State, a: int, b: int, r: Request)
    requires a != b
    ensures b in Effect(t, Authorize(a, r)).authorizations <==> b in t.authorizations
    ensures b in t.authorizations ==> Effect(t, Authorize(a, r)).authorizations[b] == t.authorizations[b]
  {
    hide Gates;
  }

  lemma Untouched(t: State, act: Act, a: int)
    requires !Touches(act, a) && a in Next(t, act).authorizations
    ensures a in t.authorizations && Next(t, act).authorizations[a] == t.authorizations[a]
  {
    hide SessionStep, ConsentStep, StoreStep, Gates;
    if !OnAuthorizations(act) {
      Frame(t, act);
      hide Next;
    } else if act.Authorize? {
      GateTouchesOne(t, act.a, a, act.request);
      hide Effect;
    } else if act.CheckSession? {
      SessionTouchesOne(t, act.a, a, act.session, act.termsPending);
    } else if act.CheckConsent? {
      ConsentTouchesOne(t, act.a, a);
    } else {
      StoreTouchesOne(t, act.a, a, act.code);
    }
  }

  lemma AuthorizationKeeps(s: State, acts: seq<Act>, n: nat, a: int)
    requires n < |acts| && At(s, acts, n).steps == n && AuthorizationsOk(s, acts, n)
    requires a in At(s, acts, n + 1).authorizations
    ensures AuthorizationOk(s, acts, n + 1, At(s, acts, n + 1).authorizations[a])
  {
    var t, act := At(s, acts, n), acts[n];
    assert At(s, acts, n + 1) == Next(t, act);
    FactsLast(s, acts, n);
    hide At, AuthorizationOk, SessionStep, ConsentStep, StoreStep, Gates;
    if !Touches(act, a) {
      Untouched(t, act, a);
    } else if a in t.authorizations {
      match act
      case Authorize(_, _) =>
      case CheckSession(_, session, termsPending) => SessionOk(s, acts, n, t, a, session, termsPending);
      case CheckConsent(_) => ConsentOk(s, acts, n, t, a);
      case StoreCode(_, code) => StoreOk(s, acts, n, t, a, code);
    } else {
      NewcomerGated(t, act, a);
      GatedOk(s, acts, n, a, act.request);
    }
  }

  lemma NewcomerGated(t: State, act: Act, a: int)
    requires Touches(act, a) && a !in t.authorizations && a in Next(t, act).authorizations
    ensures act.Authorize?
  {
    hide Gates, FilterScopes, Merged, Updated, Covers, HasGrant;
  }

  lemma {:induction false} AuthorizationsKeep(s: State, acts: seq<Act>, n: nat)
    requires Start(s) && n <= |acts|
    ensures AuthorizationsOk(s, acts, n)
  {
    hide Next;
    if n > 0 {
      AuthorizationsKeep(s, acts, n - 1);
      RunKeepsOnce(s, acts, n - 1);
      hide At, AuthorizationOk, OnceInv;
      forall a | a in At(s, acts, n).authorizations
        ensures AuthorizationOk(s, acts, n, At(s, acts, n).authorizations[a]) {
        AuthorizationKeeps(s, acts, n - 1, a);
      }
    }
  }

  /** A code is stored only for a request that passed every gate. */
  lemma EntryKeeps(s: State, acts: seq<Act>, n: nat, code: string)
    requires Start(s) && n < |acts| && EntriesOk(s, acts, n) && code in At(s, acts, n + 1).codes
    ensures EntryOk(s, acts, n + 1, At(s, acts, n + 1).codes[code])
  {
    hide At, EntryOk, OnceInv, StoreStep, AuthorizationOk;
    var t, act := At(s, acts, n), acts[n];
    AtNext(s, acts, n);
    FactsLast(s, acts, n);
    RunKeepsOnce(s, acts, n);
    AuthorizationsKeep(s, acts, n);
    if act.StoreCode? && act.code == code && act.a in t.authorizations && t.authorizations[act.a].Approved?
      && code !in t.used {
      StoredEntry(s, acts, n, t, act.a, code);
    } else {
      OldEntry(t, act, code);
    }
  }

  lemma OldEntry(t: State, act: Act, code: string)
    requires code in Next(t, act).codes
    requires !(act.StoreCode? && act.code == code && act.a in t.authorizations && t.authorizations[act.a].Approved?
               && code !in t.used)
    ensures code in t.codes && Next(t, act).codes[code] == t.codes[code]
  {
    Frame(t, act);
    hide Gates, Merged, Updated, Covers, HasGrant, Redeemable, Read, DecisionStep, ClientStep, SessionStep, ConsentStep,
      BeginStep, AnswerStep;
    if act.StoreCode? || act.Redeem? {
    } else {
      hide Next;
    }
  }

  lemma StoredEntry(s: State, acts: seq<Act>, n: nat, t: State, a: int, code: string)
    requires n < |acts| && t == At(s, acts, n) && t.steps == n && acts[n] == StoreCode(a, code)
    requires a in t.authorizations && t.authorizations[a].Approved? && code !in t.used
    requires AuthorizationOk(s, acts, n, t.authorizations[a])
    ensures code in StoreStep(t, a, code).codes && EntryOk(s, acts, n + 1, StoreStep(t, a, code).codes[code])
  {
    var x := t.authorizations[a];
    GatesMean(At(s, acts, x.read).clients, x.request);
    hide At, Gates, Covers, HasGrant;
  }

  lemma {:induction false} EntriesKeep(s: State, acts: seq<Act>, n: nat)
    requires Start(s) && n <= |acts|
    ensures EntriesOk(s, acts, n)
  {
    if n > 0 {
      EntriesKeep(s, acts, n - 1);
      hide At, EntryOk;
      forall c | c in At(s, acts, n).codes ensures EntryOk(s, acts, n, At(s, acts, n).codes[c]) {
        EntryKeeps(s, acts, n - 1, c);
      }
    }
  }

  lemma BeganOk(s: State, acts: seq<Act>, n: nat, t: State, x: int)
    requires n < |acts| && t == At(s, acts, n) && t.steps == n && acts[n].Exchange? && acts[n].x == x
    requires x !in t.exchanges
    ensures var act := acts[n];
            var u := BeginStep(t, x, act.code, act.client, act.redirect, act.verifier, act.secretOk);
            x in u.exchanges && ExchangeOk(s, acts, n + 1, u.exchanges[x])
  {
    hide At;
  }

  lemma RedeemedOk(s: State, acts: seq<Act>, n: nat, t: State, x: int)
    requires n < |acts| && t == At(s, acts, n) && t.steps == n && EntriesOk(s, acts, n)
    requires x in t.exchanges && ExchangeOk(s, acts, n, t.exchanges[x])
    ensures ExchangeOk(s, acts, n + 1, RedeemStep(t, x).exchanges[x])
  {
    if t.exchanges[x].Authenticated? && Readable(t.codes, t.now, t.exchanges[x].code) {
      assert EntryOk(s, acts, n, t.codes[t.exchanges[x].code]);
      hide EntriesOk, At;
      FoundOk(s, acts, n, t, x);
    } else {
      hide EntriesOk, EntryOk;
      FactsLast(s, acts, n);
      hide At, CodeOk, ClientAuthenticated;
    }
  }

  lemma FoundOk(s: State, acts: seq<Act>, n: nat, t: State, x: int)
    requires n < |acts| && t == At(s, acts, n) && t.steps == n
    requires x in t.exchanges && t.exchanges[x].Authenticated? && ExchangeOk(s, acts, n, t.exchanges[x])
    requires Readable(t.codes, t.now, t.exchanges[x].code) && EntryOk(s, acts, n, t.codes[t.exchanges[x].code])
    ensures ExchangeOk(s, acts, n + 1, RedeemStep(t, x).exchanges[x])
  {
    hide At, ClientAuthenticated;
    CodeLasts(s, acts, n, t.codes[t.exchanges[x].code].data.v);
    hide CodeOk;
  }

  lemma CodeLasts(s: State, acts: seq<Act>, n: nat, sc: StoredCode)
    requires n < |acts| && CodeOk(s, acts, n, sc)
    ensures CodeOk(s, acts, n + 1, sc)
  {
    hide At, Covers, HasGrant;
  }

  lemma AnsweredOk(s: State, acts: seq<Act>, n: nat, t: State, x: int, ok: bool)
    requires n < |acts| && x in t.exchanges && ExchangeOk(s, acts, n, t.exchanges[x])
    ensures ExchangeOk(s, acts, n + 1, AnswerStep(t, x, ok).exchanges[x])
    ensures var u := AnswerStep(t, x, ok);
            t.issued <= u.issued && |u.issued| <= |t.issued| + 1
            && (|u.issued| > |t.issued| ==> TokenOk(s, acts, n, u.issued[|t.issued|]))
  {
    AnswerEffect(t, x, ok);
    FactsLast(s, acts, n);
    hide At, CodeOk, ClientAuthenticated, AnswerStep;
  }

  predicate TouchesExchange(act: Act, x: int) {
    match act
    case Exchange(y, _, _, _, _, _) => y == x
    case Redeem(y) => y == x
    case Answer(y, _) => y == x
    case _ => false
  }

  lemma BeginTouchesOne(t: State, x: int, y: int, code: string, client: string, redirect: string, verifier: string,
                        secretOk: bool)
    requires x != y
    ensures y in BeginStep(t, x, code, client, redirect, verifier, secretOk).exchanges <==> y in t.exchanges
    ensures y in t.exchanges ==>
              BeginStep(t, x, code, client, redirect, verifier, secretOk).exchanges[y] == t.exchanges[y]
  {
    hide Presented;
  }

  lemma AnswerTouchesOne(t: State, x: int, y: int, ok: bool)
    requires x != y
    ensures y in AnswerStep(t, x, ok).exchanges <==> y in t.exchanges
    ensures y in t.exchanges ==> AnswerStep(t, x, ok).exchanges[y] == t.exchanges[y]
  {
    AnswerEffect(t, x, ok);
    hide AnswerStep;
  }

  lemma RedeemTouchesOne(t: State, x: int, y: int)
    requires x != y
    ensures y in RedeemStep(t, x).exchanges <==> y in t.exchanges
    ensures y in t.exchanges ==> RedeemStep(t, x).exchanges[y] == t.exchanges[y]
  {
    hide Redeemable, Read;
  }

  lemma UntouchedExchange(t: State, act: Act, x: int)
    requires !TouchesExchange(act, x) && x in Next(t, act).exchanges
    ensures x in t.exchanges && Next(t, act).exchanges[x] == t.exchanges[x]
  {
    hide BeginStep, RedeemStep, AnswerStep;
    if act.Exchange? || act.Redeem? || act.Answer? {
      match act
      case Exchange(y, code, client, redirect, verifier, secretOk) =>
        BeginTouchesOne(t, y, x, code, client, redirect, verifier, secretOk);
      case Redeem(y) => RedeemTouchesOne(t, y, x);
      case Answer(y, ok) => AnswerTouchesOne(t, y, x, ok);
    } else {
      Frame(t, act);
      hide Next;
    }
  }

  lemma NewcomerBegins(t: State, act: Act, x: int)
    requires TouchesExchange(act, x) && x !in t.exchanges && x in Next(t, act).exchanges
    ensures act.Exchange?
  {
    hide Redeemable, Read;
  }

  lemma ExchangeKeeps(s: State, acts: seq<Act>, n: nat, x: int)
    requires Start(s) && n < |acts| && ExchangesOk(s, acts, n) && x in At(s, acts, n + 1).exchanges
    ensures ExchangeOk(s, acts, n + 1, At(s, acts, n + 1).exchanges[x])
  {
    var t, act := At(s, acts, n), acts[n];
    assert At(s, acts, n + 1) == Next(t, act);
    FactsLast(s, acts, n);
    RunKeepsOnce(s, acts, n);
    EntriesKeep(s, acts, n);
    hide At, ExchangeOk, EntriesOk, OnceInv, BeginStep, RedeemStep, AnswerStep;
    if !TouchesExchange(act, x) {
      UntouchedExchange(t, act, x);
    } else if x in t.exchanges {
      match act
      case Exchange(_, code, client, redirect, verifier, secretOk) =>
        BeginsOnce(t, x, code, client, redirect, verifier, secretOk);
      case Redeem(_) => RedeemedOk(s, acts, n, t, x);
      case Answer(_, ok) => AnsweredOk(s, acts, n, t, x, ok);
    } else {
      NewcomerBegins(t, act, x);
      BeganOk(s, acts, n, t, x);
    }
  }

  lemma BeginsOnce(t: State, x: int, code: string, client: string, redirect: string, verifier: string, secretOk: bool)
    requires x in t.exchanges
    ensures BeginStep(t, x, code, client, redirect, verifier, secretOk) == t
  {}

  lemma {:induction false} ExchangesKeep(s: State, acts: seq<Act>, n: nat)
    requires Start(s) && n <= |acts|
    ensures ExchangesOk(s, acts, n)
  {
    if n > 0 {
      ExchangesKeep(s, acts, n - 1);
      hide At, ExchangeOk;
      forall x | x in At(s, acts, n).exchanges ensures ExchangeOk(s, acts, n, At(s, acts, n).exchanges[x]) {
        ExchangeKeeps(s, acts, n - 1, x);
      }
    }
  }

  lemma TokenKeeps(s: State, acts: seq<Act>, n: nat, i: nat)
    requires Start(s) && n < |acts| && TokensOk(s, acts, n) && i < |At(s, acts, n + 1).issued|
    ensures TokenOk(s, acts, n + 1, At(s, acts, n + 1).issued[i])
  {
    var t, act := At(s, acts, n), acts[n];
    assert At(s, acts, n + 1) == Next(t, act);
    FactsLast(s, acts, n);
    ExchangesKeep(s, acts, n);
    hide At, TokenOk, ExchangeOk, AnswerStep;
    if !act.Answer? {
      Frame(t, act);
    } else if act.x in t.exchanges {
      AnsweredOk(s, acts, n, t, act.x, act.userAndSessionOk);
    } else {
      NothingToAnswer(t, act.x, act.userAndSessionOk);
    }
  }

  lemma NothingToAnswer(t: State, x: int, ok: bool)
    requires x !in t.exchanges
    ensures AnswerStep(t, x, ok) == t
  {}

  /** In every run, each token set was issued for a code redeemed within its minute by the client it was
      stored for, at the redirect it was stored with, by a client that authenticated itself, with a
      verifier matching the stored challenge; and what the code stands for held when it was issued. */
  lemma {:induction false} TokensAreAuthorized(s: State, acts: seq<Act>, n: nat)
    requires Start(s) && n <= |acts|
    ensures TokensOk(s, acts, n)
  {
    if n > 0 {
      TokensAreAuthorized(s, acts, n - 1);
      hide At, TokenOk;
      forall i | 0 <= i < |At(s, acts, n).issued| ensures TokenOk(s, acts, n, At(s, acts, n).issued[i]) {
        TokenKeeps(s, acts, n - 1, i);
      }
    }
  }

  // ---------------------------------------------------------------- public clients prove possession

  /** The step deletes the client or stores a registration under its id. */
  predicate Replaces(t: State, act: Act, id: string) {
    act == DeleteClient(id)
      || (act.StoreClient? && act.o in t.creations && t.creations[act.o].Creating? && t.creations[act.o].id == id)
  }

  ghost predicate ReplacedWithin(s: State, acts: seq<Act>, m: nat, n: nat, id: string)
    requires n <= |acts|
  {
    exists k :: m <= k < n && Replaces(At(s, acts, k), acts[k], id)
  }

  lemma ClientsNext(t: State, act: Act)
    ensures Next(t, act).clients == if OnClients(act) then ClientStep(t, act).clients else t.clients
  {
    Frame(t, act);
    if OnClients(act) {
      hide ClientStep, Leaves;
    } else {
      hide Next;
    }
  }

  lemma ClientStepKeepsType(t: State, act: Act, id: string)
    requires OnClients(act) && id in t.clients && !Replaces(t, act, id)
    ensures var u := ClientStep(t, act).clients;
            id in u && u[id].isPublic == t.clients[id].isPublic && u[id].firstParty == t.clients[id].firstParty
  {}

  /** No other step changes what type of client it is, or takes it away. */
  lemma TypeStays(t: State, act: Act, id: string)
    requires id in t.clients && !Replaces(t, act, id)
    ensures var u := Next(t, act).clients;
            id in u && u[id].isPublic == t.clients[id].isPublic && u[id].firstParty == t.clients[id].firstParty
  {
    ClientsNext(t, act);
    hide Next, ClientStep, Replaces;
    if OnClients(act) {
      ClientStepKeepsType(t, act, id);
    }
  }

  lemma {:induction false} TypeFixed(s: State, acts: seq<Act>, m: nat, n: nat, id: string)
    requires m <= n <= |acts| && id in At(s, acts, m).clients && !ReplacedWithin(s, acts, m, n, id)
    ensures id in At(s, acts, n).clients && At(s, acts, n).clients[id].isPublic == At(s, acts, m).clients[id].isPublic
  {
    hide Next, Replaces;
    if m < n {
      forall k | m <= k < n - 1 ensures !Replaces(At(s, acts, k), acts[k], id) {}
      TypeFixed(s, acts, m, n - 1, id);
      assert !Replaces(At(s, acts, n - 1), acts[n - 1], id);
      TypeStays(At(s, acts, n - 1), acts[n - 1], id);
    }
  }

  /** PKCE binds public clients. A token set issued to a client that is public when it presents the code
      was issued against the verifier of the challenge stored with that code, unless between the
      authorization request and the presentation the client was deleted or registered anew under its id. */
  lemma PublicClientsProvePossession(s: State, acts: seq<Act>, i: nat)
    requires Start(s) && i < |At(s, acts, |acts|).issued|
    ensures var t := At(s, acts, |acts|).issued[i];
            && t.stored.read <= |acts| && t.began < |acts| && t.client in At(s, acts, t.began).clients
            && (At(s, acts, t.began).clients[t.client].isPublic && t.stored.code.challenge != Digest(t.verifier) ==>
                  ReplacedWithin(s, acts, t.stored.read, t.began, t.client)
                    || ReplacedWithin(s, acts, t.began, t.stored.read, t.client))
  {
    TokensAreAuthorized(s, acts, |acts|);
    hide At, ReplacedWithin;
    var t := At(s, acts, |acts|).issued[i];
    assert TokenOk(s, acts, |acts|, t);
    if t.stored.read <= t.began && !ReplacedWithin(s, acts, t.stored.read, t.began, t.client) {
      TypeFixed(s, acts, t.stored.read, t.began, t.client);
    } else if t.began <= t.stored.read && !ReplacedWithin(s, acts, t.began, t.stored.read, t.client) {
      TypeFixed(s, acts, t.began, t.stored.read, t.client);
    }
  }

  /** Exactly when possession was proved: when the authorization request carried a challenge. One that
      carried none came from a client that was not public then. */
  lemma PossessionProvedIff(s: State, acts: seq<Act>, i: nat)
    requires Start(s) && i < |At(s, acts, |acts|).issued|
    ensures var t := At(s, acts, |acts|).issued[i];
            && t.stored.read < |acts| && Requests(acts[t.stored.read], t.stored.code)
               && t.stored.code.client == t.client
            && (t.stored.code.challenge == Digest(t.verifier) <==> acts[t.stored.read].request.challenge != NoChallenge)
            && (acts[t.stored.read].request.challenge == NoChallenge ==>
                  t.client in At(s, acts, t.stored.read).clients
                    && !At(s, acts, t.stored.read).clients[t.client].isPublic)
  {
    TokensAreAuthorized(s, acts, |acts|);
    hide At;
    assert TokenOk(s, acts, |acts|, At(s, acts, |acts|).issued[i]);
  }

  lemma AtNext(s: State, acts: seq<Act>, n: nat)
    requires n < |acts|
    ensures At(s, acts, n + 1) == Next(At(s, acts, n), acts[n]) && At(s, acts, 0) == s
  {
    hide Next;
  }
}
