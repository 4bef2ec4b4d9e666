/**
 * The token service: signing with the active key, verification by key id under the active and the
 * previous key. A signature is a value only the holder of the secret can form, and it covers the
 * header and the claims. Claims are a map, as they are on the wire.
 */
module Jwt {
  import opened Wrappers
  import opened Keys
  import Strings

  datatype Claim = Text(text: string) | Number(n: int) | List(items: seq<string>) | Flag(value: bool)

  type Claims = map<string, Claim>

  datatype HeaderAlg = Named(alg: Alg) | OtherAlg

  datatype Header = Header(alg: HeaderAlg, kid: Option<nat>)

  datatype Signature = Signature(secret: nat, alg: Alg, header: Header, claims: Claims) | Forged

  datatype Token = Token(header: Header, claims: Claims, signature: Signature)

  datatype VerifyError = Rejected | NotAccessToken

  /** A published key; the public half stands for the secret it belongs to. */
  datatype Jwk = Jwk(kid: nat, alg: Alg, publicOf: nat)

  const ID_TOKEN_TTL := 3600 * SECOND

  function Signed(key: Key, claims: Claims): Token {
    var header := Header(Named(key.alg), Some(key.kid));
    Token(header, claims, Signature(key.secret, key.alg, header, claims))
  }

  /** The active key answers first, then the previous one. */
  function KeyForKid(active: Key, previous: Option<Key>, kid: Option<nat>): Option<Key> {
    if kid == Some(active.kid) then Some(active)
    else if previous.Some? && kid == Some(previous.value.kid) then previous
    else None
  }

  predicate Verifies(key: Key, t: Token) {
    t.signature == Signature(key.secret, key.alg, t.header, t.claims)
  }

  // The registered-claim checks of RFC 7519, sections 4.1.1 to 4.1.5, as the JWT library makes them.

  function Audiences(c: Claims): seq<string> {
    if "aud" !in c then []
    else match c["aud"] case Text(a) => [a] case List(items) => items case _ => []
  }

  predicate AudienceHolds(c: Claims, self: string) {
    Audiences(c) != [""] && self in Audiences(c)
  }

  predicate IssuerHolds(c: Claims, issuer: string) {
    issuer == "" || ("iss" in c && c["iss"] == Text(issuer))
  }

  /** An absent or zero date sets no bound; a date of another type is an error. */
  predicate NotExpired(c: Claims, now: int) {
    "exp" in c ==> c["exp"].Number? && (c["exp"].n == 0 || now < c["exp"].n * SECOND)
  }

  predicate AlreadyValid(c: Claims, now: int) {
    "nbf" in c ==> c["nbf"].Number? && (c["nbf"].n == 0 || c["nbf"].n * SECOND <= now)
  }

  predicate IsAccess(c: Claims) {
    "token_use" in c && c["token_use"] == Text("access")
  }

  predicate ClaimsHold(c: Claims, self: string, issuer: string, now: int) {
    AudienceHolds(c, self) && IssuerHolds(c, issuer) && NotExpired(c, now) && AlreadyValid(c, now)
  }

  /** What Verify promises to accept: exactly the access tokens signed, unaltered, by a live key
      under that key's own algorithm, whose claims hold now. */
  predicate Accepted(active: Key, previous: Option<Key>, self: string, issuer: string, now: int, t: Token) {
    && (exists key :: key in Live(active, previous) && t == Signed(key, t.claims))
    && ClaimsHold(t.claims, self, issuer, now)
    && IsAccess(t.claims)
  }

  function Live(active: Key, previous: Option<Key>): set<Key> {
    {active} + (if previous.Some? then {previous.value} else {})
  }

  /** A key id names one key. */
  predicate KidsAgree(active: Key, previous: Option<Key>) {
    previous.Some? && previous.value.kid == active.kid ==> SameKey(previous.value, active)
  }

  lemma SameKeySignsTheSame(a: Key, b: Key, claims: Claims)
    requires SameKey(a, b)
    ensures Signed(a, claims) == Signed(b, claims)
  {}

  function InsertOnce(x: string, s: seq<string>): seq<string> {
    if s == [] then [x]
    else if s[0] == x then s
    else if Strings.LexLe(x, s[0]) then [x] + s
    else [s[0]] + InsertOnce(x, s[1..])
  }

  /** Sorted, each element once. */
  function Deduplicated(s: seq<string>): seq<string> {
    if s == [] then [] else InsertOnce(s[0], Deduplicated(s[1..]))
  }

  lemma {:induction false} InsertOnceElements(x: string, s: seq<string>, y: string)
    ensures y in InsertOnce(x, s) <==> y == x || y in s
  {
    if s != [] && s[0] != x && !Strings.LexLe(x, s[0]) {
      InsertOnceElements(x, s[1..], y);
      assert s == [s[0]] + s[1..];
    }
  }

  lemma {:induction false} DeduplicatedElements(s: seq<string>, y: string)
    ensures y in Deduplicated(s) <==> y in s
  {
    if s != [] {
      InsertOnceElements(s[0], Deduplicated(s[1..]), y);
      DeduplicatedElements(s[1..], y);
      assert s == [s[0]] + s[1..];
    }
  }

  ghost predicate StrictlySorted(s: seq<string>) {
    forall i, j :: 0 <= i < j < |s| ==> Strings.LexLe(s[i], s[j]) && s[i] != s[j]
  }

  lemma SmallestFirst(x: string, s: seq<string>)
    requires StrictlySorted(s) && forall y :: y in s ==> Strings.LexLe(x, y) && x != y
    ensures StrictlySorted([x] + s)
  {
    hide Strings.LexLe;
    var t := [x] + s;
    forall i, j | 0 <= i < j < |t| ensures Strings.LexLe(t[i], t[j]) && t[i] != t[j] {
      assert t[j] == s[j - 1] && s[j - 1] in s;
      if i > 0 {
        assert t[i] == s[i - 1];
      }
    }
  }

  lemma FirstIsSmallest(s: seq<string>)
    requires s != [] && StrictlySorted(s)
    ensures StrictlySorted(s[1..]) && forall y :: y in s[1..] ==> Strings.LexLe(s[0], y) && s[0] != y
  {
    hide Strings.LexLe;
    forall y | y in s[1..] ensures Strings.LexLe(s[0], y) && s[0] != y {
      var i :| 0 <= i < |s[1..]| && s[1..][i] == y;
      assert s[i + 1] == y;
    }
  }

  lemma {:induction false} InsertOnceSorts(x: string, s: seq<string>)
    requires StrictlySorted(s)
    ensures StrictlySorted(InsertOnce(x, s))
  {
    hide Strings.LexLe, StrictlySorted;
    if s == [] {
      OneIsSorted(x);
    } else if s[0] != x {
      Strings.LexLeTotal(x, s[0]);
      FirstIsSmallest(s);
      assert s == [s[0]] + s[1..];
      if Strings.LexLe(x, s[0]) {
        forall y | y in s ensures Strings.LexLe(x, y) && x != y {
          if y != s[0] {
            assert y in s[1..];
            Strings.LexLeTransitive(x, s[0], y);
            if x == y {
              Strings.LexLeAntisymmetric(x, s[0]);
            }
          }
        }
        SmallestFirst(x, s);
      } else {
        InsertOnceSorts(x, s[1..]);
        forall y | y in InsertOnce(x, s[1..]) ensures Strings.LexLe(s[0], y) && s[0] != y {
          InsertOnceElements(x, s[1..], y);
        }
        SmallestFirst(s[0], InsertOnce(x, s[1..]));
      }
    }
  }

  lemma OneIsSorted(x: string)
    ensures StrictlySorted([x])
  {}

  /** The audience claim: sorted, each audience once. */
  lemma {:induction false} DeduplicatedIsSorted(s: seq<string>)
    ensures StrictlySorted(Deduplicated(s))
  {
    if s != [] {
      DeduplicatedIsSorted(s[1..]);
      InsertOnceSorts(s[0], Deduplicated(s[1..]));
    }
  }

  /** What an access token is issued for. */
  datatype Grant = Grant(user: string, session: string, client: string, scopes: seq<string>, issuer: string,
                         audience: seq<string>, authTime: int, lastMfaAt: int, amr: seq<string>, kycLevel: string)

  function WithClaim(c: Claims, present: bool, name: string, claim: Claim): Claims {
    if present then c[name := claim] else c
  }

  function RequiredClaims(g: Grant, now: int, ttl: int): Claims {
    map["sub" := Text(g.user), "sid" := Text(g.session), "scope" := Text(Strings.Join(g.scopes, ' ')),
        "iss" := Text(g.issuer),
        "aud" := List(Deduplicated(g.audience)), "azp" := Text(g.client), "token_use" := Text("access"),
        "iat" := Number(now / SECOND), "exp" := Number((now + ttl) / SECOND)]
  }

  /** Zero values are omitted. */
  function AccessClaims(g: Grant, now: int, ttl: int): Claims {
    var c := RequiredClaims(g, now, ttl);
    var c := WithClaim(c, g.authTime > 0, "auth_time", Number(g.authTime));
    var c := WithClaim(c, g.lastMfaAt > 0, "last_mfa_at", Number(g.lastMfaAt));
    var c := WithClaim(c, g.amr != [], "amr", List(g.amr));
    WithClaim(c, g.kycLevel != "", "kyc_level", Text(g.kycLevel))
  }

  /** The claims of every access token. */
  function Required(): set<string> {
    {"sub", "sid", "azp", "scope", "iss", "aud", "token_use", "iat", "exp"}
  }

  lemma OptionalIsNotRequired()
    ensures "auth_time" !in Required() && "last_mfa_at" !in Required() && "amr" !in Required()
    ensures "kyc_level" !in Required()
  {}

  /** What an access token says, claim by claim: whom it names, for what, where and until when. There is no
      other claim, and the four optional ones are there exactly when the grant has them. */
  predicate Carries(c: Claims, g: Grant, signedAt: int, ttl: int) {
    && c.Keys == Required()
                 + (if g.authTime > 0 then {"auth_time"} else {})
                 + (if g.lastMfaAt > 0 then {"last_mfa_at"} else {})
                 + (if g.amr != [] then {"amr"} else {})
                 + (if g.kycLevel != "" then {"kyc_level"} else {})
    && CarriesRequired(c, g, signedAt, ttl)
    && (g.authTime > 0 ==> c["auth_time"] == Number(g.authTime))
    && (g.lastMfaAt > 0 ==> c["last_mfa_at"] == Number(g.lastMfaAt))
    && (g.amr != [] ==> c["amr"] == List(g.amr))
    && (g.kycLevel != "" ==> c["kyc_level"] == Text(g.kycLevel))
  }

  predicate CarriesRequired(c: Claims, g: Grant, signedAt: int, ttl: int)
    requires Required() <= c.Keys
  {
    && c["sub"] == Text(g.user) && c["sid"] == Text(g.session) && c["azp"] == Text(g.client)
    && c["scope"] == Text(Strings.Join(g.scopes, ' '))
    && c["iss"] == Text(g.issuer) && c["aud"] == List(Deduplicated(g.audience))
    && c["token_use"] == Text("access")
    && c["iat"] == Number(signedAt / SECOND) && c["exp"] == Number((signedAt + ttl) / SECOND)
  }

  lemma RequiredClaimsCarry(g: Grant, signedAt: int, ttl: int)
    ensures RequiredClaims(g, signedAt, ttl).Keys ==
            Required()
    ensures CarriesRequired(RequiredClaims(g, signedAt, ttl), g, signedAt, ttl)
  {
    hide Deduplicated, Strings.Join;
  }

  lemma RequiredStay(c: Claims, c': Claims, g: Grant, signedAt: int, ttl: int)
    requires Required() <= c.Keys <= c'.Keys
    requires CarriesRequired(c, g, signedAt, ttl) && forall name :: name in c ==> c'[name] == c[name]
    ensures CarriesRequired(c', g, signedAt, ttl)
  {
    hide Deduplicated, Strings.Join;
  }

  lemma AccessClaimsCarry(g: Grant, signedAt: int, ttl: int)
    ensures Carries(AccessClaims(g, signedAt, ttl), g, signedAt, ttl)
  {
    hide WithClaim, RequiredClaims, CarriesRequired, Required;
    OptionalIsNotRequired();
    RequiredClaimsCarry(g, signedAt, ttl);
    var c0 := RequiredClaims(g, signedAt, ttl);
    var c1 := WithClaim(c0, g.authTime > 0, "auth_time", Number(g.authTime));
    var c2 := WithClaim(c1, g.lastMfaAt > 0, "last_mfa_at", Number(g.lastMfaAt));
    var c3 := WithClaim(c2, g.amr != [], "amr", List(g.amr));
    Added(c0, g.authTime > 0, "auth_time", Number(g.authTime));
    Added(c1, g.lastMfaAt > 0, "last_mfa_at", Number(g.lastMfaAt));
    Added(c2, g.amr != [], "amr", List(g.amr));
    Added(c3, g.kycLevel != "", "kyc_level", Text(g.kycLevel));
    var c := AccessClaims(g, signedAt, ttl);
    assert c0.Keys <= c1.Keys <= c2.Keys <= c3.Keys <= c.Keys;
    RequiredStay(c0, c, g, signedAt, ttl);
    assert g.authTime > 0 ==> "auth_time" in c1 && c1["auth_time"] == c2["auth_time"] == c3["auth_time"];
    assert g.lastMfaAt > 0 ==> "last_mfa_at" in c2 && c2["last_mfa_at"] == c3["last_mfa_at"];
  }

  lemma Added(c: Claims, present: bool, name: string, claim: Claim)
    requires name !in c
    ensures var c' := WithClaim(c, present, name, claim);
            && c'.Keys == c.Keys + (if present then {name} else {})
            && (present ==> c'[name] == claim)
            && forall other :: other in c ==> c'[other] == c[other]
  {}

  /** Whom an id token is about. */
  datatype Profile = Profile(user: string, email: string, name: string, preferredUsername: string, givenName: string,
                             familyName: string, emailVerified: bool)

  function ProfileClaims(p: Profile, client: string, issuer: string, now: int): Claims {
    map["sub" := Text(p.user), "email" := Text(p.email), "name" := Text(p.name),
        "preferred_username" := Text(p.preferredUsername), "given_name" := Text(p.givenName),
        "family_name" := Text(p.familyName), "iss" := Text(issuer), "aud" := List([client]),
        "token_use" := Text("id_token"), "iat" := Number(now / SECOND),
        "exp" := Number((now + ID_TOKEN_TTL) / SECOND), "email_verified" := Flag(p.emailVerified)]
  }

  function IdClaims(p: Profile, client: string, nonce: string, issuer: string, kycLevel: string, now: int): Claims {
    WithClaim(WithClaim(ProfileClaims(p, client, issuer, now), nonce != "", "nonce", Text(nonce)), kycLevel != "",
              "kyc_level", Text(kycLevel))
  }

  /** What an id token says, claim by claim. */
  predicate Describes(c: Claims, p: Profile, client: string, nonce: string, issuer: string, kycLevel: string,
                      signedAt: int) {
    && c.Keys == {"sub", "email", "name", "preferred_username", "given_name", "family_name", "iss", "aud", "token_use",
                  "iat", "exp", "email_verified"}
                 + (if nonce != "" then {"nonce"} else {}) + (if kycLevel != "" then {"kyc_level"} else {})
    && DescribesProfile(c, p, client, issuer, signedAt)
    && (nonce != "" ==> c["nonce"] == Text(nonce))
    && (kycLevel != "" ==> c["kyc_level"] == Text(kycLevel))
  }

  predicate DescribesProfile(c: Claims, p: Profile, client: string, issuer: string, signedAt: int)
    requires {"sub", "email", "name", "preferred_username", "given_name", "family_name", "iss", "aud", "token_use",
              "iat", "exp", "email_verified"} <= c.Keys
  {
    && c["sub"] == Text(p.user) && c["email"] == Text(p.email) && c["email_verified"] == Flag(p.emailVerified)
    && c["name"] == Text(p.name) && c["preferred_username"] == Text(p.preferredUsername)
    && c["given_name"] == Text(p.givenName) && c["family_name"] == Text(p.familyName)
    && c["iss"] == Text(issuer) && c["aud"] == List([client]) && c["token_use"] == Text("id_token")
    && c["iat"] == Number(signedAt / SECOND) && c["exp"] == Number((signedAt + 3600 * SECOND) / SECOND)
  }

  lemma ProfileClaimsDescribe(p: Profile, client: string, issuer: string, signedAt: int)
    ensures ProfileClaims(p, client, issuer, signedAt).Keys ==
            {"sub", "email", "name", "preferred_username", "given_name", "family_name", "iss", "aud", "token_use",
             "iat", "exp", "email_verified"}
    ensures DescribesProfile(ProfileClaims(p, client, issuer, signedAt), p, client, issuer, signedAt)
  {}

  lemma ProfileStays(c: Claims, c': Claims, p: Profile, client: string, issuer: string, signedAt: int)
    requires {"sub", "email", "name", "preferred_username", "given_name", "family_name", "iss", "aud", "token_use",
              "iat", "exp", "email_verified"} <= c.Keys <= c'.Keys
    requires DescribesProfile(c, p, client, issuer, signedAt) && forall name :: name in c ==> c'[name] == c[name]
    ensures DescribesProfile(c', p, client, issuer, signedAt)
  {}

  lemma IdClaimsDescribe(p: Profile, client: string, nonce: string, issuer: string, kycLevel: string, signedAt: int)
    ensures Describes(IdClaims(p, client, nonce, issuer, kycLevel, signedAt), p, client, nonce, issuer, kycLevel,
                      signedAt)
  {
    hide WithClaim, ProfileClaims, DescribesProfile;
    ProfileClaimsDescribe(p, client, issuer, signedAt);
    var c := ProfileClaims(p, client, issuer, signedAt);
    Added(c, nonce != "", "nonce", Text(nonce));
    Added(WithClaim(c, nonce != "", "nonce", Text(nonce)), kycLevel != "", "kyc_level", Text(kycLevel));
    ProfileStays(c, IdClaims(p, client, nonce, issuer, kycLevel, signedAt), p, client, issuer, signedAt);
  }

  lemma OtherClaim(c: Claims, present: bool, name: string, claim: Claim, other: string)
    requires other != name
    ensures other in WithClaim(c, present, name, claim) <==> other in c
    ensures other in c ==> WithClaim(c, present, name, claim)[other] == c[other]
  {}

  lemma RequiredClaimIsKept(g: Grant, now: int, ttl: int, name: string)
    requires name !in {"auth_time", "last_mfa_at", "amr", "kyc_level"}
    ensures name in AccessClaims(g, now, ttl) <==> name in RequiredClaims(g, now, ttl)
    ensures name in RequiredClaims(g, now, ttl) ==> AccessClaims(g, now, ttl)[name] == RequiredClaims(g, now, ttl)[name]
  {
    hide RequiredClaims, WithClaim;
    var c0 := RequiredClaims(g, now, ttl);
    var c1 := WithClaim(c0, g.authTime > 0, "auth_time", Number(g.authTime));
    var c2 := WithClaim(c1, g.lastMfaAt > 0, "last_mfa_at", Number(g.lastMfaAt));
    var c3 := WithClaim(c2, g.amr != [], "amr", List(g.amr));
    OtherClaim(c0, g.authTime > 0, "auth_time", Number(g.authTime), name);
    OtherClaim(c1, g.lastMfaAt > 0, "last_mfa_at", Number(g.lastMfaAt), name);
    OtherClaim(c2, g.amr != [], "amr", List(g.amr), name);
    OtherClaim(c3, g.kycLevel != "", "kyc_level", Text(g.kycLevel), name);
  }

  lemma ClaimsOfAccessToken(g: Grant, signedAt: int, ttl: int)
    ensures var c := AccessClaims(g, signedAt, ttl);
            && Audiences(c) == Deduplicated(g.audience)
            && IsAccess(c)
            && "iss" in c && c["iss"] == Text(g.issuer)
            && "nbf" !in c
            && "exp" in c && c["exp"] == Number((signedAt + ttl) / SECOND)
  {
    RequiredClaimIsKept(g, signedAt, ttl, "aud");
    RequiredClaimIsKept(g, signedAt, ttl, "token_use");
    RequiredClaimIsKept(g, signedAt, ttl, "iss");
    RequiredClaimIsKept(g, signedAt, ttl, "nbf");
    RequiredClaimIsKept(g, signedAt, ttl, "exp");
    hide AccessClaims, Deduplicated, Strings.Join;
  }

  /** An access token is accepted by every verifier that holds its key, until its lifetime is over (in
      whole seconds) and not after, exactly when it was issued by the verifier's issuer for an audience
      that includes the verifier. */
  lemma AccessTokenIsAcceptedIff(key: Key, g: Grant, active: Key, previous: Option<Key>, self: string, issuer: string,
                                 signedAt: int, ttl: int, now: int)
    requires exists live :: live in Live(active, previous) && SameKey(live, key)
    requires self != "" && SECOND <= signedAt + ttl
    ensures Accepted(active, previous, self, issuer, now, Signed(key, AccessClaims(g, signedAt, ttl))) <==>
              self in g.audience && (issuer == "" || g.issuer == issuer) && now < WholeSeconds(signedAt + ttl)
  {
    hide AccessClaims, Deduplicated;
    var claims := AccessClaims(g, signedAt, ttl);
    var live :| live in Live(active, previous) && SameKey(live, key);
    SameKeySignsTheSame(key, live, claims);
    DeduplicatedElements(g.audience, self);
    ClaimsOfAccessToken(g, signedAt, ttl);
    assert Signed(key, claims) == Signed(live, Signed(key, claims).claims);
    var exp := (signedAt + ttl) / SECOND;
    assert exp * SECOND == WholeSeconds(signedAt + ttl) && exp != 0;
  }

  lemma AcceptedMeans(active: Key, previous: Option<Key>, self: string, issuer: string, now: int, t: Token)
    ensures Accepted(active, previous, self, issuer, now, t) <==>
              && (exists key ::
                    && (key == active || (previous.Some? && key == previous.value))
                    && t.header == Header(Named(key.alg), Some(key.kid))
                    && t.signature == Signature(key.secret, key.alg, t.header, t.claims))
              && "token_use" in t.claims && t.claims["token_use"] == Text("access")
              && "aud" in t.claims && Audiences(t.claims) != [""] && self in Audiences(t.claims)
              && (issuer == "" || ("iss" in t.claims && t.claims["iss"] == Text(issuer)))
              && ("exp" in t.claims ==>
                    t.claims["exp"].Number? && (t.claims["exp"].n == 0 || now < t.claims["exp"].n * SECOND))
              && ("nbf" in t.claims ==>
                    t.claims["nbf"].Number? && (t.claims["nbf"].n == 0 || t.claims["nbf"].n * SECOND <= now))
  {
    forall key ensures t == Signed(key, t.claims) <==>
        && t.header == Header(Named(key.alg), Some(key.kid))
        && t.signature == Signature(key.secret, key.alg, t.header, t.claims)
    {}
    forall key ensures key in Live(active, previous) <==>
        key == active || (previous.Some? && key == previous.value)
    {}
    hide Signed, Live;
  }

  class JWTService {
    var active: Key
    var previous: Option<Key>
    const selfAudience: string
    const issuer: string
    const accessTokenTTL: int

    constructor (selfAudience: string, issuer: string, configuredTTL: int, active: Key, previous: Option<Key>)
      ensures this.active == active && this.previous == previous
      ensures this.selfAudience == selfAudience && this.issuer == issuer
      ensures accessTokenTTL == if configuredTTL == 0 then 900 * SECOND else configuredTTL
    {
      this.active, this.previous := active, previous;
      this.selfAudience, this.issuer := selfAudience, issuer;
      accessTokenTTL := if configuredTTL == 0 then 900 * SECOND else configuredTTL;
    }

    method Reload(active: Key, previous: Option<Key>)
      modifies this
      ensures this.active == active && this.previous == previous
    {
      this.active, this.previous := active, previous;
    }

    method Sign(claims: Claims) returns (t: Token)
      ensures t == Signed(active, claims)
    {
      var header := Header(Named(active.alg), Some(active.kid));
      t := Token(header, claims, Signature(active.secret, active.alg, header, claims));
    }

    method SignAccessToken(now: int, g: Grant) returns (t: Token)
      ensures t == Signed(active, AccessClaims(g, now, accessTokenTTL))
      ensures Carries(t.claims, g, now, accessTokenTTL)
    {
      hide Carries, Deduplicated, Strings.Join;
      AccessClaimsCarry(g, now, accessTokenTTL);
      var claims := RequiredClaims(g, now, accessTokenTTL);
      if g.authTime > 0 {
        claims := claims["auth_time" := Number(g.authTime)];
      }
      if g.lastMfaAt > 0 {
        claims := claims["last_mfa_at" := Number(g.lastMfaAt)];
      }
      if g.amr != [] {
        claims := claims["amr" := List(g.amr)];
      }
      if g.kycLevel != "" {
        claims := claims["kyc_level" := Text(g.kycLevel)];
      }
      t := Sign(claims);
    }

    /** An id token is never accepted as a bearer credential. */
    method SignIdToken(now: int, p: Profile, client: string, nonce: string, tokenIssuer: string, kycLevel: string)
      returns (t: Token)
      ensures t == Signed(active, IdClaims(p, client, nonce, tokenIssuer, kycLevel, now))
      ensures Describes(t.claims, p, client, nonce, tokenIssuer, kycLevel, now)
      ensures forall a, p, self, issuer, later :: !Accepted(a, p, self, issuer, later, t)
    {
      hide Describes;
      IdClaimsDescribe(p, client, nonce, tokenIssuer, kycLevel, now);
      var claims := ProfileClaims(p, client, tokenIssuer, now);
      if nonce != "" {
        claims := claims["nonce" := Text(nonce)];
      }
      if kycLevel != "" {
        claims := claims["kyc_level" := Text(kycLevel)];
      }
      t := Sign(claims);
      assert !IsAccess(t.claims);
    }

    /** Verify accepts exactly the tokens it promises to, and returns the signed claims. */
    method Verify(now: int, t: Token) returns (r: Result<Claims, VerifyError>)
      requires KidsAgree(active, previous)
      ensures r.Ok? <==> Accepted(active, previous, selfAudience, issuer, now, t)
      ensures r.Ok? <==>
                && (exists key ::
                      && (key == active || (previous.Some? && key == previous.value))
                      && t.header == Header(Named(key.alg), Some(key.kid))
                      && t.signature == Signature(key.secret, key.alg, t.header, t.claims))
                && "token_use" in t.claims && t.claims["token_use"] == Text("access")
                && "aud" in t.claims && Audiences(t.claims) != [""] && selfAudience in Audiences(t.claims)
                && (issuer == "" || ("iss" in t.claims && t.claims["iss"] == Text(issuer)))
                && ("exp" in t.claims ==>
                      t.claims["exp"].Number? && (t.claims["exp"].n == 0 || now < t.claims["exp"].n * SECOND))
                && ("nbf" in t.claims ==>
                      t.claims["nbf"].Number? && (t.claims["nbf"].n == 0 || t.claims["nbf"].n * SECOND <= now))
      ensures r.Ok? ==> r.value == t.claims
      ensures r == Err(NotAccessToken) ==> !IsAccess(t.claims)
    {
      AcceptedMeans(active, previous, selfAudience, issuer, now, t);
      if t.header.alg.OtherAlg? {
        return Err(Rejected);
      }
      var key := KeyForKid(active, previous, t.header.kid);
      if key.None? {
        return Err(Rejected);
      }
      if t.header.alg.alg != key.value.alg {
        return Err(Rejected);
      }
      LookupIsComplete(active, previous, t);
      if !Verifies(key.value, t) || !ClaimsHold(t.claims, selfAudience, issuer, now) {
        return Err(Rejected);
      }
      assert t == Signed(key.value, t.claims);
      if !IsAccess(t.claims) {
        return Err(NotAccessToken);
      }
      return Ok(t.claims);
    }

    /** The published set is the live set, active key first. */
    method PublicKeyJWKs() returns (jwks: seq<Jwk>)
      ensures 1 <= |jwks| <= 2 && jwks[0] == Jwk(active.kid, active.alg, active.secret)
      ensures forall jwk :: jwk in jwks <==>
              exists key :: key in Live(active, previous) && jwk == Jwk(key.kid, key.alg, key.secret)
    {
      jwks := [Jwk(active.kid, active.alg, active.secret)];
      assert active in Live(active, previous);
      if previous.Some? {
        assert previous.value in Live(active, previous);
        jwks := jwks + [Jwk(previous.value.kid, previous.value.alg, previous.value.secret)];
      }
    }
  }

  /** The lookup by key id finds the signer whenever the signer is live. */
  lemma LookupIsComplete(active: Key, previous: Option<Key>, t: Token)
    requires KidsAgree(active, previous)
    ensures (exists key :: key in Live(active, previous) && t == Signed(key, t.claims)) <==>
              var found := KeyForKid(active, previous, t.header.kid);
              found.Some? && t.header.alg == Named(found.value.alg) && Verifies(found.value, t)
  {
    var found := KeyForKid(active, previous, t.header.kid);
    if found.Some? && t.header.alg == Named(found.value.alg) && Verifies(found.value, t) {
      assert found.value in Live(active, previous) && t == Signed(found.value, t.claims);
    }
  }

  // ---------------------------------------------------------------- who a bearer token stands for

  datatype Identity = Identity(userId: string, sessionId: string, scopes: string, clientId: string, lastMfaAt: int)

  function TextClaim(c: Claims, name: string): string {
    if name in c && c[name].Text? then c[name].text else ""
  }

  /** The middleware's reading of a bearer token: whoever the verified token was signed for, under the grant's
      session, client, scopes and last second factor. */
  method ExtractAndVerify(jwtSvc: JWTService, now: int, t: Token) returns (r: Result<Identity, VerifyError>)
    requires KidsAgree(jwtSvc.active, jwtSvc.previous)
    ensures r.Ok? <==>
              && Accepted(jwtSvc.active, jwtSvc.previous, jwtSvc.selfAudience, jwtSvc.issuer, now, t)
              && "sub" in t.claims && t.claims["sub"].Text? && t.claims["sub"].text != ""
    ensures forall g, signedAt, ttl :: r.Ok? && Carries(t.claims, g, signedAt, ttl) ==>
              r.value == Identity(g.user, g.session, Strings.Join(g.scopes, ' '), g.client,
                                  if g.lastMfaAt > 0 then g.lastMfaAt else 0)
  {
    hide Accepted;
    var verified := jwtSvc.Verify(now, t);
    if verified.Err? {
      return Err(verified.error);
    }
    var claims := verified.value;
    var userId := TextClaim(claims, "sub");
    var lastMfaAt := 0;
    if "last_mfa_at" in claims && claims["last_mfa_at"].Number? {
      lastMfaAt := claims["last_mfa_at"].n;
    }
    if userId == "" {
      return Err(Rejected);
    }
    var id := Identity(userId, TextClaim(claims, "sid"), TextClaim(claims, "scope"), TextClaim(claims, "azp"),
                       lastMfaAt);
    forall g, signedAt, ttl | Carries(claims, g, signedAt, ttl)
      ensures id == Identity(g.user, g.session, Strings.Join(g.scopes, ' '), g.client,
                             if g.lastMfaAt > 0 then g.lastMfaAt else 0)
    {
      NoFactorNoClaim(claims, g, signedAt, ttl);
    }
    return Ok(id);
  }

  lemma NoFactorNoClaim(c: Claims, g: Grant, signedAt: int, ttl: int)
    requires Carries(c, g, signedAt, ttl)
    ensures "last_mfa_at" in c <==> g.lastMfaAt > 0
  {
    hide CarriesRequired;
  }

  /** HasScope on the identity of a token says exactly which scopes the token was signed for. */
  lemma ScopesAreReadBack(scopes: seq<string>, scope: string)
    requires forall s :: s in scopes ==> Strings.IsWord(s)
    ensures scope in Strings.Fields(Strings.Join(scopes, ' ')) <==> scope in scopes
  {
    Strings.FieldsOfJoin(scopes);
  }
}
