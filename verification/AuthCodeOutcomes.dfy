/**
 * The story behind every token set, over all interleavings: which authorization request it goes back to,
 * whose session was looked at for it, and which exchange presented, took out and was answered with its
 * code, step by step.
 */
module AuthCodeOutcomes {
  import opened Wrappers
  import opened AuthCode

  /** Step k looked at the session of authorization a and went on with it: it is this user's, it is no older
      than the request allows, give or take a minute, and no terms were pending. */
  predicate SessionSeen(s: State, acts: seq<Act>, k: nat, a: int, r: Request, user: string, session: string)
    requires k < |acts|
  {
    && acts[k].CheckSession? && acts[k].a == a && acts[k].session.Some? && !acts[k].termsPending
    && acts[k].session.value.user == user && acts[k].session.value.id == session
    && (r.maxAge.Some? ==> At(s, acts, k).now / SECOND - acts[k].session.value.authTime <= r.maxAge.value + 60)
  }

  ghost predicate SeenBetween(s: State, acts: seq<Act>, m: nat, n: nat, a: int, r: Request, user: string,
                              session: string)
    requires n <= |acts|
  {
    exists k :: m < k < n && SessionSeen(s, acts, k, a, r, user, session)
  }

  predicate AskedAt(acts: seq<Act>, n: nat, read: nat, a: int, r: Request)
    requires n <= |acts|
  {
    read < n && acts[read] == Authorize(a, r)
  }

  ghost predicate AuthorizationStory(s: State, acts: seq<Act>, n: nat, a: int, x: Authorization)
    requires n <= |acts|
  {
    match x
    case Gated(r, _, _, read) => AskedAt(acts, n, read, a, r)
    case SignedIn(r, _, _, read, user, session) =>
      AskedAt(acts, n, read, a, r) && SeenBetween(s, acts, read, n, a, r, user, session)
    case Approved(r, _, read, user, session, asked) =>
      && AskedAt(acts, n, read, a, r) && asked < n && acts[asked] == CheckConsent(a)
      && SeenBetween(s, acts, read, asked, a, r, user, session)
    case _ => true
  }

  /** The code was stored at the end of one authorization: asked for, its session seen, its consent checked and
      itself stored, in this order. */
  ghost predicate CodeStory(s: State, acts: seq<Act>, n: nat, code: string, sc: StoredCode)
    requires n <= |acts|
  {
    && sc.read < sc.asked < sc.stored < n
    && acts[sc.read].Authorize?
    && var a, r := acts[sc.read].a, acts[sc.read].request;
       && SeenBetween(s, acts, sc.read, sc.asked, a, r, sc.code.user, sc.code.session)
       && acts[sc.asked] == CheckConsent(a) && acts[sc.stored] == StoreCode(a, code)
  }

  predicate PresentedAt(acts: seq<Act>, k: nat, x: int, code: string, client: string, redirect: string,
                        verifier: string)
    requires k < |acts|
  {
    && acts[k].Exchange? && acts[k].x == x && acts[k].code == code && acts[k].client == client
    && acts[k].redirect == redirect && acts[k].verifier == verifier
  }

  ghost predicate ExchangeStory(s: State, acts: seq<Act>, n: nat, x: int, e: Exchange)
    requires n <= |acts|
  {
    match e
    case Authenticated(code, client, redirect, verifier, began) =>
      began < n && PresentedAt(acts, began, x, code, client, redirect, verifier)
    case Redeemed(code, client, redirect, verifier, began, sc, at) =>
      && began < at < n && PresentedAt(acts, began, x, code, client, redirect, verifier)
      && acts[at] == Redeem(x) && CodeStory(s, acts, at, code, sc)
    case Answered => true
  }

  /** The token set answered an exchange that presented the code and then took it out; the user and the session
      were still good at the answer. */
  ghost predicate TokenStory(s: State, acts: seq<Act>, n: nat, t: TokenSet)
    requires n <= |acts|
  {
    exists x, o ::
      && t.began < t.redeemed < o < n
      && PresentedAt(acts, t.began, x, t.code, t.client, t.redirect, t.verifier)
      && acts[t.redeemed] == Redeem(x) && acts[o] == Answer(x, true)
      && CodeStory(s, acts, t.redeemed, t.code, t.stored)
  }

  // ---------------------------------------------------------------- stories last

  lemma SeenLater(s: State, acts: seq<Act>, m: nat, n: nat, a: int, r: Request, user: string, session: string)
    requires n < |acts| && SeenBetween(s, acts, m, n, a, r, user, session)
    ensures SeenBetween(s, acts, m, n + 1, a, r, user, session)
  {
    hide SessionSeen;
  }

  lemma AuthorizationLasts(s: State, acts: seq<Act>, n: nat, a: int, x: Authorization)
    requires n < |acts| && AuthorizationStory(s, acts, n, a, x)
    ensures AuthorizationStory(s, acts, n + 1, a, x)
  {
    hide SeenBetween;
    if x.SignedIn? {
      SeenLater(s, acts, x.read, n, a, x.request, x.user, x.session);
    }
  }

  lemma CodeLater(s: State, acts: seq<Act>, n: nat, code: string, sc: StoredCode)
    requires n < |acts| && CodeStory(s, acts, n, code, sc)
    ensures CodeStory(s, acts, n + 1, code, sc)
  {
    hide SeenBetween;
  }

  lemma ExchangeLasts(s: State, acts: seq<Act>, n: nat, x: int, e: Exchange)
    requires n < |acts| && ExchangeStory(s, acts, n, x, e)
    ensures ExchangeStory(s, acts, n + 1, x, e)
  {
    hide CodeStory, PresentedAt;
  }

  lemma TokenLasts(s: State, acts: seq<Act>, n: nat, t: TokenSet)
    requires n < |acts| && TokenStory(s, acts, n, t)
    ensures TokenStory(s, acts, n + 1, t)
  {
    hide CodeStory, PresentedAt;
  }

  // ---------------------------------------------------------------- one step

  lemma GatedStory(s: State, acts: seq<Act>, n: nat, t: State, a: int, r: Request)
    requires n < |acts| && t.steps == n && acts[n] == Authorize(a, r) && a !in t.authorizations
    ensures AuthorizationStory(s, acts, n + 1, a, Effect(t, Authorize(a, r)).authorizations[a])
  {
    hide Gates;
  }

  lemma SessionStory(s: State, acts: seq<Act>, n: nat, t: State, a: int, session: Option<Session>, termsPending: bool)
    requires n < |acts| && t == At(s, acts, n) && acts[n] == CheckSession(a, session, termsPending)
    requires a in t.authorizations && AuthorizationStory(s, acts, n, a, t.authorizations[a])
    ensures AuthorizationStory(s, acts, n + 1, a, SessionStep(t, a, session, termsPending).authorizations[a])
  {
    hide At, SeenBetween;
    var x := t.authorizations[a];
    AuthorizationLasts(s, acts, n, a, x);
    var y := SessionStep(t, a, session, termsPending).authorizations[a];
    if x.Gated? && y.SignedIn? {
      assert SessionSeen(s, acts, n, a, x.request, y.user, y.session);
      SeenHere(s, acts, x.read, n, a, x.request, y.user, y.session);
    }
  }

  lemma SeenHere(s: State, acts: seq<Act>, m: nat, n: nat, a: int, r: Request, user: string, session: string)
    requires m < n < |acts| && SessionSeen(s, acts, n, a, r, user, session)
    ensures SeenBetween(s, acts, m, n + 1, a, r, user, session)
  {
    hide SessionSeen;
  }

  lemma ConsentStory(s: State, acts: seq<Act>, n: nat, t: State, a: int)
    requires n < |acts| && t.steps == n && acts[n] == CheckConsent(a)
    requires a in t.authorizations && AuthorizationStory(s, acts, n, a, t.authorizations[a])
    ensures AuthorizationStory(s, acts, n + 1, a, ConsentStep(t, a).authorizations[a])
  {
    hide SeenBetween, HasGrant;
    AuthorizationLasts(s, acts, n, a, t.authorizations[a]);
  }

  lemma StoreStory(s: State, acts: seq<Act>, n: nat, t: State, a: int, code: string)
    requires n < |acts| && a in t.authorizations && AuthorizationStory(s, acts, n, a, t.authorizations[a])
    ensures AuthorizationStory(s, acts, n + 1, a, StoreStep(t, a, code).authorizations[a])
  {
    hide SeenBetween;
    AuthorizationLasts(s, acts, n, a, t.authorizations[a]);
  }

  ghost predicate AuthorizationStories(s: State, acts: seq<Act>, n: nat)
    requires n <= |acts|
  {
    var t := At(s, acts, n);
    forall a :: a in t.authorizations ==> AuthorizationStory(s, acts, n, a, t.authorizations[a])
  }

  lemma AuthorizationStoryKeeps(s: State, acts: seq<Act>, n: nat, a: int)
    requires n < |acts| && At(s, acts, n).steps == n && AuthorizationStories(s, acts, n)
    requires a in At(s, acts, n + 1).authorizations
    ensures AuthorizationStory(s, acts, n + 1, a, At(s, acts, n + 1).authorizations[a])
  {
    hide At, AuthorizationStory, SessionStep, ConsentStep, StoreStep, Gates;
    AtNext(s, acts, n);
    var t, act := At(s, acts, n), acts[n];
    if !Touches(act, a) {
      Untouched(t, act, a);
      AuthorizationLasts(s, acts, n, a, t.authorizations[a]);
    } else if a in t.authorizations {
      match act
      case Authorize(_, _) => AuthorizationLasts(s, acts, n, a, t.authorizations[a]);
      case CheckSession(_, session, termsPending) => SessionStory(s, acts, n, t, a, session, termsPending);
      case CheckConsent(_) => ConsentStory(s, acts, n, t, a);
      case StoreCode(_, code) => StoreStory(s, acts, n, t, a, code);
    } else {
      NewcomerGated(t, act, a);
      GatedStory(s, acts, n, t, a, act.request);
    }
  }

  lemma {:induction false} AuthorizationStoriesKeep(s: State, acts: seq<Act>, n: nat)
    requires Start(s) && n <= |acts|
    ensures AuthorizationStories(s, acts, n)
  {
    hide Next, AuthorizationStory;
    if n > 0 {
      AuthorizationStoriesKeep(s, acts, n - 1);
      RunKeepsOnce(s, acts, n - 1);
      forall a | a in At(s, acts, n).authorizations
        ensures AuthorizationStory(s, acts, n, a, At(s, acts, n).authorizations[a]) {
        AuthorizationStoryKeeps(s, acts, n - 1, a);
      }
    }
  }

  ghost predicate EntryStory(s: State, acts: seq<Act>, n: nat, code: string)
    requires n <= |acts|
  {
    var t := At(s, acts, n);
    code in t.codes ==> t.codes[code].data.Value? && CodeStory(s, acts, n, code, t.codes[code].data.v)
  }

  lemma StoredStory(s: State, acts: seq<Act>, n: nat, t: State, a: int, code: string)
    requires n < |acts| && t.steps == n && acts[n] == StoreCode(a, code)
    requires a in t.authorizations && t.authorizations[a].Approved? && code !in t.used
    requires AuthorizationStory(s, acts, n, a, t.authorizations[a])
    ensures var u := StoreStep(t, a, code).codes;
            code in u && u[code].data.Value? && CodeStory(s, acts, n + 1, code, u[code].data.v)
  {
    hide SeenBetween;
    var x := t.authorizations[a];
    assert x.read < x.asked by {
      SeenOrders(s, acts, x.read, x.asked, a, x.request, x.user, x.session);
    }
  }

  lemma SeenOrders(s: State, acts: seq<Act>, m: nat, n: nat, a: int, r: Request, user: string, session: string)
    requires n <= |acts| && SeenBetween(s, acts, m, n, a, r, user, session)
    ensures m < n
  {}

  lemma EntryStoryKeeps(s: State, acts: seq<Act>, n: nat, code: string)
    requires Start(s) && n < |acts| && EntryStory(s, acts, n, code)
    ensures EntryStory(s, acts, n + 1, code)
  {
    hide At, CodeStory, OnceInv, StoreStep, AuthorizationStory;
    AtNext(s, acts, n);
    var t, act := At(s, acts, n), acts[n];
    RunKeepsOnce(s, acts, n);
    AuthorizationStoriesKeep(s, acts, n);
    if code in At(s, acts, n + 1).codes {
      if act.StoreCode? && act.code == code && act.a in t.authorizations && t.authorizations[act.a].Approved?
        && code !in t.used {
        StoredStory(s, acts, n, t, act.a, code);
      } else {
        OldEntry(t, act, code);
        CodeLater(s, acts, n, code, t.codes[code].data.v);
      }
    }
  }

  lemma {:induction false} EntryStories(s: State, acts: seq<Act>, n: nat, code: string)
    requires Start(s) && n <= |acts|
    ensures EntryStory(s, acts, n, code)
  {
    hide Next, CodeStory;
    if n > 0 {
      EntryStories(s, acts, n - 1, code);
      EntryStoryKeeps(s, acts, n - 1, code);
    }
  }

  lemma BegunStory(s: State, acts: seq<Act>, n: nat, t: State, x: int)
    requires n < |acts| && t.steps == n && acts[n].Exchange? && acts[n].x == x && x !in t.exchanges
    ensures var act := acts[n];
            var u := BeginStep(t, x, act.code, act.client, act.redirect, act.verifier, act.secretOk);
            x in u.exchanges && ExchangeStory(s, acts, n + 1, x, u.exchanges[x])
  {}

  lemma RedeemedStory(s: State, acts: seq<Act>, n: nat, t: State, x: int)
    requires n < |acts| && t == At(s, acts, n) && t.steps == n && acts[n] == Redeem(x) && x in t.exchanges
    requires ExchangeStory(s, acts, n, x, t.exchanges[x])
    requires t.exchanges[x].Authenticated? ==> EntryStory(s, acts, n, t.exchanges[x].code)
    ensures ExchangeStory(s, acts, n + 1, x, RedeemStep(t, x).exchanges[x])
  {
    hide At, CodeStory, PresentedAt, Redeemable;
    ExchangeLasts(s, acts, n, x, t.exchanges[x]);
  }

  lemma AnsweredStory(s: State, acts: seq<Act>, n: nat, t: State, x: int, ok: bool)
    requires n < |acts| && x in t.exchanges && ExchangeStory(s, acts, n, x, t.exchanges[x])
    ensures x in AnswerStep(t, x, ok).exchanges
    ensures ExchangeStory(s, acts, n + 1, x, AnswerStep(t, x, ok).exchanges[x])
  {
    hide CodeStory, PresentedAt, AnswerStep;
    AnswerEffect(t, x, ok);
    ExchangeLasts(s, acts, n, x, t.exchanges[x]);
  }

  ghost predicate ExchangeStories(s: State, acts: seq<Act>, n: nat)
    requires n <= |acts|
  {
    var t := At(s, acts, n);
    forall x :: x in t.exchanges ==> ExchangeStory(s, acts, n, x, t.exchanges[x])
  }

  lemma ExchangeStoryKeeps(s: State, acts: seq<Act>, n: nat, x: int)
    requires Start(s) && n < |acts| && ExchangeStories(s, acts, n) && x in At(s, acts, n + 1).exchanges
    ensures ExchangeStory(s, acts, n + 1, x, At(s, acts, n + 1).exchanges[x])
  {
    hide At, ExchangeStory, EntryStory, OnceInv, BeginStep, RedeemStep, AnswerStep;
    AtNext(s, acts, n);
    var t, act := At(s, acts, n), acts[n];
    RunKeepsOnce(s, acts, n);
    if !TouchesExchange(act, x) {
      UntouchedExchange(t, act, x);
      ExchangeLasts(s, acts, n, x, t.exchanges[x]);
    } else if x in t.exchanges {
      match act
      case Exchange(_, code, client, redirect, verifier, secretOk) =>
        BeginsOnce(t, x, code, client, redirect, verifier, secretOk);
        ExchangeLasts(s, acts, n, x, t.exchanges[x]);
      case Redeem(_) =>
        if t.exchanges[x].Authenticated? {
          EntryStories(s, acts, n, t.exchanges[x].code);
        }
        RedeemedStory(s, acts, n, t, x);
      case Answer(_, ok) => AnsweredStory(s, acts, n, t, x, ok);
    } else {
      NewcomerBegins(t, act, x);
      BegunStory(s, acts, n, t, x);
    }
  }

  lemma {:induction false} ExchangeStoriesKeep(s: State, acts: seq<Act>, n: nat)
    requires Start(s) && n <= |acts|
    ensures ExchangeStories(s, acts, n)
  {
    hide Next, ExchangeStory;
    if n > 0 {
      ExchangeStoriesKeep(s, acts, n - 1);
      forall x | x in At(s, acts, n).exchanges ensures ExchangeStory(s, acts, n, x, At(s, acts, n).exchanges[x]) {
        ExchangeStoryKeeps(s, acts, n - 1, x);
      }
    }
  }

  lemma AnswerIssues(t: State, x: int, ok: bool)
    ensures var u := AnswerStep(t, x, ok);
            if x in t.exchanges && t.exchanges[x].Redeemed? && ok then
              var e := t.exchanges[x];
              && |u.issued| == |t.issued| + 1 && u.issued[..|t.issued|] == t.issued
              && var made := u.issued[|t.issued|];
                 && made.code == e.code && made.client == e.client && made.redirect == e.redirect
                 && made.verifier == e.verifier && made.began == e.began && made.stored == e.stored
                 && made.redeemed == e.at
            else u.issued == t.issued
  {}

  lemma TokenStoryKeeps(s: State, acts: seq<Act>, n: nat, i: nat)
    requires Start(s) && n < |acts| && i < |At(s, acts, n + 1).issued|
    requires forall j :: 0 <= j < |At(s, acts, n).issued| ==> TokenStory(s, acts, n, At(s, acts, n).issued[j])
    ensures TokenStory(s, acts, n + 1, At(s, acts, n + 1).issued[i])
  {
    hide At, TokenStory, ExchangeStory, AnswerStep;
    AtNext(s, acts, n);
    var t, act := At(s, acts, n), acts[n];
    if act.Answer? {
      AnswerIssues(t, act.x, act.userAndSessionOk);
      ExchangeStoriesKeep(s, acts, n);
      if i < |t.issued| {
        assert At(s, acts, n + 1).issued[i] == t.issued[i];
        TokenLasts(s, acts, n, t.issued[i]);
      } else {
        IssuedStory(s, acts, n, act.x, t.exchanges[act.x], At(s, acts, n + 1).issued[i]);
      }
    } else {
      Frame(t, act);
      TokenLasts(s, acts, n, t.issued[i]);
    }
  }

  lemma IssuedStory(s: State, acts: seq<Act>, n: nat, x: int, e: Exchange, made: TokenSet)
    requires n < |acts| && acts[n] == Answer(x, true) && e.Redeemed? && ExchangeStory(s, acts, n, x, e)
    requires made.code == e.code && made.client == e.client && made.redirect == e.redirect
    requires made.verifier == e.verifier && made.began == e.began && made.stored == e.stored && made.redeemed == e.at
    ensures TokenStory(s, acts, n + 1, made)
  {
    hide CodeStory, PresentedAt;
  }

  lemma {:induction false} TokenStories(s: State, acts: seq<Act>, n: nat)
    requires Start(s) && n <= |acts|
    ensures forall i :: 0 <= i < |At(s, acts, n).issued| ==> TokenStory(s, acts, n, At(s, acts, n).issued[i])
  {
    hide Next, TokenStory;
    if n > 0 {
      TokenStories(s, acts, n - 1);
      forall i | 0 <= i < |At(s, acts, n).issued| ensures TokenStory(s, acts, n, At(s, acts, n).issued[i]) {
        TokenStoryKeeps(s, acts, n - 1, i);
      }
    }
  }

  /** In every run: a token set names the user and the session that were seen, young enough and with no terms
      pending, between the authorization request its code was stored for and the consent check; an exchange
      presented that very code, took it out afterwards, and was answered when user and session were still good. */
  lemma TokensGoBackToASession(s: State, acts: seq<Act>, i: nat)
    requires Start(s) && i < |At(s, acts, |acts|).issued|
    ensures var t := At(s, acts, |acts|).issued[i];
            && t.user == t.stored.code.user && t.session == t.stored.code.session
            && TokenStory(s, acts, |acts|, t)
            && t.stored.read < |acts| && acts[t.stored.read].Authorize?
            && var a, r := acts[t.stored.read].a, acts[t.stored.read].request;
               && r.client == t.client && r.redirect == t.redirect
               && SeenBetween(s, acts, t.stored.read, |acts|, a, r, t.user, t.session)
  {
    hide At, TokenStory, CodeOk, SeenBetween;
    TokenStories(s, acts, |acts|);
    TokensAreAuthorized(s, acts, |acts|);
    var t := At(s, acts, |acts|).issued[i];
    assert TokenOk(s, acts, |acts|, t);
    StoryOfCode(s, acts, t);
    CodeRequests(s, acts, t.stored);
  }

  lemma CodeRequests(s: State, acts: seq<Act>, sc: StoredCode)
    requires CodeOk(s, acts, |acts|, sc)
    ensures sc.read < |acts| && Requests(acts[sc.read], sc.code)
  {
    hide At, Covers, HasGrant;
  }

  lemma StoryOfCode(s: State, acts: seq<Act>, t: TokenSet)
    requires TokenStory(s, acts, |acts|, t)
    ensures t.stored.read < |acts| && acts[t.stored.read].Authorize?
    ensures SeenBetween(s, acts, t.stored.read, |acts|, acts[t.stored.read].a, acts[t.stored.read].request,
                        t.stored.code.user, t.stored.code.session)
  {
    hide PresentedAt, SessionSeen;
  }
}
