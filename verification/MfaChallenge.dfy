/**
 * The one-time MFA token: any number of concurrent challenges on it, one cache call at a time, over
 * a clock that never goes back. Whether the submitted code is right and whether the account may
 * still sign in are decided outside and arrive with the step.
 */
module MfaChallenge {
  import opened Wrappers
  import opened CacheClient

  /** The limits the handler uses; the theorems name what they need of them. */
  datatype Limits = Limits(tokenTtl: int, counterTtl: int, maxAttempts: nat)

  const MFA_LIMITS := Limits(300, 300, 5)

  datatype Payload = Payload(userId: string, deviceName: string, ip: string, userAgent: string, primaryAmr: string)

  datatype Outcome = InvalidToken | Unauthorized | Unavailable | Refused | SessionCreated(userId: string)

  /** The cache call a challenge makes next. live records, for stating the theorem, whether the token
      was still there when the challenge counted itself. */
  datatype Pc =
    | Peek
    | Count(payload: Payload)
    | DropToken
    | DropCounter
    | Check(payload: Payload, live: bool)
    | Claim(payload: Payload, live: bool)
    | ClearCounter(payload: Payload)
    | CreateSession(payload: Payload)
    | Finished(outcome: Outcome)

  function TokenKey(hash: string): string { "mfa_token:" + hash }

  function AttemptsKey(hash: string): string { "mfa_attempts:" + hash }

  lemma KeysDiffer(hash: string)
    ensures TokenKey(hash) != AttemptsKey(hash)
  {
    assert TokenKey(hash)[4] == 't' && AttemptsKey(hash)[4] == 'a';
  }

  function Step(limits: Limits, hash: string, mem: Mem<Payload>, now: int, pc: Pc, codeOk: bool,
                userOk: bool): (Mem<Payload>, Pc) {
    var token, attempts := TokenKey(hash), AttemptsKey(hash);
    match pc
    case Peek =>
      (match Read(mem, now, token)
       case Some(Value(p)) => (mem, Count(p))
       case _ => (mem, Finished(InvalidToken)))
    case Count(p) =>
      if !Countable(mem, now, attempts) then (mem, Finished(Unavailable))
      else
        var n := CountOf(mem, now, attempts) + 1;
        var mem' := Bump(mem, now, attempts, limits.counterTtl);
        (mem', if n > limits.maxAttempts then DropToken else Check(p, Readable(mem, now, token)))
    case DropToken => (Remove(mem, token), DropCounter)
    case DropCounter => (Remove(mem, attempts), Finished(InvalidToken))
    case Check(p, live) => (mem, if codeOk then Claim(p, live) else Finished(Unauthorized))
    case Claim(p, live) =>
      (Remove(mem, token), if Readable(mem, now, token) then ClearCounter(p) else Finished(InvalidToken))
    case ClearCounter(p) => (Remove(mem, attempts), CreateSession(p))
    case CreateSession(p) => (mem, Finished(if userOk then SessionCreated(p.userId) else Refused))
    case Finished(_) => (mem, pc)
  }

  function CallsLeft(pc: Pc): nat {
    match pc
    case Peek => 6
    case Count(_) => 5
    case Check(_, _) => 4
    case Claim(_, _) => 3
    case ClearCounter(_) => 2
    case DropToken => 2
    case CreateSession(_) => 1
    case DropCounter => 1
    case Finished(_) => 0
  }

  function RunAlone(limits: Limits, hash: string, mem: Mem<Payload>, now: int, pc: Pc, codeOk: bool,
                    userOk: bool): (Mem<Payload>, Outcome)
    decreases CallsLeft(pc)
  {
    if pc.Finished? then (mem, pc.outcome)
    else
      var (mem', pc') := Step(limits, hash, mem, now, pc, codeOk, userOk);
      RunAlone(limits, hash, mem', now, pc', codeOk, userOk)
  }

  lemma OneCall(limits: Limits, hash: string, mem: Mem<Payload>, now: int, pc: Pc, codeOk: bool, userOk: bool)
    requires !pc.Finished?
    ensures var (mem', pc') := Step(limits, hash, mem, now, pc, codeOk, userOk);
            RunAlone(limits, hash, mem, now, pc, codeOk, userOk) ==
              RunAlone(limits, hash, mem', now, pc', codeOk, userOk)
  {}

  lemma Done(hash: string, mem: Mem<Payload>, now: int, out: Outcome, codeOk: bool, userOk: bool)
    ensures RunAlone(MFA_LIMITS, hash, mem, now, Finished(out), codeOk, userOk) == (mem, out)
  {}

  /** The token is there, unexpired, with its payload. */
  predicate Redeemable(mem: Mem<Payload>, now: int, hash: string) {
    TokenKey(hash) in mem && now <= mem[TokenKey(hash)].expires && mem[TokenKey(hash)].data.Value?
  }

  /** What one undisturbed challenge answers and leaves, case by case. */
  lemma ChallengeAlone(mem: Mem<Payload>, hash: string, codeOk: bool, userOk: bool, now: int)
    ensures var (after, out) := RunAlone(MFA_LIMITS, hash, mem, now, Peek, codeOk, userOk);
            if !Redeemable(mem, now, hash) then out == InvalidToken && after == mem
            else
              var attempts, payload := AttemptsKey(hash), mem[TokenKey(hash)].data.v;
              var open := attempts in mem && now <= mem[attempts].expires;
              if open && !mem[attempts].data.Number? then out == Unavailable && after == mem
              else
                var n := 1 + if open then mem[attempts].data.n else 0;
                var until := if open then mem[attempts].expires else now + 300;
                if n > 5 then out == InvalidToken && after == mem - {TokenKey(hash), attempts}
                else if !codeOk then out == Unauthorized && after == mem[attempts := Entry(Number(n), until)]
                else
                  && out == (if userOk then SessionCreated(payload.userId) else Refused)
                  && after == mem - {TokenKey(hash), attempts}
  {
    KeysDiffer(hash);
    hide TokenKey, AttemptsKey, RunAlone;
    var token, attempts := TokenKey(hash), AttemptsKey(hash);
    OneCall(MFA_LIMITS, hash, mem, now, Peek, codeOk, userOk);
    if !Redeemable(mem, now, hash) {
      Done(hash, mem, now, InvalidToken, codeOk, userOk);
      return;
    }
    var payload := mem[token].data.v;
    OneCall(MFA_LIMITS, hash, mem, now, Count(payload), codeOk, userOk);
    if !Countable(mem, now, attempts) {
      Done(hash, mem, now, Unavailable, codeOk, userOk);
      return;
    }
    var bumped := Bump(mem, now, attempts, 300);
    assert bumped - {token} - {attempts} == mem - {token, attempts};
    if CountOf(mem, now, attempts) >= 5 {
      OneCall(MFA_LIMITS, hash, bumped, now, DropToken, codeOk, userOk);
      OneCall(MFA_LIMITS, hash, bumped - {token}, now, DropCounter, codeOk, userOk);
      Done(hash, bumped - {token} - {attempts}, now, InvalidToken, codeOk, userOk);
      return;
    }
    OneCall(MFA_LIMITS, hash, bumped, now, Check(payload, true), codeOk, userOk);
    if !codeOk {
      Done(hash, bumped, now, Unauthorized, codeOk, userOk);
      return;
    }
    OneCall(MFA_LIMITS, hash, bumped, now, Claim(payload, true), codeOk, userOk);
    OneCall(MFA_LIMITS, hash, bumped - {token}, now, ClearCounter(payload), codeOk, userOk);
    var cleared := bumped - {token} - {attempts};
    OneCall(MFA_LIMITS, hash, cleared, now, CreateSession(payload), codeOk, userOk);
    Done(hash, cleared, now, if userOk then SessionCreated(payload.userId) else Refused, codeOk, userOk);
  }

  class AuthHandler {
    const cache: Client<Payload>

    constructor (cache: Client<Payload>)
      ensures this.cache == cache
    {
      this.cache := cache;
    }

    /** Stores the payload under a fresh token hash for the token's lifetime. */
    method IssueMfaToken(hash: string, payload: Payload, now: int) returns (issued: bool)
      modifies cache
      ensures issued == cache.enabled
      ensures cache.mem ==
              if issued then old(cache.mem)[TokenKey(hash) := Entry(Value(payload), now + 300)] else old(cache.mem)
    {
      if !cache.enabled {
        return false;
      }
      cache.Set(now, TokenKey(hash), Value(payload), MFA_LIMITS.tokenTtl);
      return true;
    }

    /** mfaChallenge, uninterrupted: peek, count, check, claim, clear, create. A disabled cache finds no
        token, and nothing happens. */
    method Challenge(hash: string, codeOk: bool, userOk: bool, now: int) returns (out: Outcome)
      modifies cache
      ensures (cache.mem, out) ==
              if cache.enabled then RunAlone(MFA_LIMITS, hash, old(cache.mem), now, Peek, codeOk, userOk)
                else (old(cache.mem), InvalidToken)
      ensures !cache.enabled || !Redeemable(old(cache.mem), now, hash) ==>
                out == InvalidToken && cache.mem == old(cache.mem)
      ensures cache.enabled && Redeemable(old(cache.mem), now, hash) ==>
                var attempts, payload := AttemptsKey(hash), old(cache.mem)[TokenKey(hash)].data.v;
                var open := attempts in old(cache.mem) && now <= old(cache.mem)[attempts].expires;
                if open && !old(cache.mem)[attempts].data.Number? then out == Unavailable && cache.mem == old(cache.mem)
                else
                  var n := 1 + if open then old(cache.mem)[attempts].data.n else 0;
                  var until := if open then old(cache.mem)[attempts].expires else now + 300;
                  if n > 5 then out == InvalidToken && cache.mem == old(cache.mem) - {TokenKey(hash), attempts}
                  else if !codeOk then
                    out == Unauthorized && cache.mem == old(cache.mem)[attempts := Entry(Number(n), until)]
                  else
                    && out == (if userOk then SessionCreated(payload.userId) else Refused)
                    && cache.mem == old(cache.mem) - {TokenKey(hash), attempts}
    {
      hide RunAlone, TokenKey, AttemptsKey;
      ChallengeAlone(cache.mem, hash, codeOk, userOk, now);
      var token, attempts := TokenKey(hash), AttemptsKey(hash);
      OneCall(MFA_LIMITS, hash, cache.mem, now, Peek, codeOk, userOk);
      var peeked := cache.Get(now, token);
      if peeked.Err? || peeked.value.Number? {
        Done(hash, cache.mem, now, InvalidToken, codeOk, userOk);
        return InvalidToken;
      }
      var payload := peeked.value.v;
      OneCall(MFA_LIMITS, hash, cache.mem, now, Count(payload), codeOk, userOk);
      ghost var live := Readable(cache.mem, now, token);
      var counted := cache.Incr(now, attempts, MFA_LIMITS.counterTtl);
      if counted.Err? {
        Done(hash, cache.mem, now, Unavailable, codeOk, userOk);
        return Unavailable;
      }
      if counted.value > MFA_LIMITS.maxAttempts {
        OneCall(MFA_LIMITS, hash, cache.mem, now, DropToken, codeOk, userOk);
        cache.Delete(token);
        OneCall(MFA_LIMITS, hash, cache.mem, now, DropCounter, codeOk, userOk);
        cache.Delete(attempts);
        Done(hash, cache.mem, now, InvalidToken, codeOk, userOk);
        return InvalidToken;
      }
      OneCall(MFA_LIMITS, hash, cache.mem, now, Check(payload, live), codeOk, userOk);
      if !codeOk {
        Done(hash, cache.mem, now, Unauthorized, codeOk, userOk);
        return Unauthorized;
      }
      OneCall(MFA_LIMITS, hash, cache.mem, now, Claim(payload, live), codeOk, userOk);
      var claimed := cache.GetDel(now, token);
      // nobody else ran since the peek, so the claim cannot fail here
      if claimed.Err? {
        assert false;
      }
      OneCall(MFA_LIMITS, hash, cache.mem, now, ClearCounter(payload), codeOk, userOk);
      cache.Delete(attempts);
      OneCall(MFA_LIMITS, hash, cache.mem, now, CreateSession(payload), codeOk, userOk);
      out := if userOk then SessionCreated(payload.userId) else Refused;
      Done(hash, cache.mem, now, out, codeOk, userOk);
    }
  }

  // ---------------------------------------------------------------- concurrent challenges

  /** reached and winner are recorded for stating the theorem: the challenges that got to a code
      check having counted themselves while the token was there, and the one that claimed it. */
  datatype State = State(
    now: int,
    mem: Mem<Payload>,
    challenges: map<int, Pc>,
    reached: set<int>,
    winner: Option<int>,
    sessions: nat)

  datatype Act =
    | Wait(until: int)
    | Arrive(c: int)
    | Advance(c: int, codeOk: bool, userOk: bool)
    | Elsewhere(key: string, entry: Option<Entry<Payload>>)

  function Next(limits: Limits, hash: string, s: State, act: Act): State {
    match act
    case Wait(t) => if s.now <= t then s.(now := t) else s
    case Arrive(c) => if c in s.challenges then s else s.(challenges := s.challenges[c := Peek])
    case Elsewhere(key, entry) =>
      if key == TokenKey(hash) || key == AttemptsKey(hash) then s
      else s.(mem := if entry.Some? then s.mem[key := entry.value] else s.mem - {key})
    case Advance(c, codeOk, userOk) =>
      if c !in s.challenges then s
      else
        var pc := s.challenges[c];
        var (mem', pc') := Step(limits, hash, s.mem, s.now, pc, codeOk, userOk);
        State(s.now, mem', s.challenges[c := pc'],
              if pc.Count? && pc'.Check? && pc'.live then s.reached + {c} else s.reached,
              if pc.Claim? && pc'.ClearCounter? then Some(c) else s.winner,
              if pc.CreateSession? && pc'.outcome.SessionCreated? then s.sessions + 1 else s.sessions)
  }

  function Exec(limits: Limits, hash: string, s: State, acts: seq<Act>): State {
    if acts == [] then s else Next(limits, hash, Exec(limits, hash, s, acts[..|acts| - 1]), acts[|acts| - 1])
  }

  /** Just issued: the token is stored with its lifetime, its hash is new, nobody has challenged it. */
  predicate JustIssued(limits: Limits, hash: string, s: State, payload: Payload) {
    && TokenKey(hash) in s.mem && s.mem[TokenKey(hash)] == Entry(Value(payload), s.now + limits.tokenTtl)
    && AttemptsKey(hash) !in s.mem
    && s.challenges == map[] && s.reached == {} && s.winner == None && s.sessions == 0
  }

  predicate TokenThere(hash: string, s: State) {
    Readable(s.mem, s.now, TokenKey(hash))
  }

  function Least(a: int, b: int): int {
    if a < b then a else b
  }

  /** While the token is there, the counter has never been reset. */
  predicate CounterOk(limits: Limits, hash: string, s: State, expiry: int) {
    var key := AttemptsKey(hash);
    if key !in s.mem then s.reached == {}
    else
      && s.mem[key].data.Number? && s.mem[key].expires >= expiry
      && |s.reached| == Least(s.mem[key].data.n, limits.maxAttempts)
  }

  predicate ChallengeOk(hash: string, s: State, c: int, pc: Pc) {
    match pc
    case Peek => c !in s.reached
    case Count(_) => c !in s.reached
    case Check(_, live) => if live then c in s.reached else !TokenThere(hash, s)
    case Claim(_, live) => if live then c in s.reached else !TokenThere(hash, s)
    case DropCounter => TokenKey(hash) !in s.mem
    case ClearCounter(_) => s.winner == Some(c)
    case CreateSession(_) => s.winner == Some(c)
    case Finished(SessionCreated(_)) => s.winner == Some(c)
    case _ => true
  }

  predicate HasSession(s: State, c: int) {
    c in s.challenges && s.challenges[c].Finished? && s.challenges[c].outcome.SessionCreated?
  }

  predicate Core(limits: Limits, hash: string, s: State, expiry: int, payload: Payload) {
    && expiry <= s.now + limits.tokenTtl
    && (TokenKey(hash) in s.mem ==> s.mem[TokenKey(hash)] == Entry(Value(payload), expiry))
    && (TokenThere(hash, s) ==> CounterOk(limits, hash, s, expiry))
    && |s.reached| <= limits.maxAttempts
    && s.reached <= s.challenges.Keys
    && (s.winner.Some? ==> TokenKey(hash) !in s.mem && s.winner.value in s.reached)
    && s.sessions == (if s.winner.Some? && HasSession(s, s.winner.value) then 1 else 0)
  }

  ghost predicate Inv(limits: Limits, hash: string, s: State, expiry: int, payload: Payload) {
    && Core(limits, hash, s, expiry, payload)
    && forall c :: c in s.challenges ==> ChallengeOk(hash, s, c, s.challenges[c])
  }

  /** What the other challenges see of a step: the token never comes back, nobody else is added to
      reached, and a winner stays the winner. */
  lemma OthersKeep(hash: string, s: State, s': State, c: int, pc: Pc)
    requires ChallengeOk(hash, s, c, pc)
    requires TokenKey(hash) in s'.mem ==> TokenKey(hash) in s.mem
    requires TokenThere(hash, s') ==> TokenThere(hash, s)
    requires c in s'.reached <==> c in s.reached
    requires s.winner.Some? ==> s'.winner == s.winner
    ensures ChallengeOk(hash, s', c, pc)
  {}

  lemma CountKeepsCore(limits: Limits, hash: string, s: State, c: int, codeOk: bool, userOk: bool, expiry: int,
                       payload: Payload)
    requires limits.counterTtl >= limits.tokenTtl
    requires Core(limits, hash, s, expiry, payload)
    requires c in s.challenges && s.challenges[c].Count? && ChallengeOk(hash, s, c, s.challenges[c])
    ensures Core(limits, hash, Next(limits, hash, s, Advance(c, codeOk, userOk)), expiry, payload)
  {
    KeysDiffer(hash);
    hide TokenKey, AttemptsKey;
  }

  lemma ClaimKeepsCore(limits: Limits, hash: string, s: State, c: int, codeOk: bool, userOk: bool, expiry: int,
                       payload: Payload)
    requires Core(limits, hash, s, expiry, payload)
    requires c in s.challenges && s.challenges[c].Claim? && ChallengeOk(hash, s, c, s.challenges[c])
    ensures Core(limits, hash, Next(limits, hash, s, Advance(c, codeOk, userOk)), expiry, payload)
  {
    hide TokenKey, AttemptsKey;
  }

  lemma OtherStepsKeepCore(limits: Limits, hash: string, s: State, c: int, codeOk: bool, userOk: bool, expiry: int,
                           payload: Payload)
    requires Core(limits, hash, s, expiry, payload)
    requires c in s.challenges && !s.challenges[c].Count? && !s.challenges[c].Claim?
    requires ChallengeOk(hash, s, c, s.challenges[c])
    ensures Core(limits, hash, Next(limits, hash, s, Advance(c, codeOk, userOk)), expiry, payload)
  {
    KeysDiffer(hash);
    hide TokenKey, AttemptsKey;
  }

  lemma AdvanceCore(limits: Limits, hash: string, s: State, c: int, codeOk: bool, userOk: bool, expiry: int,
                    payload: Payload)
    requires limits.counterTtl >= limits.tokenTtl
    requires Core(limits, hash, s, expiry, payload)
    requires c in s.challenges && ChallengeOk(hash, s, c, s.challenges[c])
    ensures Core(limits, hash, Next(limits, hash, s, Advance(c, codeOk, userOk)), expiry, payload)
  {
    hide Core, Next, ChallengeOk;
    if s.challenges[c].Count? {
      CountKeepsCore(limits, hash, s, c, codeOk, userOk, expiry, payload);
    } else if s.challenges[c].Claim? {
      ClaimKeepsCore(limits, hash, s, c, codeOk, userOk, expiry, payload);
    } else {
      OtherStepsKeepCore(limits, hash, s, c, codeOk, userOk, expiry, payload);
    }
  }

  lemma AdvanceChallenges(limits: Limits, hash: string, s: State, c: int, codeOk: bool, userOk: bool, expiry: int,
                          payload: Payload)
    requires Inv(limits, hash, s, expiry, payload)
    requires c in s.challenges
    ensures var s' := Next(limits, hash, s, Advance(c, codeOk, userOk));
            forall d :: d in s'.challenges ==> ChallengeOk(hash, s', d, s'.challenges[d])
  {
    KeysDiffer(hash);
    hide TokenKey, AttemptsKey;
    var s' := Next(limits, hash, s, Advance(c, codeOk, userOk));
    assert ChallengeOk(hash, s, c, s.challenges[c]);
    hide CounterOk;
    assert ChallengeOk(hash, s', c, s'.challenges[c]);
    forall d | d in s.challenges && d != c ensures ChallengeOk(hash, s', d, s.challenges[d]) {
      OthersKeep(hash, s, s', d, s.challenges[d]);
    }
  }

  lemma NextKeeps(limits: Limits, hash: string, s: State, act: Act, expiry: int, payload: Payload)
    requires limits.counterTtl >= limits.tokenTtl
    requires Inv(limits, hash, s, expiry, payload)
    ensures Inv(limits, hash, Next(limits, hash, s, act), expiry, payload)
  {
    hide TokenKey, AttemptsKey, Step, ChallengeOk;
    var s' := Next(limits, hash, s, act);
    if act.Advance? {
      if act.c in s.challenges {
        AdvanceCore(limits, hash, s, act.c, act.codeOk, act.userOk, expiry, payload);
        AdvanceChallenges(limits, hash, s, act.c, act.codeOk, act.userOk, expiry, payload);
      }
    } else {
      forall d | d in s'.challenges ensures ChallengeOk(hash, s', d, s'.challenges[d]) {
        if d in s.challenges {
          OthersKeep(hash, s, s', d, s.challenges[d]);
        } else {
          Newcomer(hash, s', d);
        }
      }
    }
  }

  lemma Newcomer(hash: string, s: State, c: int)
    requires c !in s.reached
    ensures ChallengeOk(hash, s, c, Peek)
  {}

  lemma {:induction false} RunKeeps(limits: Limits, hash: string, s: State, acts: seq<Act>, payload: Payload)
    requires limits.counterTtl >= limits.tokenTtl
    requires JustIssued(limits, hash, s, payload)
    ensures Inv(limits, hash, Exec(limits, hash, s, acts), s.now + limits.tokenTtl, payload)
  {
    hide Next;
    if acts != [] {
      RunKeeps(limits, hash, s, acts[..|acts| - 1], payload);
      NextKeeps(limits, hash, Exec(limits, hash, s, acts[..|acts| - 1]), acts[|acts| - 1], s.now + limits.tokenTtl,
                payload);
    }
  }

  /** However many challenges run against one issued token and however they interleave with the clock
      and with other keys: at most one session is created, by a challenge that counted itself while
      the token was there, and at most maxAttempts of those ever reach a code check. What it takes is
      that the counter lives at least as long as the token. */
  lemma OneSessionFewGuesses(limits: Limits, hash: string, s: State, acts: seq<Act>, payload: Payload)
    requires limits.counterTtl >= limits.tokenTtl
    requires JustIssued(limits, hash, s, payload)
    ensures var end := Exec(limits, hash, s, acts);
            && end.sessions <= 1
            && |end.reached| <= limits.maxAttempts
            && (forall c, d :: HasSession(end, c) && HasSession(end, d) ==> c == d)
            && (forall c :: HasSession(end, c) ==> c in end.reached)
            && (forall c :: HasSession(end, c) ==> end.sessions == 1 && TokenKey(hash) !in end.mem)
  {
    hide Exec, CounterOk, TokenKey;
    RunKeeps(limits, hash, s, acts, payload);
    var end := Exec(limits, hash, s, acts);
    forall c | HasSession(end, c) ensures end.winner == Some(c) {
      assert ChallengeOk(hash, end, c, end.challenges[c]);
    }
  }

  /** The handler's own limits: five guesses and one session. */
  lemma MfaLimitsHold(hash: string, s: State, acts: seq<Act>, payload: Payload)
    requires JustIssued(MFA_LIMITS, hash, s, payload)
    ensures Exec(MFA_LIMITS, hash, s, acts).sessions <= 1
    ensures |Exec(MFA_LIMITS, hash, s, acts).reached| <= 5
  {
    OneSessionFewGuesses(MFA_LIMITS, hash, s, acts, payload);
  }

  // ---------------------------------------------------------------- a counter that expires too early

  lemma {:induction false} ExecAppend(limits: Limits, hash: string, s: State, a: seq<Act>, b: seq<Act>)
    ensures Exec(limits, hash, s, a + b) == Exec(limits, hash, Exec(limits, hash, s, a), b)
  {
    hide Next;
    if b == [] {
      assert a + b == a;
    } else {
      ExecAppend(limits, hash, s, a, b[..|b| - 1]);
      assert (a + b)[..|a + b| - 1] == a + b[..|b| - 1];
    }
  }

  /** A challenge up to its code check, which fails. */
  function Guess(c: int): seq<Act> {
    [Arrive(c), Advance(c, false, true), Advance(c, false, true)]
  }

  function Guesses(k: nat): seq<Act> {
    if k == 0 then [] else Guesses(k - 1) + Guess(k - 1)
  }

  function Below(k: nat): (below: set<int>)
    ensures |below| == k && forall c :: c in below <==> 0 <= c < k
  {
    if k == 0 then {} else Below(k - 1) + {k - 1}
  }

  lemma ThreeActs(limits: Limits, hash: string, s: State, a: Act, b: Act, c: Act)
    ensures Exec(limits, hash, s, [a, b, c]) == Next(limits, hash, Next(limits, hash, Next(limits, hash, s, a), b), c)
  {
    hide Next;
    assert [a, b, c][..2] == [a, b] && [a, b][..1] == [a] && [a][..0] == [];
    assert Exec(limits, hash, s, [a]) == Next(limits, hash, s, a);
    assert Exec(limits, hash, s, [a, b]) == Next(limits, hash, Exec(limits, hash, s, [a]), b);
  }

  /** While the token is there and the count allows it, one more challenge gets to a check. */
  lemma OneGuess(limits: Limits, hash: string, s: State, c: int)
    requires c !in s.challenges && TokenThere(hash, s) && s.mem[TokenKey(hash)].data.Value?
    requires Countable(s.mem, s.now, AttemptsKey(hash)) && CountOf(s.mem, s.now, AttemptsKey(hash)) < limits.maxAttempts
    ensures var t := Exec(limits, hash, s, Guess(c));
            && t.now == s.now && t.mem == Bump(s.mem, s.now, AttemptsKey(hash), limits.counterTtl)
            && t.reached == s.reached + {c} && t.challenges.Keys == s.challenges.Keys + {c}
  {
    hide TokenKey, AttemptsKey;
    ThreeActs(limits, hash, s, Arrive(c), Advance(c, false, true), Advance(c, false, true));
    hide Exec;
    var p := s.mem[TokenKey(hash)].data.v;
    var s2 := Next(limits, hash, Next(limits, hash, s, Arrive(c)), Advance(c, false, true));
    assert s2 == s.(challenges := s.challenges[c := Count(p)]);
  }

  /** After k guesses the counter says at most k and expires when the first of them said. */
  predicate Guessed(limits: Limits, hash: string, s: State, t: State, k: nat) {
    && t.now == s.now && t.reached == Below(k) && t.challenges.Keys == Below(k)
    && TokenKey(hash) in t.mem && TokenKey(hash) in s.mem && t.mem[TokenKey(hash)] == s.mem[TokenKey(hash)]
    && (AttemptsKey(hash) in t.mem ==>
          var e := t.mem[AttemptsKey(hash)];
          e.data.Number? && e.data.n <= k && e.expires <= s.now + limits.counterTtl)
  }

  lemma GuessedNext(limits: Limits, hash: string, s: State, t: State, payload: Payload, k: nat)
    requires JustIssued(limits, hash, s, payload) && limits.tokenTtl >= 0 && k < limits.maxAttempts
    requires Guessed(limits, hash, s, t, k)
    ensures Guessed(limits, hash, s, Exec(limits, hash, t, Guess(k)), k + 1)
  {
    KeysDiffer(hash);
    hide TokenKey, AttemptsKey, Guess, Exec, Below;
    OneGuess(limits, hash, t, k);
    assert Below(k + 1) == Below(k) + {k};
  }

  lemma {:induction false} GuessesReach(limits: Limits, hash: string, s: State, payload: Payload, k: nat)
    requires JustIssued(limits, hash, s, payload) && limits.tokenTtl >= 0 && k <= limits.maxAttempts
    ensures Guessed(limits, hash, s, Exec(limits, hash, s, Guesses(k)), k)
  {
    hide TokenKey, AttemptsKey, Guess, Next;
    if k == 0 {
      assert Exec(limits, hash, s, []) == s;
    } else {
      hide Exec, Guessed, JustIssued;
      GuessesReach(limits, hash, s, payload, k - 1);
      ExecAppend(limits, hash, s, Guesses(k - 1), Guess(k - 1));
      GuessedNext(limits, hash, s, Exec(limits, hash, s, Guesses(k - 1)), payload, k - 1);
    }
  }

  lemma WaitOnly(limits: Limits, hash: string, s: State, t: int)
    requires s.now <= t
    ensures Exec(limits, hash, s, [Wait(t)]) == s.(now := t)
  {
    assert [Wait(t)][..0] == [];
  }

  /** When every guess has been made and the counter has expired, the token still is there. */
  function Reopened(limits: Limits, s: State): int {
    s.now + if limits.counterTtl < 0 then 0 else limits.counterTtl + 1
  }

  function TooManyGuesses(limits: Limits, s: State): seq<Act> {
    Guesses(limits.maxAttempts) + [Wait(Reopened(limits, s))] + Guess(limits.maxAttempts)
  }

  /** Whenever the counter expires before the token, one guess more than the limit is possible. */
  lemma ShortCounterAllowsMore(limits: Limits, hash: string, s: State, payload: Payload)
    requires JustIssued(limits, hash, s, payload)
    requires limits.counterTtl < limits.tokenTtl && limits.tokenTtl >= 0 && limits.maxAttempts >= 1
    ensures |Exec(limits, hash, s, TooManyGuesses(limits, s)).reached| == limits.maxAttempts + 1
  {
    var k, until := limits.maxAttempts, Reopened(limits, s);
    KeysDiffer(hash);
    hide TokenKey, AttemptsKey, Guess, Exec, Guesses;
    GuessesReach(limits, hash, s, payload, k);
    var t := Exec(limits, hash, s, Guesses(k));
    ExecAppend(limits, hash, s, Guesses(k), [Wait(until)]);
    WaitOnly(limits, hash, t, until);
    ExecAppend(limits, hash, s, Guesses(k) + [Wait(until)], Guess(k));
    OneGuess(limits, hash, t.(now := until), k);
    assert Below(k + 1) == Below(k) + {k};
  }

  ghost predicate GuessesBounded(limits: Limits, hash: string, s: State) {
    forall acts :: |Exec(limits, hash, s, acts).reached| <= limits.maxAttempts
  }

  /** Exactly when the bound on guesses holds of every run: when the counter lives at least as long as the
      token. */
  lemma GuessesBoundedIff(limits: Limits, hash: string, s: State, payload: Payload)
    requires JustIssued(limits, hash, s, payload) && limits.tokenTtl >= 0 && limits.maxAttempts >= 1
    ensures GuessesBounded(limits, hash, s) <==> limits.counterTtl >= limits.tokenTtl
  {
    hide Exec, JustIssued;
    if limits.counterTtl >= limits.tokenTtl {
      forall acts ensures |Exec(limits, hash, s, acts).reached| <= limits.maxAttempts {
        OneSessionFewGuesses(limits, hash, s, acts, payload);
      }
    } else {
      ShortCounterAllowsMore(limits, hash, s, payload);
      assert !(|Exec(limits, hash, s, TooManyGuesses(limits, s)).reached| <= limits.maxAttempts);
    }
  }
}
