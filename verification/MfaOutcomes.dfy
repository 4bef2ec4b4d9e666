/**
 * What an answer to a second-factor challenge stands for, over every run: who gets a session, and why
 * somebody is refused. This does not depend on the lifetimes or the limit.
 */
module MfaOutcomes {
  import opened Wrappers
  import opened CacheClient
  import opened MfaChallenge

  function Before(limits: Limits, hash: string, s: State, acts: seq<Act>, k: nat): State
    requires k <= |acts|
  {
    Exec(limits, hash, s, acts[..k])
  }

  /** Step k is a call of challenge c at its code check, with that verdict on the code. */
  predicate CheckedAt(limits: Limits, hash: string, s: State, acts: seq<Act>, k: nat, c: int, codeOk: bool)
    requires k < |acts|
  {
    var t := Before(limits, hash, s, acts, k);
    acts[k].Advance? && acts[k].c == c && acts[k].codeOk == codeOk && c in t.challenges && t.challenges[c].Check?
  }

  /** Step k is a call of challenge c that took the token out of the cache while it was there. */
  predicate ClaimedAt(limits: Limits, hash: string, s: State, acts: seq<Act>, k: nat, c: int)
    requires k < |acts|
  {
    var t := Before(limits, hash, s, acts, k);
    && acts[k].Advance? && acts[k].c == c && c in t.challenges && t.challenges[c].Claim?
    && TokenKey(hash) in t.mem && t.now <= t.mem[TokenKey(hash)].expires
  }

  /** Step k is the last call of challenge c, with that verdict on the account. */
  predicate AdmittedAt(limits: Limits, hash: string, s: State, acts: seq<Act>, k: nat, c: int, userOk: bool)
    requires k < |acts|
  {
    var t := Before(limits, hash, s, acts, k);
    && acts[k].Advance? && acts[k].c == c && acts[k].userOk == userOk
    && c in t.challenges && t.challenges[c].CreateSession?
  }

  ghost predicate RightCode(limits: Limits, hash: string, s: State, acts: seq<Act>, n: nat, c: int)
    requires n <= |acts|
  {
    exists k :: 0 <= k < n && CheckedAt(limits, hash, s, acts, k, c, true)
  }

  ghost predicate WrongCode(limits: Limits, hash: string, s: State, acts: seq<Act>, n: nat, c: int)
    requires n <= |acts|
  {
    exists k :: 0 <= k < n && CheckedAt(limits, hash, s, acts, k, c, false)
  }

  /** A right code, then the claim of the token. */
  ghost predicate ClaimedRightly(limits: Limits, hash: string, s: State, acts: seq<Act>, n: nat, c: int)
    requires n <= |acts|
  {
    exists j, k ::
      0 <= j < k < n && CheckedAt(limits, hash, s, acts, j, c, true) && ClaimedAt(limits, hash, s, acts, k, c)
  }

  ghost predicate Concluded(limits: Limits, hash: string, s: State, acts: seq<Act>, n: nat, c: int, userOk: bool)
    requires n <= |acts|
  {
    exists j, k, l ::
      && 0 <= j < k < l < n && CheckedAt(limits, hash, s, acts, j, c, true)
      && ClaimedAt(limits, hash, s, acts, k, c) && AdmittedAt(limits, hash, s, acts, l, c, userOk)
  }

  /** What has happened to a challenge that stands there. */
  ghost predicate Earned(limits: Limits, hash: string, s: State, acts: seq<Act>, n: nat, c: int, pc: Pc,
                         payload: Payload)
    requires n <= |acts|
  {
    match pc
    case Peek => true
    case Count(p) => p == payload
    case DropToken => true
    case DropCounter => true
    case Check(p, _) => p == payload
    case Claim(p, _) => p == payload && RightCode(limits, hash, s, acts, n, c)
    case ClearCounter(p) => p == payload && ClaimedRightly(limits, hash, s, acts, n, c)
    case CreateSession(p) => p == payload && ClaimedRightly(limits, hash, s, acts, n, c)
    case Finished(SessionCreated(user)) => user == payload.userId && Concluded(limits, hash, s, acts, n, c, true)
    case Finished(Refused) => Concluded(limits, hash, s, acts, n, c, false)
    case Finished(Unauthorized) => WrongCode(limits, hash, s, acts, n, c)
    case Finished(_) => true
  }

  ghost predicate AllEarned(limits: Limits, hash: string, s: State, acts: seq<Act>, n: nat, payload: Payload)
    requires n <= |acts|
  {
    var t := Before(limits, hash, s, acts, n);
    && (TokenKey(hash) in t.mem ==> t.mem[TokenKey(hash)].data == Value(payload))
    && forall c :: c in t.challenges ==> Earned(limits, hash, s, acts, n, c, t.challenges[c], payload)
  }

  lemma EarnedLasts(limits: Limits, hash: string, s: State, acts: seq<Act>, n: nat, c: int, pc: Pc, payload: Payload)
    requires n < |acts| && Earned(limits, hash, s, acts, n, c, pc, payload)
    ensures Earned(limits, hash, s, acts, n + 1, c, pc, payload)
  {
    hide CheckedAt, ClaimedAt, AdmittedAt;
  }

  lemma BeforeNext(limits: Limits, hash: string, s: State, acts: seq<Act>, n: nat)
    requires n < |acts|
    ensures Before(limits, hash, s, acts, n + 1) == Next(limits, hash, Before(limits, hash, s, acts, n), acts[n])
  {
    hide Next;
    assert acts[..n + 1][..n] == acts[..n];
  }

  /** The calls of a challenge, one by one. */
  lemma StepEarns(limits: Limits, hash: string, s: State, acts: seq<Act>, n: nat, payload: Payload)
    requires n < |acts| && AllEarned(limits, hash, s, acts, n, payload)
    requires acts[n].Advance? && acts[n].c in Before(limits, hash, s, acts, n).challenges
    ensures var t, act := Before(limits, hash, s, acts, n), acts[n];
            var pc := Step(limits, hash, t.mem, t.now, t.challenges[act.c], act.codeOk, act.userOk).1;
            Earned(limits, hash, s, acts, n + 1, act.c, pc, payload)
  {
    hide Exec, TokenKey, AttemptsKey;
    var t, act := Before(limits, hash, s, acts, n), acts[n];
    var c, pc := act.c, t.challenges[acts[n].c];
    EarnedLasts(limits, hash, s, acts, n, c, pc, payload);
    match pc
    case Check(_, _) => assert CheckedAt(limits, hash, s, acts, n, c, act.codeOk);
    case Claim(_, _) =>
      if t.challenges[c].Claim? && Readable(t.mem, t.now, TokenKey(hash)) {
        var j :| 0 <= j < n && CheckedAt(limits, hash, s, acts, j, c, true);
        assert ClaimedAt(limits, hash, s, acts, n, c);
      }
    case CreateSession(_) =>
      var j, k :| 0 <= j < k < n
          && CheckedAt(limits, hash, s, acts, j, c, true) && ClaimedAt(limits, hash, s, acts, k, c);
      assert AdmittedAt(limits, hash, s, acts, n, c, act.userOk);
    case _ =>
  }

  lemma {:induction false} RunEarns(limits: Limits, hash: string, s: State, acts: seq<Act>, n: nat, payload: Payload)
    requires n <= |acts| && JustIssued(limits, hash, s, payload)
    ensures AllEarned(limits, hash, s, acts, n, payload)
  {
    if n == 0 {
      assert acts[..0] == [];
    } else {
      RunEarns(limits, hash, s, acts, n - 1, payload);
      NextEarns(limits, hash, s, acts, n - 1, payload);
    }
  }

  lemma NextEarns(limits: Limits, hash: string, s: State, acts: seq<Act>, n: nat, payload: Payload)
    requires n < |acts| && AllEarned(limits, hash, s, acts, n, payload)
    ensures AllEarned(limits, hash, s, acts, n + 1, payload)
  {
    hide Exec, TokenKey, AttemptsKey, Earned, Before;
    KeysDiffer(hash);
    BeforeNext(limits, hash, s, acts, n);
    var t, act := Before(limits, hash, s, acts, n), acts[n];
    var u := Before(limits, hash, s, acts, n + 1);
    forall c | c in u.challenges ensures Earned(limits, hash, s, acts, n + 1, c, u.challenges[c], payload) {
      if act.Advance? && act.c == c && c in t.challenges {
        StepEarns(limits, hash, s, acts, n, payload);
      } else if c in t.challenges {
        EarnedLasts(limits, hash, s, acts, n, c, t.challenges[c], payload);
      } else {
        Newly(limits, hash, s, acts, n + 1, c, payload);
      }
    }
  }

  lemma Newly(limits: Limits, hash: string, s: State, acts: seq<Act>, n: nat, c: int, payload: Payload)
    requires n <= |acts|
    ensures Earned(limits, hash, s, acts, n, c, Peek, payload)
  {}

  /** In every run: a session is the token's user's, and its challenge had its code found right, then took the
      token out of the cache while it was there, and then had its account admitted; in that order. */
  lemma SessionsAreEarned(limits: Limits, hash: string, s: State, acts: seq<Act>, payload: Payload, c: int)
    requires JustIssued(limits, hash, s, payload) && HasSession(Exec(limits, hash, s, acts), c)
    ensures Exec(limits, hash, s, acts).challenges[c].outcome == SessionCreated(payload.userId)
    ensures Concluded(limits, hash, s, acts, |acts|, c, true)
  {
    RunEarns(limits, hash, s, acts, |acts|, payload);
    assert acts[..|acts|] == acts;
    hide Exec, Concluded, JustIssued;
  }

  /** And a refusal has its reason: a wrong code, or after a right one and the claim an account not admitted. */
  lemma RefusalsHaveReasons(limits: Limits, hash: string, s: State, acts: seq<Act>, payload: Payload, c: int)
    requires JustIssued(limits, hash, s, payload) && c in Exec(limits, hash, s, acts).challenges
    ensures Exec(limits, hash, s, acts).challenges[c] == Finished(Unauthorized) ==>
              WrongCode(limits, hash, s, acts, |acts|, c)
    ensures Exec(limits, hash, s, acts).challenges[c] == Finished(Refused) ==>
              Concluded(limits, hash, s, acts, |acts|, c, false)
  {
    RunEarns(limits, hash, s, acts, |acts|, payload);
    assert acts[..|acts|] == acts;
    hide Exec, Concluded, JustIssued, WrongCode;
  }
}
