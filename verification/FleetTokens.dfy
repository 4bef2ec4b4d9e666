/**
 * Tokens across the fleet: which instance's live keys verify a token another instance signed.
 */
module FleetTokens {
  import opened Wrappers
  import opened Keys
  import opened Rotation
  import Jwt

  /** A live key set pairs the active key of one step of the run with the previous key of a later one. */
  predicate LiveOk(s: State, acts: seq<Act>, n: nat, live: Live)
    requires n <= |acts|
  {
    && live.from <= live.till <= n
    && Stored(live.active) == At(s, acts, live.from).active
    && live.previous == At(s, acts, live.till).previous
  }

  predicate ReadsOk(s: State, acts: seq<Act>, n: nat, pc: Pc)
    requires n <= |acts|
  {
    match pc
    case GotActive(loaded, q) => q <= n && At(s, acts, q).active == loaded
    case Loaded(loaded, p, q, r) => LiveOk(s, acts, n, Live(loaded, p, q, r))
    case Due(loaded, p, q, r) => LiveOk(s, acts, n, Live(loaded, p, q, r))
    case ActiveSaved(loaded, _, next, q) => LiveOk(s, acts, n, Live(next, Some(loaded), q, q))
    case Ready(live) => LiveOk(s, acts, n, live)
    case _ => true
  }

  predicate InstanceOk(s: State, acts: seq<Act>, n: nat, x: Instance)
    requires n <= |acts|
  {
    ReadsOk(s, acts, n, x.pc) && (x.live.Some? ==> LiveOk(s, acts, n, x.live.value))
  }

  lemma ActorReads(s: State, acts: seq<Act>, n: nat)
    requires Start(s) && TimelyRun(s, acts) && n < |acts| && acts[n].Advance?
    requires var t := At(s, acts, n); acts[n].i in t.instances && InstanceOk(s, acts, n, t.instances[acts[n].i])
    ensures InstanceOk(s, acts, n + 1, At(s, acts, n + 1).instances[acts[n].i])
  {
    hide Timely, Inv, CriticalOk, KeysOk, Stored, TimelyRun, Start, At, InstanceOk, Next;
    var t, i := At(s, acts, n), acts[n].i;
    TimelyRunKeeps(s, acts, n);
    TimelyAt(s, acts, n);
    InvHas(t, i);
    assert CriticalOk(t, i, t.instances[i].pc);
    ActorReadsStep(s, acts, n, t, i);
  }

  /** Reads: the loaded keys are those of the steps that read them. */
  lemma ReadingStep(s: State, acts: seq<Act>, n: nat, t: State, i: int)
    requires n < |acts| && t == At(s, acts, n) && t.steps == n && acts[n] == Advance(i)
    requires i in t.instances && InstanceOk(s, acts, n, t.instances[i]) && KeysOk(t, t.instances[i].pc) && IssuedOk(t)
    requires Issued(t, t.active)
    requires var pc := t.instances[i].pc; pc.Idle? || pc.GotActive? || pc.Loaded? || pc.Due? || pc.Ready?
    ensures InstanceOk(s, acts, n + 1, Proceed(t, i).instances[i])
  {
    hide Stored, At;
  }

  /** Writes: what goes live after a rotation is what was just stored. */
  lemma WritingStep(s: State, acts: seq<Act>, n: nat, t: State, i: int)
    requires n < |acts| && t == At(s, acts, n) && t.steps == n && acts[n] == Advance(i) && Timely(t, acts[n])
    requires i in t.instances && InstanceOk(s, acts, n, t.instances[i]) && CriticalOk(t, i, t.instances[i].pc)
    requires var pc := t.instances[i].pc; !(pc.Idle? || pc.GotActive? || pc.Loaded? || pc.Due? || pc.Ready?)
    ensures InstanceOk(s, acts, n + 1, Proceed(t, i).instances[i])
  {
    hide Stored;
    assert At(s, acts, n + 1) == Next(t, acts[n]);
    if t.instances[i].pc.PreviousSaved? {
      assert At(s, acts, n + 1).previous == Some(t.instances[i].pc.loaded);
    }
    hide At;
  }

  lemma ActorReadsStep(s: State, acts: seq<Act>, n: nat, t: State, i: int)
    requires n < |acts| && t == At(s, acts, n) && t.steps == n && acts[n] == Advance(i) && Timely(t, acts[n])
    requires i in t.instances && InstanceOk(s, acts, n, t.instances[i])
    requires KeysOk(t, t.instances[i].pc) && IssuedOk(t) && CriticalOk(t, i, t.instances[i].pc) && Issued(t, t.active)
    ensures InstanceOk(s, acts, n + 1, At(s, acts, n + 1).instances[i])
  {
    AtNext(s, acts, n);
    hide Stored, At, InstanceOk, KeysOk, CriticalOk, Timely, Proceed;
    var pc := t.instances[i].pc;
    if pc.Idle? || pc.GotActive? || pc.Loaded? || pc.Due? || pc.Ready? {
      ReadingStep(s, acts, n, t, i);
    } else {
      WritingStep(s, acts, n, t, i);
    }
  }

  lemma InstanceOkStays(s: State, acts: seq<Act>, n: nat, x: Instance)
    requires n < |acts| && InstanceOk(s, acts, n, x)
    ensures InstanceOk(s, acts, n + 1, x)
  {
    hide Stored, At;
  }

  lemma FailedReads(s: State, acts: seq<Act>, n: nat, t: State, i: int)
    requires n <= |acts| && i in t.instances && InstanceOk(s, acts, n, t.instances[i])
    ensures InstanceOk(s, acts, n, Failed(t, i).instances[i])
  {
    hide Stored, At;
  }

  lemma InstanceStep(s: State, acts: seq<Act>, n: nat, i: int)
    requires Start(s) && TimelyRun(s, acts) && n < |acts|
    requires i in At(s, acts, n).instances ==> InstanceOk(s, acts, n, At(s, acts, n).instances[i])
    requires i in At(s, acts, n + 1).instances
    ensures InstanceOk(s, acts, n + 1, At(s, acts, n + 1).instances[i])
  {
    var t, u, act := At(s, acts, n), At(s, acts, n + 1), acts[n];
    assert u == Next(t, act);
    if act == Advance(i) && i in t.instances {
      ActorReads(s, acts, n);
    } else if act == Fail(i) && i in t.instances {
      FailedReads(s, acts, n, t, i);
      InstanceOkStays(s, acts, n, u.instances[i]);
    } else if act != Join(i) {
      OthersUntouched(t, act, i);
      InstanceOkStays(s, acts, n, u.instances[i]);
    } else if i in t.instances {
      InstanceOkStays(s, acts, n, u.instances[i]);
    }
  }

  ghost predicate AllReads(s: State, acts: seq<Act>, n: nat)
    requires n <= |acts|
  {
    forall i :: i in At(s, acts, n).instances ==> InstanceOk(s, acts, n, At(s, acts, n).instances[i])
  }

  lemma ReadsStep(s: State, acts: seq<Act>, n: nat)
    requires Start(s) && TimelyRun(s, acts) && 0 < n <= |acts| && AllReads(s, acts, n - 1)
    ensures AllReads(s, acts, n)
  {
    hide At, TimelyRun, Start, InstanceOk;
    forall i | i in At(s, acts, n).instances ensures InstanceOk(s, acts, n, At(s, acts, n).instances[i]) {
      InstanceStep(s, acts, n - 1, i);
    }
  }

  lemma {:induction false} ReadsKeep(s: State, acts: seq<Act>, n: nat)
    requires Start(s) && TimelyRun(s, acts) && n <= |acts|
    ensures AllReads(s, acts, n)
  {
    if n > 0 {
      ReadsKeep(s, acts, n - 1);
      hide Start, TimelyRun, AllReads, At;
      ReadsStep(s, acts, n);
    } else {
      NoReads(s, acts);
    }
  }

  lemma NoReads(s: State, acts: seq<Act>)
    requires Start(s)
    ensures AllReads(s, acts, 0)
  {
    hide InstanceOk, Stored;
  }

  lemma LiveReads(s: State, acts: seq<Act>, n: nat, i: int)
    requires Start(s) && TimelyRun(s, acts) && n <= |acts|
    requires i in At(s, acts, n).instances && At(s, acts, n).instances[i].live.Some?
    ensures LiveOk(s, acts, n, At(s, acts, n).instances[i].live.value)
  {
    hide Start, TimelyRun, At;
    ReadsKeep(s, acts, n);
    assert InstanceOk(s, acts, n, At(s, acts, n).instances[i]);
  }

  lemma LivesAgree(s: State, acts: seq<Act>, live: Live)
    requires Start(s) && LiveOk(s, acts, |acts|, live)
    ensures Jwt.KidsAgree(live.active, live.previous)
  {
    StoredKeysIssued(s, acts, live.from, |acts|);
    StoredKeysIssued(s, acts, live.till, |acts|);
    StoredKeepsKid(live.active);
  }

  /** A pair of keys read from the store accepts a token exactly when it contains the signing key, as
      stored, and the claims hold. */
  lemma PairAcceptsIff(s: State, acts: seq<Act>, signer: Key, m: nat, verifier: Live, claims: Jwt.Claims, self: string,
                       issuer: string, now: int)
    requires Start(s) && m <= |acts| && Stored(signer) == At(s, acts, m).active && LiveOk(s, acts, |acts|, verifier)
    ensures Jwt.KidsAgree(verifier.active, verifier.previous)
    ensures Jwt.Accepted(verifier.active, verifier.previous, self, issuer, now, Jwt.Signed(signer, claims)) <==>
              && (At(s, acts, verifier.from).active == Stored(signer)
                  || At(s, acts, verifier.till).previous == Some(Stored(signer)))
              && Jwt.ClaimsHold(claims, self, issuer, now) && Jwt.IsAccess(claims)
  {
    LivesAgree(s, acts, verifier);
    StoredKeysIssued(s, acts, m, |acts|);
    StoredKeysIssued(s, acts, verifier.from, |acts|);
    StoredKeysIssued(s, acts, verifier.till, |acts|);
    StoredKeepsKid(signer);
    StoredKeepsKid(verifier.active);
    hide At, Start, Stored, Jwt.ClaimsHold, Jwt.IsAccess;
    var t := Jwt.Signed(signer, claims);
    forall key | key in Jwt.Live(verifier.active, verifier.previous)
      ensures t == Jwt.Signed(key, t.claims) <==> SameKey(key, signer)
    {}
    assert verifier.active in Jwt.Live(verifier.active, verifier.previous);
  }

  /** Any two reads, active first, that fall wholly between a key becoming active and that key leaving
      the store give a pair that accepts that key's tokens exactly when their claims hold. This is so in
      every run, timely or not. */
  lemma LoadedPairAccepts(s: State, acts: seq<Act>, signer: Key, m: nat, q: nat, r: nat,
                          claims: Jwt.Claims, self: string, issuer: string, now: int)
    requires Start(s) && m <= q <= r <= |acts| && Stored(signer) == At(s, acts, m).active
    requires InStore(At(s, acts, r), Stored(signer))
    ensures Jwt.KidsAgree(At(s, acts, q).active, At(s, acts, r).previous)
    ensures Jwt.Accepted(At(s, acts, q).active, At(s, acts, r).previous, self, issuer, now,
                         Jwt.Signed(signer, claims)) <==>
              Jwt.ClaimsHold(claims, self, issuer, now) && Jwt.IsAccess(claims)
  {
    LoadSeesKey(s, acts, m, q, r);
    ActiveIsStored(s, acts, q);
    PairAcceptsIff(s, acts, signer, m, Live(At(s, acts, q).active, At(s, acts, r).previous, q, r), claims, self, issuer,
                   now);
  }

  lemma ActiveIsStored(s: State, acts: seq<Act>, n: nat)
    requires Start(s) && n <= |acts|
    ensures Stored(At(s, acts, n).active) == At(s, acts, n).active
  {
    RunKeeps(s, acts, n);
  }

  ghost predicate BothLive(s: State, acts: seq<Act>, n: nat, i: int, r: nat, j: int) {
    && n <= |acts| && r <= |acts|
    && i in At(s, acts, n).instances && At(s, acts, n).instances[i].live.Some?
    && j in At(s, acts, r).instances && At(s, acts, r).instances[j].live.Some?
  }

  function LiveAt(s: State, acts: seq<Act>, n: nat, i: int): Live
    requires n <= |acts| && i in At(s, acts, n).instances && At(s, acts, n).instances[i].live.Some?
  {
    At(s, acts, n).instances[i].live.value
  }

  /** The exact condition. In every timely run, whatever was loaded when: an instance accepts a token that
      another signed exactly when its first read found the signing key active, or its second read found it
      stored as previous, and the claims hold. */
  lemma TokenAcceptedIff(s: State, acts: seq<Act>, n: nat, i: int, r: nat, j: int, claims: Jwt.Claims, self: string,
                         issuer: string)
    requires Start(s) && TimelyRun(s, acts) && BothLive(s, acts, n, i, r, j)
    ensures var signer, verifier := LiveAt(s, acts, n, i), LiveAt(s, acts, r, j);
            && signer.from <= n && verifier.from <= verifier.till <= r
            && var k := At(s, acts, signer.from).active;
               && Jwt.KidsAgree(verifier.active, verifier.previous)
               && (Jwt.Accepted(verifier.active, verifier.previous, self, issuer, At(s, acts, r).now,
                                Jwt.Signed(signer.active, claims)) <==>
                     && (At(s, acts, verifier.from).active == k || At(s, acts, verifier.till).previous == Some(k))
                     && Jwt.ClaimsHold(claims, self, issuer, At(s, acts, r).now) && Jwt.IsAccess(claims))
  {
    LiveReads(s, acts, n, i);
    LiveReads(s, acts, r, j);
    hide At, TimelyRun, Stored, Start, Jwt.Accepted, Jwt.ClaimsHold, Jwt.IsAccess;
    var signer, verifier := LiveAt(s, acts, n, i), LiveAt(s, acts, r, j);
    PairAcceptsIff(s, acts, signer.active, signer.from, verifier, claims, self, issuer, At(s, acts, r).now);
  }

  /** In every timely run: if the verifier loaded its keys after the signer had read the signing key, and
      the token is presented within MaxAge less the lock lifetime and a second of that reading, then the
      verifier accepts it exactly when the claims hold, with the claims that were signed. */
  lemma TokenStaysVerifiable(s: State, acts: seq<Act>, n: nat, i: int, r: nat, j: int,
                             claims: Jwt.Claims, self: string, issuer: string)
    requires Start(s) && TimelyRun(s, acts) && n <= r && BothLive(s, acts, n, i, r, j)
    requires var signer, verifier := LiveAt(s, acts, n, i), LiveAt(s, acts, r, j);
             && signer.from <= verifier.from && signer.from <= |acts|
             && At(s, acts, r).now - At(s, acts, signer.from).now <= MAX_AGE - LOCK_TTL - SECOND
    ensures var signer, verifier := LiveAt(s, acts, n, i), LiveAt(s, acts, r, j);
            && Jwt.KidsAgree(verifier.active, verifier.previous)
            && (exists key :: key in Jwt.Live(verifier.active, verifier.previous) && SameKey(key, signer.active))
            && (Jwt.Accepted(verifier.active, verifier.previous, self, issuer, At(s, acts, r).now,
                             Jwt.Signed(signer.active, claims)) <==>
                  Jwt.ClaimsHold(claims, self, issuer, At(s, acts, r).now) && Jwt.IsAccess(claims))
  {
    LiveReads(s, acts, n, i);
    LiveReads(s, acts, r, j);
    hide At, TimelyRun, Stored, Start, Jwt.Accepted, Jwt.ClaimsHold, Jwt.IsAccess, Jwt.KidsAgree;
    TokenAcceptedIff(s, acts, n, i, r, j, claims, self, issuer);
    var signer, verifier := LiveAt(s, acts, n, i), LiveAt(s, acts, r, j);
    StillStored(s, acts, signer.from, verifier.till, r);
    LoadSeesKey(s, acts, signer.from, verifier.from, verifier.till);
    StoredKeepsKid(signer.active);
    StoredKeepsKid(verifier.active);
    var key := if At(s, acts, verifier.from).active == Stored(signer.active) then verifier.active
        else verifier.previous.value;
    assert key in Jwt.Live(verifier.active, verifier.previous) && SameKey(key, signer.active);
  }

  const CHECK_INTERVAL := 300 * SECOND
  const ACCESS_TOKEN_TTL := 900 * SECOND

  /** With the configured numbers: a signer whose keys were read at most 25,895 check intervals ago (some
      89 days of failed reloads) signs no access or id token that could outlive the signing key at a
      verifier that loaded since: until the token expires, that key is among the verifier's live keys, which
      are also the ones it publishes. */
  lemma KeyOutlivesTokens(s: State, acts: seq<Act>, n: nat, i: int, r: nat, j: int, intervals: nat, ttl: int,
                          claims: Jwt.Claims, self: string, issuer: string)
    requires Start(s) && TimelyRun(s, acts) && n <= r && BothLive(s, acts, n, i, r, j)
    requires ttl == ACCESS_TOKEN_TTL || ttl == Jwt.ID_TOKEN_TTL
    requires var signer, verifier := LiveAt(s, acts, n, i), LiveAt(s, acts, r, j);
             && signer.from <= verifier.from && signer.from <= |acts|
             && At(s, acts, n).now - At(s, acts, signer.from).now <= intervals * CHECK_INTERVAL && intervals <= 25_895
             && At(s, acts, r).now <= At(s, acts, n).now + ttl
    ensures var signer, verifier := LiveAt(s, acts, n, i), LiveAt(s, acts, r, j);
            exists key :: key in Jwt.Live(verifier.active, verifier.previous) && SameKey(key, signer.active)
    ensures var signer, verifier := LiveAt(s, acts, n, i), LiveAt(s, acts, r, j);
            Jwt.Accepted(verifier.active, verifier.previous, self, issuer, At(s, acts, r).now,
                         Jwt.Signed(signer.active, claims)) <==>
              Jwt.ClaimsHold(claims, self, issuer, At(s, acts, r).now) && Jwt.IsAccess(claims)
  {
    hide At, TimelyRun, Stored, Start, Jwt.Accepted, Jwt.ClaimsHold, Jwt.IsAccess;
    TokenStaysVerifiable(s, acts, n, i, r, j, claims, self, issuer);
  }

  // ---------------------------------------------------------------- a key not yet active is not yet known

  ghost predicate WasActive(s: State, acts: seq<Act>, n: nat, k: Key)
    requires n <= |acts|
  {
    exists m :: 0 <= m <= n && At(s, acts, m).active == k
  }

  function DemotedBy(pc: Pc): Option<Key> {
    if pc.Generated? || pc.PreviousSaved? then Some(pc.demoted) else None
  }

  ghost predicate DemotedWereActive(s: State, acts: seq<Act>, n: nat)
    requires n <= |acts|
  {
    forall i :: i in At(s, acts, n).instances && DemotedBy(At(s, acts, n).instances[i].pc).Some? ==>
      WasActive(s, acts, n, DemotedBy(At(s, acts, n).instances[i].pc).value)
  }

  lemma DemotionStep(s: State, act: Act, i: int)
    requires i in Next(s, act).instances && DemotedBy(Next(s, act).instances[i].pc).Some?
    ensures var k := DemotedBy(Next(s, act).instances[i].pc).value;
            k == s.active || (i in s.instances && DemotedBy(s.instances[i].pc) == Some(k))
  {
    hide Stored;
  }

  lemma PreviousStep(s: State, act: Act)
    requires Inv(s)
    ensures Next(s, act).previous == s.previous
            || exists i ::
                 && i in s.instances && DemotedBy(s.instances[i].pc).Some?
                 && Next(s, act).previous == DemotedBy(s.instances[i].pc)
  {
    if act.Advance? && act.i in s.instances && s.instances[act.i].pc.Generated? {
      InvHas(s, act.i);
      assert Stored(s.instances[act.i].pc.demoted) == s.instances[act.i].pc.demoted;
      assert DemotedBy(s.instances[act.i].pc).Some?;
    }
    hide Stored, Inv;
  }

  lemma WasActiveLasts(s: State, acts: seq<Act>, n: nat, k: Key)
    requires n < |acts| && (WasActive(s, acts, n, k) || At(s, acts, n).active == k)
    ensures WasActive(s, acts, n + 1, k)
  {
    hide At;
    var m :| 0 <= m <= n && At(s, acts, m).active == k;
  }

  /** A stored previous key was there from the start or has been active before. */
  lemma {:induction false} PreviousWasActive(s: State, acts: seq<Act>, n: nat)
    requires Start(s) && n <= |acts|
    ensures DemotedWereActive(s, acts, n)
    ensures At(s, acts, n).previous == s.previous
            || (At(s, acts, n).previous.Some? && WasActive(s, acts, n, At(s, acts, n).previous.value))
  {
    if n > 0 {
      PreviousWasActive(s, acts, n - 1);
      RunKeeps(s, acts, n - 1);
      AtNext(s, acts, n - 1);
      var t, act := At(s, acts, n - 1), acts[n - 1];
      PreviousStep(t, act);
      hide At, Next, Inv, WasActive;
      forall i | i in At(s, acts, n).instances && DemotedBy(At(s, acts, n).instances[i].pc).Some?
        ensures WasActive(s, acts, n, DemotedBy(At(s, acts, n).instances[i].pc).value)
      {
        DemotionStep(t, act, i);
        WasActiveNow(s, acts, n - 1);
        WasActiveLasts(s, acts, n - 1, DemotedBy(At(s, acts, n).instances[i].pc).value);
      }
      if At(s, acts, n).previous.Some? && WasActive(s, acts, n - 1, At(s, acts, n).previous.value) {
        WasActiveLasts(s, acts, n - 1, At(s, acts, n).previous.value);
      }
    }
  }

  lemma WasActiveNow(s: State, acts: seq<Act>, n: nat)
    requires n <= |acts|
    ensures WasActive(s, acts, n, At(s, acts, n).active)
  {}

  /** A key that was issued before the run and is not active at its start never becomes active. */
  lemma OldKeysStayOut(s: State, acts: seq<Act>, n: nat, k: Key)
    requires Start(s) && n <= |acts| && Issued(s, k) && s.active != k
    ensures At(s, acts, n).active != k
  {
    GoneFromStart(s, k);
    GoneUntil(s, acts, k, 0, n);
  }

  lemma GoneFromStart(s: State, k: Key)
    requires Start(s) && Issued(s, k) && s.active != k
    ensures Gone(s, k)
  {}

  /** A key that becomes active later is not in the store yet. */
  lemma NotYetStored(s: State, acts: seq<Act>, t: nat, m: nat)
    requires Start(s) && t <= m <= |acts| && At(s, acts, t).active != At(s, acts, m).active
    requires forall q :: 0 <= q <= t ==> At(s, acts, q).active != At(s, acts, m).active
    ensures !InStore(At(s, acts, t), At(s, acts, m).active)
  {
    var k := At(s, acts, m).active;
    PreviousWasActive(s, acts, t);
    if At(s, acts, t).previous == Some(k) {
      if s.previous == Some(k) {
        assert At(s, acts, 0) == s;
        OldKeysStayOut(s, acts, m, k);
        assert false;
      }
      hide At;
      assert false;
    }
  }

  /** An instance whose load finished before a key became active rejects every token signed with it. */
  lemma LoadedTooEarlyRejects(s: State, acts: seq<Act>, n: nat, i: int, r: nat, j: int, claims: Jwt.Claims,
                              self: string, issuer: string)
    requires Start(s) && TimelyRun(s, acts) && BothLive(s, acts, n, i, r, j)
    requires var signer, verifier := LiveAt(s, acts, n, i), LiveAt(s, acts, r, j);
             && verifier.till <= signer.from <= |acts|
             && forall q :: 0 <= q <= verifier.till ==> At(s, acts, q).active != At(s, acts, signer.from).active
    ensures var signer, verifier := LiveAt(s, acts, n, i), LiveAt(s, acts, r, j);
            !Jwt.Accepted(verifier.active, verifier.previous, self, issuer, At(s, acts, r).now,
                          Jwt.Signed(signer.active, claims))
  {
    hide At, TimelyRun, Stored, Start, Jwt.Accepted, Jwt.ClaimsHold, Jwt.IsAccess;
    TokenAcceptedIff(s, acts, n, i, r, j, claims, self, issuer);
    var signer, verifier := LiveAt(s, acts, n, i), LiveAt(s, acts, r, j);
    NotYetStored(s, acts, verifier.till, signer.from);
  }
}
