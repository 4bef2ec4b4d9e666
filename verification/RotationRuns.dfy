/**
 * Runs of the rotation: what one undisturbed tick does, runs that show that each part of the timing
 * hypothesis is needed and where the retention bound comes from, and when a key is kept the full age.
 */
module RotationRuns {
  import opened Wrappers
  import opened Keys
  import opened Rotation
  import Jwt

  function Do(s: State, acts: seq<Act>): State {
    At(s, acts, |acts|)
  }

  function Steps(i: int, k: nat): seq<Act> {
    seq(k, _ => Advance(i))
  }

  lemma {:induction false} Split(s: State, a: seq<Act>, b: seq<Act>, n: nat)
    requires n <= |b|
    ensures At(s, a + b, |a| + n) == At(Do(s, a), b, n)
  {
    if n > 0 {
      Split(s, a, b, n - 1);
    } else {
      Prefix(s, a, b, |a|);
    }
  }

  lemma {:induction false} Prefix(s: State, a: seq<Act>, b: seq<Act>, n: nat)
    requires n <= |a|
    ensures At(s, a + b, n) == At(s, a, n)
  {
    if n > 0 {
      Prefix(s, a, b, n - 1);
    }
  }

  ghost predicate TimelyStep(s: State, acts: seq<Act>, n: nat)
    requires n < |acts|
  {
    Timely(At(s, acts, n), acts[n])
  }

  ghost predicate TimelySteps(s: State, acts: seq<Act>) {
    forall n: nat | n < |acts| :: TimelyStep(s, acts, n)
  }

  lemma TimelyStepwise(s: State, acts: seq<Act>)
    ensures TimelyRun(s, acts) <==> TimelySteps(s, acts)
  {
    hide Timely, At;
    if TimelyRun(s, acts) {
      forall n: nat | n < |acts| ensures TimelyStep(s, acts, n) {}
    }
    if TimelySteps(s, acts) {
      forall n | 0 <= n < |acts| ensures Timely(At(s, acts, n), acts[n]) {
        assert TimelyStep(s, acts, n);
      }
    }
  }

  lemma TimelyIn(s: State, a: seq<Act>, b: seq<Act>, n: nat)
    requires n < |a + b|
    requires n < |a| ==> TimelyStep(s, a, n)
    requires n >= |a| ==> TimelyStep(Do(s, a), b, n - |a|)
    ensures TimelyStep(s, a + b, n)
  {
    hide Timely, Next, At, Do;
    if n < |a| {
      Prefix(s, a, b, n);
    } else {
      Split(s, a, b, n - |a|);
    }
  }

  lemma DoAppend(s: State, a: seq<Act>, b: seq<Act>)
    ensures Do(s, a + b) == Do(Do(s, a), b)
  {
    hide At;
    Split(s, a, b, |b|);
  }

  lemma Compose(s: State, a: seq<Act>, b: seq<Act>)
    ensures Do(s, a + b) == Do(Do(s, a), b)
    ensures TimelyRun(s, a) && TimelyRun(Do(s, a), b) ==> TimelyRun(s, a + b)
  {
    hide Timely, Next, At, TimelyRun, Do, TimelyStep;
    DoAppend(s, a, b);
    TimelyStepwise(s, a);
    TimelyStepwise(Do(s, a), b);
    TimelyStepwise(s, a + b);
    if TimelySteps(s, a) && TimelySteps(Do(s, a), b) {
      forall n: nat | n < |a + b| ensures TimelyStep(s, a + b, n) {
        TimelyIn(s, a, b, n);
      }
    }
  }

  lemma One(s: State, act: Act)
    ensures Do(s, [act]) == Next(s, act)
    ensures TimelyRun(s, [act]) <==> Timely(s, act)
  {
    hide Next, Timely;
    assert At(s, [act], 0) == s;
    if Timely(s, act) {
      assert forall n :: 0 <= n < |[act]| ==> Timely(At(s, [act], n), [act][n]);
    } else {
      assert !Timely(At(s, [act], 0), [act][0]);
    }
  }

  /** Extends a run of one instance by a step from t that leads to u. */
  lemma OneMore(s: State, i: int, k: nat, t: State, u: State)
    requires Do(s, Steps(i, k)) == t && Next(t, Advance(i)) == u
    ensures Do(s, Steps(i, k + 1)) == u
    ensures TimelyRun(s, Steps(i, k)) && Timely(t, Advance(i)) ==> TimelyRun(s, Steps(i, k + 1))
  {
    hide Next, Timely, TimelyRun, Do;
    assert Steps(i, k + 1) == Steps(i, k) + [Advance(i)];
    Compose(s, Steps(i, k), [Advance(i)]);
    One(t, Advance(i));
  }

  lemma NoSteps(s: State, i: int)
    ensures Do(s, Steps(i, 0)) == s && TimelyRun(s, Steps(i, 0))
  {}

  function Put(s: State, steps: nat, i: int, x: Instance): State {
    s.(steps := s.steps + steps, instances := s.instances[i := x])
  }

  lemma FirstLoad(s: State, i: int)
    requires i in s.instances && s.instances[i] == Instance(Idle, None)
    ensures Do(s, Steps(i, 4)) == Put(s, 4, i, Instance(Idle, Some(Live(s.active, s.previous, s.steps, s.steps + 1))))
    ensures TimelyRun(s, Steps(i, 4))
  {
    hide Stored, Do, TimelyRun, Steps;
    var live := Live(s.active, s.previous, s.steps, s.steps + 1);
    var s1 := Put(s, 1, i, Instance(GotActive(s.active, s.steps), None));
    var s2 := Put(s, 2, i, Instance(Loaded(s.active, s.previous, s.steps, s.steps + 1), None));
    var s3 := Put(s, 3, i, Instance(Ready(live), None));
    NoSteps(s, i);
    OneMore(s, i, 0, s, s1);
    OneMore(s, i, 1, s1, s2);
    OneMore(s, i, 2, s2, s3);
    OneMore(s, i, 3, s3, Put(s, 4, i, Instance(Idle, Some(live))));
  }

  /** Starting up loads the stored pair. */
  lemma Boot(s: State, i: int)
    requires i !in s.instances
    ensures Do(s, [Join(i)] + Steps(i, 4)) ==
            Put(s, 5, i, Instance(Idle, Some(Live(s.active, s.previous, s.steps + 1, s.steps + 2))))
    ensures TimelyRun(s, [Join(i)] + Steps(i, 4))
  {
    hide Do, TimelyRun, Steps, Stored;
    One(s, Join(i));
    Compose(s, [Join(i)], Steps(i, 4));
    FirstLoad(Next(s, Join(i)), i);
  }

  /** An idle instance reads an aged active key. */
  lemma BecomeDue(s: State, i: int, live: Live)
    requires i in s.instances && s.instances[i] == Instance(Idle, Some(live)) && Aged(s, s.active)
    ensures Do(s, Steps(i, 3)) == Put(s, 3, i, Instance(Due(s.active, s.previous, s.steps, s.steps + 1), Some(live)))
    ensures TimelyRun(s, Steps(i, 3))
  {
    hide Stored, Do, TimelyRun, Steps;
    var s1 := Put(s, 1, i, Instance(GotActive(s.active, s.steps), Some(live)));
    var s2 := Put(s, 2, i, Instance(Loaded(s.active, s.previous, s.steps, s.steps + 1), Some(live)));
    NoSteps(s, i);
    OneMore(s, i, 0, s, s1);
    OneMore(s, i, 1, s1, s2);
    OneMore(s, i, 2, s2, Put(s, 3, i, Instance(Due(s.active, s.previous, s.steps, s.steps + 1), Some(live))));
  }

  function NextKey(s: State, alg: Alg): Key {
    Key(|s.issued|, alg, |s.issued|, s.now)
  }

  /** It wins the lock and generates a key; it was timely if the loaded key is still active. */
  lemma Take(s: State, i: int, loaded: Key, p: Option<Key>, q: nat, r: nat, live: Option<Live>)
    requires i in s.instances && s.instances[i] == Instance(Due(loaded, p, q, r), live) && LockFree(s)
    ensures Do(s, Steps(i, 3)) ==
            Put(s.(lock := Some(Lock(s.now + LOCK_TTL, i)), issued := s.issued + [Stored(NextKey(s, loaded.alg))]), 3,
                i,
                Instance(Generated(loaded, s.now + LOCK_TTL, s.active, NextKey(s, loaded.alg)), live))
    ensures s.active == loaded ==> TimelyRun(s, Steps(i, 3))
  {
    hide Stored, Do, TimelyRun, Steps;
    var locked := s.(lock := Some(Lock(s.now + LOCK_TTL, i)));
    var s1 := Put(locked, 1, i, Instance(Locked(loaded, s.now + LOCK_TTL), live));
    var s2 := Put(locked, 2, i, Instance(Stamped(loaded, s.now + LOCK_TTL, s.now), live));
    var s3 := Put(locked.(issued := s.issued + [Stored(NextKey(s, loaded.alg))]), 3, i,
                  Instance(Generated(loaded, s.now + LOCK_TTL, s.active, NextKey(s, loaded.alg)), live));
    NoSteps(s, i);
    OneMore(s, i, 0, s, s1);
    OneMore(s, i, 1, s1, s2);
    OneMore(s, i, 2, s2, s3);
  }

  /** It saves both keys, before the lock expires. */
  lemma SaveBoth(s: State, i: int, loaded: Key, d: int, demoted: Key, next: Key, live: Option<Live>)
    requires i in s.instances && s.instances[i] == Instance(Generated(loaded, d, demoted, next), live) && s.now < d
    ensures Do(s, Steps(i, 2)) ==
            Put(s.(previous := Some(Stored(demoted)), active := Stored(next)), 2, i,
                Instance(ActiveSaved(loaded, d, next, s.steps + 2), live))
    ensures TimelyRun(s, Steps(i, 2))
  {
    hide Stored, Do, TimelyRun, Steps;
    var s1 := Put(s.(previous := Some(Stored(demoted))), 1, i, Instance(PreviousSaved(loaded, d, demoted, next), live));
    NoSteps(s, i);
    OneMore(s, i, 0, s, s1);
    OneMore(s, i, 1, s1, Put(s.(previous := Some(Stored(demoted)), active := Stored(next)), 2, i,
                             Instance(ActiveSaved(loaded, d, next, s.steps + 2), live)));
  }

  /** It releases the lock and goes live with the new key and the one it loaded. */
  lemma Finish(s: State, i: int, loaded: Key, d: int, next: Key, q: nat, live: Option<Live>)
    requires i in s.instances && s.instances[i] == Instance(ActiveSaved(loaded, d, next, q), live)
    ensures Do(s, Steps(i, 2)) == Put(s.(lock := None), 2, i, Instance(Idle, Some(Live(next, Some(loaded), q, q))))
    ensures s.lock.Some? && s.lock.value.owner == i ==> TimelyRun(s, Steps(i, 2))
  {
    hide Stored, Do, TimelyRun, Steps;
    var s1 := Put(s.(lock := None), 1, i, Instance(Ready(Live(next, Some(loaded), q, q)), live));
    NoSteps(s, i);
    OneMore(s, i, 0, s, s1);
    OneMore(s, i, 1, s1, Put(s.(lock := None), 2, i, Instance(Idle, Some(Live(next, Some(loaded), q, q)))));
  }

  function Rotated(s: State, i: int): State {
    var next := NextKey(s, s.active.alg);
    Put(s.(previous := Some(Stored(s.active)), active := Stored(next), lock := None,
           issued := s.issued + [Stored(next)]), 10, i,
        Instance(Idle, Some(Live(next, Some(s.active), s.steps + 8, s.steps + 8))))
  }

  function AfterDueTick(s: State, i: int, loaded: Key): State {
    var next := NextKey(s, loaded.alg);
    Put(s.(previous := Some(Stored(s.active)), active := Stored(next), lock := None,
           issued := s.issued + [Stored(next)]), 7, i,
        Instance(Idle, Some(Live(next, Some(loaded), s.steps + 5, s.steps + 5))))
  }

  /** A due tick that nothing disturbs takes the lock, demotes the stored active key, activates a new
      one created now, releases the lock and goes live with the new key and the one it had loaded. */
  lemma DueTick(s: State, i: int, loaded: Key, p: Option<Key>, q: nat, r: nat, live: Option<Live>)
    requires i in s.instances && s.instances[i] == Instance(Due(loaded, p, q, r), live) && LockFree(s)
    ensures Do(s, Steps(i, 3) + Steps(i, 2) + Steps(i, 2)) == AfterDueTick(s, i, loaded)
    ensures s.active == loaded ==> TimelyRun(s, Steps(i, 3) + Steps(i, 2) + Steps(i, 2))
  {
    hide Stored, Do, TimelyRun, Steps;
    var next, d := NextKey(s, loaded.alg), s.now + LOCK_TTL;
    Take(s, i, loaded, p, q, r, live);
    var t := Do(s, Steps(i, 3));
    SaveBoth(t, i, loaded, d, s.active, next, live);
    var u := Do(t, Steps(i, 2));
    Finish(u, i, loaded, d, next, s.steps + 5, live);
    Compose(s, Steps(i, 3), Steps(i, 2));
    Compose(s, Steps(i, 3) + Steps(i, 2), Steps(i, 2));
  }

  lemma UndisturbedTick(s: State, i: int, live: Live)
    requires i in s.instances && s.instances[i] == Instance(Idle, Some(live)) && Aged(s, s.active) && LockFree(s)
    ensures Do(s, Steps(i, 3) + (Steps(i, 3) + Steps(i, 2) + Steps(i, 2))) == Rotated(s, i)
    ensures TimelyRun(s, Steps(i, 3) + (Steps(i, 3) + Steps(i, 2) + Steps(i, 2)))
  {
    hide Stored, Do, TimelyRun, Steps;
    BecomeDue(s, i, live);
    DueTick(Do(s, Steps(i, 3)), i, s.active, s.previous, s.steps, s.steps + 1, Some(live));
    Compose(s, Steps(i, 3), Steps(i, 3) + Steps(i, 2) + Steps(i, 2));
  }

  /** With a young key, or with the lock held elsewhere, the tick only reloads. */
  lemma ReloadingTick(s: State, i: int, live: Live)
    requires i in s.instances && s.instances[i] == Instance(Idle, Some(live))
    ensures var reloaded := Instance(Idle, Some(Live(s.active, s.previous, s.steps, s.steps + 1)));
            && (!Aged(s, s.active) ==> Do(s, Steps(i, 4)) == Put(s, 4, i, reloaded) && TimelyRun(s, Steps(i, 4)))
            && (Aged(s, s.active) && !LockFree(s) ==>
                Do(s, Steps(i, 5)) == Put(s, 5, i, reloaded) && TimelyRun(s, Steps(i, 5)))
  {
    hide Stored, Do, TimelyRun, Steps;
    var next := Live(s.active, s.previous, s.steps, s.steps + 1);
    var s1 := Put(s, 1, i, Instance(GotActive(s.active, s.steps), Some(live)));
    var s2 := Put(s, 2, i, Instance(Loaded(s.active, s.previous, s.steps, s.steps + 1), Some(live)));
    NoSteps(s, i);
    OneMore(s, i, 0, s, s1);
    OneMore(s, i, 1, s1, s2);
    if !Aged(s, s.active) {
      var s3 := Put(s, 3, i, Instance(Ready(next), Some(live)));
      OneMore(s, i, 2, s2, s3);
      OneMore(s, i, 3, s3, Put(s, 4, i, Instance(Idle, Some(next))));
    } else if !LockFree(s) {
      var s3 := Put(s, 3, i, Instance(Due(s.active, s.previous, s.steps, s.steps + 1), Some(live)));
      var s4 := Put(s, 4, i, Instance(Ready(next), Some(live)));
      OneMore(s, i, 2, s2, s3);
      OneMore(s, i, 3, s3, s4);
      OneMore(s, i, 4, s4, Put(s, 5, i, Instance(Idle, Some(next))));
    }
  }

  /** The steps of one undisturbed tick. */
  function TickSteps(s: State, i: int): seq<Act> {
    if !Aged(s, s.active) then Steps(i, 4)
    else if !LockFree(s) then Steps(i, 5)
    else Steps(i, 3) + (Steps(i, 3) + Steps(i, 2) + Steps(i, 2))
  }

  // ---------------------------------------------------------------- concrete runs

  const FIRST := Key(0, ES256, 0, 0)
  const ORIGIN := State(0, 0, FIRST, None, None, [FIRST], map[])
  const OLD_ENOUGH := MAX_AGE + SECOND

  function Startup(): seq<Act> {
    [Join(1)] + Steps(1, 4) + ([Join(2)] + Steps(2, 4)) + [Wait(OLD_ENOUGH)]
  }

  function LiveOf(from: nat): Option<Live> {
    Some(Live(FIRST, None, from, from + 1))
  }

  lemma OneInstance()
    ensures Start(ORIGIN)
    ensures TimelyRun(ORIGIN, [Join(1)] + Steps(1, 4))
    ensures Do(ORIGIN, [Join(1)] + Steps(1, 4)) ==
            State(5, 0, FIRST, None, None, [FIRST], map[1 := Instance(Idle, LiveOf(1))])
  {
    assert Stored(FIRST) == FIRST;
    hide Do, TimelyRun, Steps, Stored, At;
    Boot(ORIGIN, 1);
  }

  lemma SecondInstance(s: State)
    requires s == State(5, 0, FIRST, None, None, [FIRST], map[1 := Instance(Idle, LiveOf(1))])
    ensures TimelyRun(s, [Join(2)] + Steps(2, 4) + [Wait(OLD_ENOUGH)])
    ensures Do(s, [Join(2)] + Steps(2, 4) + [Wait(OLD_ENOUGH)]) ==
            State(11, OLD_ENOUGH, FIRST, None, None, [FIRST],
                  map[1 := Instance(Idle, LiveOf(1)), 2 := Instance(Idle, LiveOf(6))])
  {
    hide Do, TimelyRun, Steps, Stored, At;
    Boot(s, 2);
    var t := Do(s, [Join(2)] + Steps(2, 4));
    assert t.instances == map[1 := Instance(Idle, LiveOf(1)), 2 := Instance(Idle, LiveOf(6))];
    One(t, Wait(OLD_ENOUGH));
    Compose(s, [Join(2)] + Steps(2, 4), [Wait(OLD_ENOUGH)]);
  }

  /** Two instances hold the first key, which has aged. */
  lemma TwoInstances()
    ensures Start(ORIGIN)
    ensures TimelyRun(ORIGIN, Startup())
    ensures Do(ORIGIN, Startup()) ==
            State(11, OLD_ENOUGH, FIRST, None, None, [FIRST],
                  map[1 := Instance(Idle, LiveOf(1)), 2 := Instance(Idle, LiveOf(6))])
  {
    hide Do, TimelyRun, Steps, Stored, At;
    var a, b := [Join(1)] + Steps(1, 4), [Join(2)] + Steps(2, 4) + [Wait(OLD_ENOUGH)];
    OneInstance();
    SecondInstance(Do(ORIGIN, a));
    Compose(ORIGIN, a, b);
    assert Startup() == a + b;
  }

  /** The timing hypothesis is needed. Both instances find the key due; the first rotates and releases
      the lock; the second wins it and rotates again. The first key is gone at the very instant at
      which it was still active, while the second instance still signs with it. */
  lemma StaleTickLosesKey() returns (acts: seq<Act>, m: nat)
    ensures Start(ORIGIN) && m <= |acts|
    ensures forall k :: m <= k < |acts| ==> acts[k].Advance?
    ensures var before, end := At(ORIGIN, acts, m), At(ORIGIN, acts, |acts|);
            && before.active == FIRST && end.now == before.now && !InStore(end, FIRST)
            && 2 in end.instances && end.instances[2].live.Some? && end.instances[2].live.value.active == FIRST
    ensures !TimelyRun(ORIGIN, acts)
  {
    TwoInstances();
    hide Do, TimelyRun, Steps, Stored;
    var w := Do(ORIGIN, Startup());
    var rest := Steps(1, 3) + Steps(2, 3) + (Steps(1, 3) + Steps(1, 2) + Steps(1, 2)) + (Steps(2, 3) + Steps(2, 2));
    acts, m := Startup() + rest, |Startup()|;
    DoubleRotation(w);
    Compose(ORIGIN, Startup(), rest);
    Prefixes(ORIGIN, Startup(), rest);
    LostKeyNotTimely(acts, m);
    AllAdvances(rest);
    assert forall k :: m <= k < |acts| ==> acts[k] == rest[k - m];
  }

  lemma Prefixes(s: State, a: seq<Act>, b: seq<Act>)
    ensures At(s, a + b, |a|) == Do(s, a) && Do(s, a + b) == At(s, a + b, |a + b|)
  {
    Prefix(s, a, b, |a|);
  }

  lemma AllAdvances(rest: seq<Act>)
    requires rest == Steps(1, 3) + Steps(2, 3) + (Steps(1, 3) + Steps(1, 2) + Steps(1, 2)) + (Steps(2, 3) + Steps(2, 2))
    ensures forall k :: 0 <= k < |rest| ==> rest[k].Advance?
  {}

  lemma LostKeyNotTimely(acts: seq<Act>, m: nat)
    requires Start(ORIGIN) && m <= |acts|
    requires At(ORIGIN, acts, m).now == At(ORIGIN, acts, |acts|).now && At(ORIGIN, acts, m).active == FIRST
    requires !InStore(At(ORIGIN, acts, |acts|), FIRST)
    ensures !TimelyRun(ORIGIN, acts)
  {
    if TimelyRun(ORIGIN, acts) {
      StillStored(ORIGIN, acts, m, |acts|, |acts|);
      assert false;
    }
  }

  lemma DoubleRotation(w: State)
    requires w == State(11, OLD_ENOUGH, FIRST, None, None, [FIRST],
                        map[1 := Instance(Idle, LiveOf(1)), 2 := Instance(Idle, LiveOf(6))])
    ensures var end := Do(w,
                          Steps(1, 3) + Steps(2, 3) + (Steps(1, 3) + Steps(1, 2) + Steps(1, 2))
                            + (Steps(2, 3) + Steps(2, 2)));
            && end.now == w.now && !InStore(end, FIRST)
            && 2 in end.instances && end.instances[2].live == LiveOf(6)
  {
    hide Do, TimelyRun, Steps;
    BecomeDue(w, 1, LiveOf(1).value);
    var w1 := Do(w, Steps(1, 3));
    BecomeDue(w1, 2, LiveOf(6).value);
    var w2 := Do(w1, Steps(2, 3));
    Compose(w, Steps(1, 3), Steps(2, 3));
    var first := Steps(1, 3) + Steps(1, 2) + Steps(1, 2);
    DueTick(w2, 1, FIRST, None, 11, 12, LiveOf(1));
    var w3 := Do(w2, first);
    Compose(w, Steps(1, 3) + Steps(2, 3), first);
    Take(w3, 2, FIRST, None, 14, 15, LiveOf(6));
    var w4 := Do(w3, Steps(2, 3));
    SaveBoth(w4, 2, FIRST, w3.now + LOCK_TTL, w3.active, NextKey(w3, ES256), LiveOf(6));
    Compose(w3, Steps(2, 3), Steps(2, 2));
    Compose(w, Steps(1, 3) + Steps(2, 3) + first, Steps(2, 3) + Steps(2, 2));
  }

  /** A rotated key can reach a token before it reaches every verifier: in a timely run one instance has
      rotated and signs with the new key while the other, which reloads later, rejects the token. */
  lemma NewKeyRejectedBeforeReload(claims: Jwt.Claims, self: string, issuer: string) returns (acts: seq<Act>)
    ensures Start(ORIGIN) && TimelyRun(ORIGIN, acts)
    ensures var end := At(ORIGIN, acts, |acts|);
            && 1 in end.instances && end.instances[1].live.Some? && 2 in end.instances && end.instances[2].live.Some?
            && var signer, verifier := end.instances[1].live.value, end.instances[2].live.value;
               && end.active == Stored(signer.active)
               && !Jwt.Accepted(verifier.active, verifier.previous, self, issuer, end.now,
                                Jwt.Signed(signer.active, claims))
  {
    TwoInstances();
    hide Do, TimelyRun, Steps, Stored, At;
    var w := Do(ORIGIN, Startup());
    var tick := Steps(1, 3) + (Steps(1, 3) + Steps(1, 2) + Steps(1, 2));
    UndisturbedTick(w, 1, LiveOf(1).value);
    Compose(ORIGIN, Startup(), tick);
    Prefixes(ORIGIN, Startup(), tick);
    acts := Startup() + tick;
    var end := Do(w, tick);
    assert end.instances[2].live == LiveOf(6) && end.instances[1].live.value.active == Key(1, ES256, 1, OLD_ENOUGH);
    assert Jwt.Live(FIRST, None) == {FIRST};
  }

  /** MaxAge after the demotion is not guaranteed, even in a timely run: the successor counts its age
      from its creation, which may precede the demotion by up to the lock lifetime. Here the first key
      is still active at step m and gone less than MaxAge later. */
  lemma LeavesBeforeMaxAge() returns (acts: seq<Act>, m: nat)
    ensures Start(ORIGIN) && TimelyRun(ORIGIN, acts) && m <= |acts|
    ensures var before, end := At(ORIGIN, acts, m), At(ORIGIN, acts, |acts|);
            before.active == FIRST && !InStore(end, FIRST) && end.now - before.now < MAX_AGE
  {
    TwoInstances();
    hide Do, TimelyRun, Steps, Stored, At;
    var w := Do(ORIGIN, Startup());
    var generate := Steps(1, 3) + Steps(1, 3) + [Wait(OLD_ENOUGH + 59 * 60 * SECOND)];
    SlowRotation(w);
    var v := Do(w, generate);
    var rest := Steps(1, 2) + Steps(1, 2) + [Wait(OLD_ENOUGH + MAX_AGE + 1)]
        + (Steps(1, 3) + Steps(1, 3) + Steps(1, 2));
    SecondRotation(v);
    Compose(ORIGIN, Startup(), generate);
    Compose(ORIGIN, Startup() + generate, rest);
    acts, m := Startup() + generate + rest, |Startup() + generate|;
    Prefixes(ORIGIN, Startup() + generate, rest);
  }

  const SECOND_KEY := Key(1, ES256, 1, OLD_ENOUGH)

  lemma SlowRotation(w: State)
    requires w == State(11, OLD_ENOUGH, FIRST, None, None, [FIRST],
                        map[1 := Instance(Idle, LiveOf(1)), 2 := Instance(Idle, LiveOf(6))])
    ensures var acts := Steps(1, 3) + Steps(1, 3) + [Wait(OLD_ENOUGH + 59 * 60 * SECOND)];
            && TimelyRun(w, acts)
            && Do(w, acts) == State(18, OLD_ENOUGH + 59 * 60 * SECOND, FIRST, None,
                                    Some(Lock(OLD_ENOUGH + LOCK_TTL, 1)), [FIRST, SECOND_KEY],
                                    map[1 := Instance(Generated(FIRST, OLD_ENOUGH + LOCK_TTL, FIRST, SECOND_KEY),
                                                      LiveOf(1)),
                                        2 := Instance(Idle, LiveOf(6))])
  {
    hide Do, TimelyRun, Steps, Stored, At;
    GeneratedAlone(w);
    var w2 := Do(w, Steps(1, 3) + Steps(1, 3));
    One(w2, Wait(OLD_ENOUGH + 59 * 60 * SECOND));
    Compose(w, Steps(1, 3) + Steps(1, 3), [Wait(OLD_ENOUGH + 59 * 60 * SECOND)]);
  }

  lemma GeneratedAlone(w: State)
    requires w == State(11, OLD_ENOUGH, FIRST, None, None, [FIRST],
                        map[1 := Instance(Idle, LiveOf(1)), 2 := Instance(Idle, LiveOf(6))])
    ensures TimelyRun(w, Steps(1, 3) + Steps(1, 3))
    ensures Do(w, Steps(1, 3) + Steps(1, 3)) ==
            State(17, OLD_ENOUGH, FIRST, None, Some(Lock(OLD_ENOUGH + LOCK_TTL, 1)), [FIRST, SECOND_KEY],
                  map[1 := Instance(Generated(FIRST, OLD_ENOUGH + LOCK_TTL, FIRST, SECOND_KEY), LiveOf(1)),
                      2 := Instance(Idle, LiveOf(6))])
  {
    assert Stored(SECOND_KEY) == SECOND_KEY;
    hide Do, TimelyRun, Steps, Stored, At;
    BecomeDue(w, 1, LiveOf(1).value);
    var w1 := Do(w, Steps(1, 3));
    Take(w1, 1, FIRST, None, 11, 12, LiveOf(1));
    Compose(w, Steps(1, 3), Steps(1, 3));
    assert Do(w1, Steps(1, 3)).instances ==
           map[1 := Instance(Generated(FIRST, OLD_ENOUGH + LOCK_TTL, FIRST, SECOND_KEY), LiveOf(1)),
               2 := Instance(Idle, LiveOf(6))];
  }

  lemma SlowSave(v: State) returns (u: State)
    requires v.lock.Some? && v.lock.value.owner == 1
    requires v.now == OLD_ENOUGH + 59 * 60 * SECOND && |v.issued| == 2 && 1 in v.instances
    requires v.instances[1] == Instance(Generated(FIRST, OLD_ENOUGH + LOCK_TTL, FIRST, SECOND_KEY), LiveOf(1))
    ensures var acts := Steps(1, 2) + Steps(1, 2) + [Wait(OLD_ENOUGH + MAX_AGE + 1)];
            TimelyRun(v, acts) && Do(v, acts) == u
    ensures 1 in u.instances && u.instances[1].pc == Idle && u.instances[1].live.Some? && u.lock == None
    ensures u.now == OLD_ENOUGH + MAX_AGE + 1 && u.active == SECOND_KEY && |u.issued| == 2
  {
    assert Stored(SECOND_KEY) == SECOND_KEY;
    hide Do, TimelyRun, Steps, At, Stored;
    SaveBoth(v, 1, FIRST, OLD_ENOUGH + LOCK_TTL, FIRST, SECOND_KEY, LiveOf(1));
    var v1 := Do(v, Steps(1, 2));
    Finish(v1, 1, FIRST, OLD_ENOUGH + LOCK_TTL, SECOND_KEY, v.steps + 2, LiveOf(1));
    var v2 := Do(v1, Steps(1, 2));
    Compose(v, Steps(1, 2), Steps(1, 2));
    One(v2, Wait(OLD_ENOUGH + MAX_AGE + 1));
    u := Next(v2, Wait(OLD_ENOUGH + MAX_AGE + 1));
    Compose(v, Steps(1, 2) + Steps(1, 2), [Wait(OLD_ENOUGH + MAX_AGE + 1)]);
  }

  lemma SecondRotation(v: State)
    requires v.lock.Some? && v.lock.value.owner == 1
    requires v.now == OLD_ENOUGH + 59 * 60 * SECOND && |v.issued| == 2 && 1 in v.instances
    requires v.instances[1] == Instance(Generated(FIRST, OLD_ENOUGH + LOCK_TTL, FIRST, SECOND_KEY), LiveOf(1))
    ensures var acts := Steps(1, 2) + Steps(1, 2) + [Wait(OLD_ENOUGH + MAX_AGE + 1)]
            + (Steps(1, 3) + Steps(1, 3) + Steps(1, 2));
            TimelyRun(v, acts) && !InStore(Do(v, acts), FIRST) && Do(v, acts).now == OLD_ENOUGH + MAX_AGE + 1
  {
    hide Do, TimelyRun, Steps, At, InStore;
    var u := SlowSave(v);
    LaterRotation(u, u.instances[1].live.value);
    Compose(v, Steps(1, 2) + Steps(1, 2) + [Wait(OLD_ENOUGH + MAX_AGE + 1)], Steps(1, 3) + Steps(1, 3) + Steps(1, 2));
  }

  lemma LaterRotation(v: State, live: Live)
    requires 1 in v.instances && v.instances[1] == Instance(Idle, Some(live)) && LockFree(v)
    requires v.active == SECOND_KEY && Aged(v, SECOND_KEY) && |v.issued| == 2
    ensures var acts := Steps(1, 3) + Steps(1, 3) + Steps(1, 2);
            TimelyRun(v, acts) && !InStore(Do(v, acts), FIRST) && Do(v, acts).now == v.now
  {
    hide Do, TimelyRun, Steps, At;
    BecomeDue(v, 1, live);
    var v1 := Do(v, Steps(1, 3));
    Take(v1, 1, SECOND_KEY, v.previous, v.steps, v.steps + 1, Some(live));
    var v2 := Do(v1, Steps(1, 3));
    SaveBoth(v2, 1, SECOND_KEY, v.now + LOCK_TTL, SECOND_KEY, NextKey(v1, ES256), Some(live));
    Compose(v, Steps(1, 3), Steps(1, 3));
    Compose(v, Steps(1, 3) + Steps(1, 3), Steps(1, 2));
  }

  // ---------------------------------------------------------------- a release that comes too late

  const LATER := OLD_ENOUGH + OLD_ENOUGH
  const THIRD_KEY := Key(2, ES256, 2, LATER)

  /** Instance 1 has rotated and stalls before its release; instance 2 has just taken the expired lock. */
  function Overtaken(): State {
    State(26, LATER, SECOND_KEY, Some(FIRST), Some(Lock(LATER + LOCK_TTL, 2)), [FIRST, SECOND_KEY, THIRD_KEY],
          map[1 := Instance(ActiveSaved(FIRST, OLD_ENOUGH + LOCK_TTL, SECOND_KEY, 19), LiveOf(1)),
              2 := Instance(Generated(SECOND_KEY, LATER + LOCK_TTL, SECOND_KEY, THIRD_KEY), LiveOf(6))])
  }

  function ToOvertaken(): seq<Act> {
    Startup() + (Steps(1, 3) + Steps(1, 3) + Steps(1, 2) + [Wait(LATER)] + (Steps(2, 3) + Steps(2, 3)))
  }

  lemma Stalls(w: State)
    requires w == State(11, OLD_ENOUGH, FIRST, None, None, [FIRST],
                        map[1 := Instance(Idle, LiveOf(1)), 2 := Instance(Idle, LiveOf(6))])
    ensures var acts := Steps(1, 3) + Steps(1, 3) + Steps(1, 2) + [Wait(LATER)];
            && TimelyRun(w, acts)
            && Do(w, acts) == State(20, LATER, SECOND_KEY, Some(FIRST), Some(Lock(OLD_ENOUGH + LOCK_TTL, 1)),
                                    [FIRST, SECOND_KEY],
                                    map[1 := Instance(ActiveSaved(FIRST, OLD_ENOUGH + LOCK_TTL, SECOND_KEY, 19),
                                                      LiveOf(1)),
                                        2 := Instance(Idle, LiveOf(6))])
  {
    assert Stored(FIRST) == FIRST && Stored(SECOND_KEY) == SECOND_KEY;
    hide Do, TimelyRun, Steps, Stored, At;
    GeneratedAlone(w);
    var v := Do(w, Steps(1, 3) + Steps(1, 3));
    SaveBoth(v, 1, FIRST, OLD_ENOUGH + LOCK_TTL, FIRST, SECOND_KEY, LiveOf(1));
    Compose(w, Steps(1, 3) + Steps(1, 3), Steps(1, 2));
    var u := Do(v, Steps(1, 2));
    assert u.instances == map[1 := Instance(ActiveSaved(FIRST, OLD_ENOUGH + LOCK_TTL, SECOND_KEY, 19), LiveOf(1)),
                              2 := Instance(Idle, LiveOf(6))];
    One(u, Wait(LATER));
    Compose(w, Steps(1, 3) + Steps(1, 3) + Steps(1, 2), [Wait(LATER)]);
  }

  lemma Overtakes(v: State)
    requires v == State(20, LATER, SECOND_KEY, Some(FIRST), Some(Lock(OLD_ENOUGH + LOCK_TTL, 1)), [FIRST, SECOND_KEY],
                        map[1 := Instance(ActiveSaved(FIRST, OLD_ENOUGH + LOCK_TTL, SECOND_KEY, 19), LiveOf(1)),
                            2 := Instance(Idle, LiveOf(6))])
    ensures TimelyRun(v, Steps(2, 3) + Steps(2, 3)) && Do(v, Steps(2, 3) + Steps(2, 3)) == Overtaken()
  {
    assert Stored(THIRD_KEY) == THIRD_KEY;
    hide Do, TimelyRun, Steps, Stored, At;
    BecomeDue(v, 2, LiveOf(6).value);
    var v1 := Do(v, Steps(2, 3));
    Take(v1, 2, SECOND_KEY, Some(FIRST), 20, 21, LiveOf(6));
    Compose(v, Steps(2, 3), Steps(2, 3));
    assert Do(v1, Steps(2, 3)).instances == Overtaken().instances;
  }

  lemma OvertakenReached()
    ensures Start(ORIGIN) && TimelyRun(ORIGIN, ToOvertaken()) && Do(ORIGIN, ToOvertaken()) == Overtaken()
  {
    TwoInstances();
    hide Do, TimelyRun, Steps, Stored, At, Overtaken, Startup;
    var w := Do(ORIGIN, Startup());
    var stall := Steps(1, 3) + Steps(1, 3) + Steps(1, 2) + [Wait(LATER)];
    Stalls(w);
    Overtakes(Do(w, stall));
    Compose(w, stall, Steps(2, 3) + Steps(2, 3));
    Compose(ORIGIN, Startup(), stall + (Steps(2, 3) + Steps(2, 3)));
  }

  function Released(): State {
    Put(Overtaken().(lock := None), 1, 1, Instance(Ready(Live(SECOND_KEY, Some(FIRST), 19, 19)), LiveOf(1)))
  }

  /** After the late release instance 1 starts over while instance 2 is still rotating. */
  lemma BothRotate() returns (t: State)
    ensures var acts := Steps(1, 1) + Steps(1, 3) + Steps(1, 3);
            TimelyRun(Released(), acts) && Do(Released(), acts) == t
    ensures 1 in t.instances && 2 in t.instances && t.now == LATER && |t.issued| == 4
    ensures t.instances[1].pc == Generated(SECOND_KEY, LATER + LOCK_TTL, SECOND_KEY, Key(3, ES256, 3, LATER))
    ensures t.instances[2] == Overtaken().instances[2]
  {
    hide Do, TimelyRun, Steps, Stored, At;
    var s := Released();
    var live := Live(SECOND_KEY, Some(FIRST), 19, 19);
    var s1 := Put(s, 1, 1, Instance(Idle, Some(live)));
    NoSteps(s, 1);
    OneMore(s, 1, 0, s, s1);
    BecomeDue(s1, 1, live);
    var s2 := Do(s1, Steps(1, 3));
    Compose(s, Steps(1, 1), Steps(1, 3));
    Take(s2, 1, SECOND_KEY, Some(FIRST), s1.steps, s1.steps + 1, Some(live));
    Compose(s, Steps(1, 1) + Steps(1, 3), Steps(1, 3));
    t := Do(s2, Steps(1, 3));
  }

  lemma BothSave(t: State)
    requires 1 in t.instances && 2 in t.instances && t.now == LATER && t.instances[2] == Overtaken().instances[2]
    requires t.instances[1].pc == Generated(SECOND_KEY, LATER + LOCK_TTL, SECOND_KEY, Key(3, ES256, 3, LATER))
    ensures TimelyRun(t, Steps(2, 2)) && TimelyRun(Do(t, Steps(2, 2)), Steps(1, 2))
    ensures var u := Do(t, Steps(2, 2));
            && u.active == THIRD_KEY && !InStore(Do(u, Steps(1, 2)), THIRD_KEY) && Do(u, Steps(1, 2)).now == u.now
  {
    assert Stored(THIRD_KEY) == THIRD_KEY && Stored(SECOND_KEY) == SECOND_KEY;
    StoredKeepsKid(Key(3, ES256, 3, LATER));
    hide Do, TimelyRun, Steps, Stored, At;
    SaveBoth(t, 2, SECOND_KEY, LATER + LOCK_TTL, SECOND_KEY, THIRD_KEY, LiveOf(6));
    var u := Do(t, Steps(2, 2));
    SaveBoth(u, 1, SECOND_KEY, LATER + LOCK_TTL, SECOND_KEY, Key(3, ES256, 3, LATER), t.instances[1].live);
  }

  lemma LateRelease()
    ensures Next(Overtaken(), Advance(1)) == Released()
    ensures 1 in Overtaken().instances && Overtaken().instances[1].pc.ActiveSaved?
  {
    hide Stored;
    var s := Overtaken();
    assert s.instances[1] == Instance(ActiveSaved(FIRST, OLD_ENOUGH + LOCK_TTL, SECOND_KEY, 19), LiveOf(1));
    assert Next(s, Advance(1)).instances == Released().instances;
  }

  /** The clause about the release is needed. In this run every step but one release is timely. The release
      comes when the lock has expired and belongs to another instance, which loses it; a third rotation
      starts, and the key that was active at step m is gone at the same instant. */
  lemma LateReleaseLosesKey() returns (acts: seq<Act>, release: nat, m: nat)
    ensures Start(ORIGIN) && release < m <= |acts|
    ensures forall n :: 0 <= n < |acts| && n != release ==> Timely(At(ORIGIN, acts, n), acts[n])
    ensures var s := At(ORIGIN, acts, release);
            acts[release] == Advance(1) && 1 in s.instances && s.instances[1].pc.ActiveSaved?
    ensures var before, end := At(ORIGIN, acts, m), At(ORIGIN, acts, |acts|);
            before.active == THIRD_KEY && end.now == before.now && !InStore(end, THIRD_KEY)
  {
    OvertakenReached();
    LateRelease();
    hide Do, TimelyRun, Steps, Stored, At, Overtaken, Released, Next, Timely, ToOvertaken, InStore;
    var t := BothRotate();
    BothSave(t);
    var again := Steps(1, 1) + Steps(1, 3) + Steps(1, 3);
    Compose(Released(), again, Steps(2, 2));
    Compose(Released(), again + Steps(2, 2), Steps(1, 2));
    release, m := |ToOvertaken()|, |ToOvertaken()| + 1 + |again + Steps(2, 2)|;
    acts := ToOvertaken() + [Advance(1)] + (again + Steps(2, 2) + Steps(1, 2));
    AroundStep(ORIGIN, ToOvertaken(), Advance(1), again + Steps(2, 2), Steps(1, 2));
  }

  /** Timely pieces around one step. */
  lemma AroundStep(s: State, a: seq<Act>, act: Act, b: seq<Act>, c: seq<Act>)
    requires TimelyRun(s, a) && TimelyRun(Next(Do(s, a), act), b + c)
    ensures var acts, u := a + [act] + (b + c), Next(Do(s, a), act);
            && (forall n :: 0 <= n < |acts| && n != |a| ==> Timely(At(s, acts, n), acts[n]))
            && At(s, acts, |a|) == Do(s, a) && At(s, acts, |a| + 1 + |b|) == Do(u, b)
               && At(s, acts, |acts|) == Do(Do(u, b), c)
  {
    hide Do, Next, Timely, At;
    var acts, u := a + [act] + (b + c), Next(Do(s, a), act);
    Compose(s, a, [act]);
    One(Do(s, a), act);
    Prefixes(s, a, [act] + (b + c));
    assert acts == a + ([act] + (b + c));
    Split(s, a + [act], b + c, |b|);
    Prefixes(u, b, c);
    Compose(u, b, c);
    Split(s, a + [act], b + c, |b + c|);
    forall n | 0 <= n < |acts| && n != |a| ensures Timely(At(s, acts, n), acts[n]) {
      if n < |a| {
        Prefix(s, a, [act] + (b + c), n);
        assert Timely(At(s, a, n), a[n]);
      } else {
        Split(s, a + [act], b + c, n - |a| - 1);
        assert Timely(At(u, b + c, n - |a| - 1), (b + c)[n - |a| - 1]);
      }
    }
  }

  // ---------------------------------------------------------------- saves that come too late

  function GeneratedByOne(): State {
    State(17, OLD_ENOUGH, FIRST, None, Some(Lock(OLD_ENOUGH + LOCK_TTL, 1)), [FIRST, SECOND_KEY],
          map[1 := Instance(Generated(FIRST, OLD_ENOUGH + LOCK_TTL, FIRST, SECOND_KEY), LiveOf(1)),
              2 := Instance(Idle, LiveOf(6))])
  }

  lemma ReachesGenerated()
    ensures Start(ORIGIN)
    ensures TimelyRun(ORIGIN, Startup() + (Steps(1, 3) + Steps(1, 3)))
    ensures Do(ORIGIN, Startup() + (Steps(1, 3) + Steps(1, 3))) == GeneratedByOne()
  {
    TwoInstances();
    hide Do, TimelyRun, Steps, Stored, At, Startup;
    GeneratedAlone(Do(ORIGIN, Startup()));
    Compose(ORIGIN, Startup(), Steps(1, 3) + Steps(1, 3));
  }

  function DueTickSteps(i: int): seq<Act> {
    Steps(i, 3) + (Steps(i, 3) + Steps(i, 2) + Steps(i, 2))
  }

  /** Time passes, then an idle instance rotates while instance 1 stands still. */
  lemma PassedOver(s: State, until: int, live: Live) returns (t: State)
    requires 1 in s.instances && 2 in s.instances && s.instances[2] == Instance(Idle, Some(live))
    requires s.now <= until && until > s.active.createdAt + MAX_AGE
    requires s.lock.Some? ==> s.lock.value.expires <= until
    ensures TimelyRun(s, [Wait(until)] + DueTickSteps(2)) && Do(s, [Wait(until)] + DueTickSteps(2)) == t
    ensures 1 in t.instances && t.instances[1] == s.instances[1]
    ensures 2 in t.instances && t.instances[2].pc == Idle && t.instances[2].live.Some?
    ensures t.now == until && t.lock == None && t.previous == Some(Stored(s.active)) && |t.issued| == |s.issued| + 1
    ensures var next := Key(|s.issued|, s.active.alg, |s.issued|, until); t.active == Stored(next)
  {
    hide Do, TimelyRun, Steps, Stored, At;
    One(s, Wait(until));
    var waited := Next(s, Wait(until));
    UndisturbedTick(waited, 2, live);
    Compose(s, [Wait(until)], DueTickSteps(2));
    t := Rotated(waited, 2);
  }

  function DemotedByOne(): State {
    Put(GeneratedByOne().(previous := Some(FIRST)), 1, 1,
        Instance(PreviousSaved(FIRST, OLD_ENOUGH + LOCK_TTL, FIRST, SECOND_KEY), LiveOf(1)))
  }

  lemma DemotesInTime()
    ensures TimelyRun(GeneratedByOne(), Steps(1, 1)) && Do(GeneratedByOne(), Steps(1, 1)) == DemotedByOne()
  {
    assert Stored(FIRST) == FIRST;
    hide Do, TimelyRun, Steps, Stored;
    NoSteps(GeneratedByOne(), 1);
    OneMore(GeneratedByOne(), 1, 0, GeneratedByOne(), DemotedByOne());
  }

  lemma SavesOver(t: State, d: int)
    requires 1 in t.instances && t.instances[1].pc == PreviousSaved(FIRST, d, FIRST, SECOND_KEY)
    requires t.active.kid == 2 && t.previous == Some(Stored(FIRST))
    ensures var end := Next(t, Advance(1)); end.now == t.now && !InStore(end, t.active)
  {
    CreatedAtMost(FIRST);
    CreatedAtMost(SECOND_KEY);
    hide Stored;
  }

  /** Saving the active key in time is needed. In this run every step is timely but instance 1's save of its
      new key, which comes when instance 2 has rotated meanwhile: instance 2's key, active at that instant, is
      gone. */
  lemma LateSaveLosesKey() returns (acts: seq<Act>, late: nat)
    ensures Start(ORIGIN) && |acts| == late + 1
    ensures forall n :: 0 <= n < |acts| && n != late ==> Timely(At(ORIGIN, acts, n), acts[n])
    ensures var before, end := At(ORIGIN, acts, late), At(ORIGIN, acts, late + 1);
            && acts[late] == Advance(1) && 1 in before.instances && before.instances[1].pc.PreviousSaved?
            && end.now == before.now && !InStore(end, before.active)
  {
    ReachesGenerated();
    DemotesInTime();
    hide Do, TimelyRun, Steps, At, Timely, Startup, Stored, Next;
    var until := OLD_ENOUGH + LOCK_TTL;
    var t := PassedOver(DemotedByOne(), until, LiveOf(6).value);
    CreatedAtMost(Key(2, ES256, 2, until));
    SavesOver(t, until);
    var generate := Startup() + (Steps(1, 3) + Steps(1, 3));
    var pass := [Wait(until)] + DueTickSteps(2);
    hide DueTickSteps, GeneratedByOne, DemotedByOne, InStore;
    Compose(ORIGIN, generate, Steps(1, 1));
    Compose(ORIGIN, generate + Steps(1, 1), pass);
    var a := generate + Steps(1, 1) + pass;
    LateStep(a, t);
    acts, late := a + [Advance(1)], |a|;
  }

  /** A timely run, one step after it. */
  lemma LateStep(a: seq<Act>, t: State)
    requires TimelyRun(ORIGIN, a) && Do(ORIGIN, a) == t
    ensures var acts := a + [Advance(1)];
            && |acts| == |a| + 1 && acts[|a|] == Advance(1)
            && (forall n :: 0 <= n < |acts| && n != |a| ==> Timely(At(ORIGIN, acts, n), acts[n]))
            && At(ORIGIN, acts, |a|) == t && At(ORIGIN, acts, |a| + 1) == Next(t, Advance(1))
  {
    hide Next, Timely, Do, TimelyRun, At;
    NothingDone(Next(t, Advance(1)));
    var none: seq<Act> := [];
    assert none + none == none && a + [Advance(1)] + none == a + [Advance(1)];
    AroundStep(ORIGIN, a, Advance(1), none, none);
  }

  lemma NothingDone(s: State)
    ensures Do(s, []) == s && TimelyRun(s, [])
  {}

  /** Saving the previous key in time is needed as well: when it comes after two other rotations, the key that
      the second of them demoted is gone at the instant it was still active, at step m. */
  lemma LateDemotionLosesKey() returns (acts: seq<Act>, late: nat, m: nat)
    ensures Start(ORIGIN) && m <= late && |acts| == late + 1
    ensures forall n :: 0 <= n < |acts| && n != late ==> Timely(At(ORIGIN, acts, n), acts[n])
    ensures var s := At(ORIGIN, acts, late);
            acts[late] == Advance(1) && 1 in s.instances && s.instances[1].pc.Generated?
    ensures var before, end := At(ORIGIN, acts, m), At(ORIGIN, acts, late + 1);
            end.now == before.now && !InStore(end, before.active)
  {
    ReachesGenerated();
    hide Do, TimelyRun, Steps, At, Timely, Startup, Stored, Next;
    var until, later := OLD_ENOUGH + LOCK_TTL, OLD_ENOUGH + LOCK_TTL + OLD_ENOUGH;
    var t := PassedOver(GeneratedByOne(), until, LiveOf(6).value);
    CreatedAtMost(Key(2, ES256, 2, until));
    var u := PassedOver(t, later, t.instances[2].live.value);
    CreatedAtMost(Key(3, ES256, 3, later));
    DemotesOver(u, until);
    WaitKeeps(t, later);
    var generate := Startup() + (Steps(1, 3) + Steps(1, 3));
    var first, second := [Wait(until)] + DueTickSteps(2), [Wait(later)] + DueTickSteps(2);
    assert second[0] == Wait(later);
    hide DueTickSteps, GeneratedByOne, InStore;
    Compose(ORIGIN, generate, first);
    Compose(ORIGIN, generate + first, second);
    LateStep(generate + first + second, u);
    AfterOne(generate + first, second, [Advance(1)], t);
    acts := generate + first + second + [Advance(1)];
    late, m := |generate + first + second|, |generate + first| + 1;
  }

  lemma WaitKeeps(t: State, until: int)
    requires t.now <= until
    ensures Next(t, Wait(until)).now == until && Next(t, Wait(until)).active == t.active
  {}

  lemma DemotesOver(u: State, d: int)
    requires 1 in u.instances && u.instances[1].pc == Generated(FIRST, d, FIRST, SECOND_KEY) && u.active.kid == 3
    ensures var end := Next(u, Advance(1)); end.now == u.now && forall k: Key :: k.kid == 2 ==> !InStore(end, k)
  {
    CreatedAtMost(FIRST);
    hide Stored;
  }

  lemma CreatedAtMost(k: Key)
    ensures SameKey(Stored(k), k) && Stored(k).createdAt <= k.createdAt
  {
    StoredKeepsKid(k);
  }

  lemma AfterOne(a: seq<Act>, b: seq<Act>, c: seq<Act>, t: State)
    requires Do(ORIGIN, a) == t && |b| > 0
    ensures At(ORIGIN, a + b + c, |a| + 1) == Next(t, b[0])
  {
    Prefix(ORIGIN, a + b, c, |a| + 1);
    Split(ORIGIN, a, b, 1);
  }

  // ---------------------------------------------------------------- when a key is kept the full age

  /** A lock never lasts longer than its lifetime from now. */
  ghost predicate LockBounded(s: State) {
    s.lock.Some? ==> s.lock.value.expires <= s.now + LOCK_TTL
  }

  lemma {:induction false} LocksAreBounded(s: State, acts: seq<Act>, n: nat)
    requires Start(s) && n <= |acts|
    ensures LockBounded(At(s, acts, n))
  {
    if n > 0 {
      LocksAreBounded(s, acts, n - 1);
      LockStep(At(s, acts, n - 1), acts[n - 1]);
    }
  }

  lemma LockStep(s: State, act: Act)
    requires LockBounded(s)
    ensures LockBounded(Next(s, act))
  {
    hide Stored;
  }

  /** However the timely run goes on, when k has left the store more than MaxAge has passed. */
  ghost predicate KeptFullAge(s: State, acts: seq<Act>, k: Key) {
    forall more :: LeavesAfter(s, acts, more, k)
  }

  ghost predicate LeavesAfter(s: State, acts: seq<Act>, more: seq<Act>, k: Key) {
    TimelyRun(s, acts + more) && !InStore(Do(s, acts + more), k) ==> Do(s, acts + more).now - Do(s, acts).now > MAX_AGE
  }

  /** The last step of the run has replaced k as the active key. */
  ghost predicate JustDemoted(s: State, acts: seq<Act>, k: Key) {
    |acts| > 0 && DemotedAt(s, acts, k, |acts| - 1)
  }

  /** An instance name above every name in use. */
  lemma {:induction false} NameAbove(names: set<int>) returns (n: int)
    ensures forall i :: i in names ==> i < n
    decreases |names|
  {
    n := 0;
    if i :| i in names {
      n := NameAbove(names - {i});
      n := if n <= i then i + 1 else n;
      assert names == names - {i} + {i};
    }
  }

  /** A new instance that starts, waits until the active key is due, and saves the previous key. */
  function EarlyActs(s: State, i: int): seq<Act> {
    [Join(i)] + Steps(i, 4) + [Wait(s.active.createdAt + MAX_AGE + 1)] + Steps(i, 3) + Steps(i, 3) + Steps(i, 1)
  }

  lemma SavePrevious(s: State, i: int, loaded: Key, d: int, demoted: Key, next: Key, live: Option<Live>)
    requires i in s.instances && s.instances[i] == Instance(Generated(loaded, d, demoted, next), live) && s.now < d
    ensures Do(s, Steps(i, 1)).previous == Some(Stored(demoted)) && Do(s, Steps(i, 1)).active == s.active
    ensures Do(s, Steps(i, 1)).now == s.now
    ensures TimelyRun(s, Steps(i, 1))
  {
    hide Stored, Do, TimelyRun, Steps;
    NoSteps(s, i);
    OneMore(s, i, 0, s, Put(s.(previous := Some(Stored(demoted))), 1, i,
                            Instance(PreviousSaved(loaded, d, demoted, next), live)));
  }

  /** From any state whose lock is bounded and whose active key may still age, that key's predecessor can
      be gone one instant after the active key is due. */
  lemma EarlyDeparture(s: State, i: int)
    requires i !in s.instances && LockBounded(s) && s.now <= s.active.createdAt + MAX_AGE + 1
    requires s.now + LOCK_TTL <= s.active.createdAt + MAX_AGE + 1
    requires Stored(s.active) == s.active
    ensures TimelyRun(s, EarlyActs(s, i))
    ensures var end := Do(s, EarlyActs(s, i));
            end.now == s.active.createdAt + MAX_AGE + 1 && end.active == s.active && end.previous == Some(s.active)
  {
    hide Do, TimelyRun, Steps, Stored, At;
    var boot, wait := [Join(i)] + Steps(i, 4), [Wait(s.active.createdAt + MAX_AGE + 1)];
    Boot(s, i);
    var s1 := Do(s, boot);
    One(s1, wait[0]);
    var s2 := Next(s1, wait[0]);
    Compose(s, boot, wait);
    BecomeDue(s2, i, s1.instances[i].live.value);
    var s3 := Do(s2, Steps(i, 3));
    Compose(s, boot + wait, Steps(i, 3));
    Take(s3, i, s.active, s.previous, s2.steps, s2.steps + 1, s1.instances[i].live);
    var s4 := Do(s3, Steps(i, 3));
    Compose(s, boot + wait + Steps(i, 3), Steps(i, 3));
    SavePrevious(s4, i, s.active, s3.now + LOCK_TTL, s.active, NextKey(s3, s.active.alg), s1.instances[i].live);
    Compose(s, boot + wait + Steps(i, 3) + Steps(i, 3), Steps(i, 1));
  }

  /** The exact condition for the full age. After a demotion, every timely continuation keeps the demoted
      key for more than MaxAge exactly when its successor, as stored, was created at the very instant of
      the demotion. */
  lemma KeptFullAgeIff(s: State, acts: seq<Act>, k: Key)
    requires Start(s) && TimelyRun(s, acts) && JustDemoted(s, acts, k)
    ensures KeptFullAge(s, acts, k) <==> Do(s, acts).active.createdAt == Do(s, acts).now
  {
    hide Do, TimelyRun, At, Start, InStore, TimelyInv, Timely, LeavesAfter;
    CreatedBefore(s, acts, k);
    if Do(s, acts).active.createdAt == Do(s, acts).now {
      forall more ensures LeavesAfter(s, acts, more, k) {
        LeavesLate(s, acts, more, k);
      }
    } else {
      var i := NameAbove(Do(s, acts).instances.Keys);
      LeavesEarly(s, acts, k, i);
      assert !LeavesAfter(s, acts, EarlyActs(Do(s, acts), i), k);
    }
  }

  lemma CreatedBefore(s: State, acts: seq<Act>, k: Key)
    requires Start(s) && TimelyRun(s, acts) && JustDemoted(s, acts, k)
    ensures var t := Do(s, acts);
            t.now - LOCK_TTL - SECOND < t.active.createdAt <= t.now && t.active != k && Stored(t.active) == t.active
  {
    var d := |acts| - 1;
    TimelyRunKeeps(s, acts, d);
    TimelyAt(s, acts, d);
    AtNext(s, acts, d);
    StoreStep(At(s, acts, d), acts[d]);
    RunKeeps(s, acts, |acts|);
    InStored(Do(s, acts));
    hide TimelyInv, Timely, Next, Stored, Inv;
  }

  lemma InStored(s: State)
    requires Inv(s)
    ensures Stored(s.active) == s.active
  {}

  lemma LeavesLate(s: State, acts: seq<Act>, more: seq<Act>, k: Key)
    requires Start(s) && TimelyRun(s, acts) && JustDemoted(s, acts, k)
    requires Do(s, acts).active.createdAt == Do(s, acts).now
    ensures LeavesAfter(s, acts, more, k)
  {
    hide Stored, Timely, Next, TimelyRun, Start;
    if TimelyRun(s, acts + more) && !InStore(Do(s, acts + more), k) {
      var m := |acts| - 1;
      Prefix(s, acts, more, m);
      Prefix(s, acts, more, m + 1);
      hide At;
      var d := Retention(s, acts + more, m, |acts + more|);
      OneDemotion(s, acts + more, k, m, d);
    }
  }

  /** A key is demoted once. */
  lemma OneDemotion(s: State, acts: seq<Act>, k: Key, a: nat, b: nat)
    requires Start(s) && DemotedAt(s, acts, k, a) && DemotedAt(s, acts, k, b) && a <= b
    ensures a == b
  {
    if a < b {
      ActiveOnce(s, acts, a, a + 1, b);
      assert false;
    }
  }

  lemma LeavesEarly(s: State, acts: seq<Act>, k: Key, i: int)
    requires i !in Do(s, acts).instances && Start(s) && TimelyRun(s, acts) && JustDemoted(s, acts, k)
    requires Do(s, acts).active.createdAt != Do(s, acts).now
    ensures !LeavesAfter(s, acts, EarlyActs(Do(s, acts), i), k)
  {
    CreatedBefore(s, acts, k);
    LocksAreBounded(s, acts, |acts|);
    hide TimelyRun, At, Start, Stored, LockBounded;
    var t := Do(s, acts);
    assert LockBounded(t);
    hide Do;
    EarlyDeparture(t, i);
    Compose(s, acts, EarlyActs(t, i));
    hide EarlyActs;
  }
}
