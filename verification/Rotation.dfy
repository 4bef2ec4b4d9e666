/**
 * Key rotation across a fleet. Instances come and go, reload the two stored keys with two separate
 * reads, and rotate them under a lock with two separate writes, previous key first. Every read, write,
 * clock reading and lock call is one step; between two steps of an instance anything else may happen.
 */
module Rotation {
  import opened Wrappers
  import opened Keys

  const MAX_AGE := 90 * 24 * 3600 * SECOND
  const LOCK_TTL := 3600 * SECOND

  /** owner is recorded for the proofs; the code stores a constant and anyone may delete it. */
  datatype Lock = Lock(expires: int, owner: int)

  /** An instance's live key set, and the steps at which the loaded keys were read. */
  datatype Live = Live(active: Key, previous: Option<Key>, from: nat, till: nat)

  /** Where an instance stands in its tick. loaded is the active key the tick loaded. */
  datatype Pc =
    | Idle
    | GotActive(loaded: Key, from: nat)
    | Loaded(loaded: Key, previous: Option<Key>, from: nat, till: nat)
    | Due(loaded: Key, previous: Option<Key>, from: nat, till: nat)
    | Locked(loaded: Key, deadline: int)
    | Stamped(loaded: Key, deadline: int, created: int)
    | Generated(loaded: Key, deadline: int, demoted: Key, next: Key)
    | PreviousSaved(loaded: Key, deadline: int, demoted: Key, next: Key)
    | ActiveSaved(loaded: Key, deadline: int, next: Key, at: nat)
    | Ready(live: Live)

  datatype Instance = Instance(pc: Pc, live: Option<Live>)

  /** issued lists every key ever generated, by key id, in stored form. */
  datatype State = State(
    steps: nat,
    now: int,
    active: Key,
    previous: Option<Key>,
    lock: Option<Lock>,
    issued: seq<Key>,
    instances: map<int, Instance>)

  datatype Act = Wait(until: int) | Join(i: int) | Crash(i: int) | Advance(i: int) | Fail(i: int)

  predicate LockFree(s: State) {
    s.lock.None? || s.lock.value.expires <= s.now
  }

  function With(s: State, i: int, pc: Pc): State
    requires i in s.instances
  {
    s.(instances := s.instances[i := s.instances[i].(pc := pc)])
  }

  /** The next step of an instance's tick. An instance that has no keys yet is starting up: it loads
      without rotating. */
  function Proceed(s: State, i: int): State
    requires i in s.instances
  {
    match s.instances[i].pc
    case Idle => With(s, i, GotActive(s.active, s.steps))
    case GotActive(loaded, q) => With(s, i, Loaded(loaded, s.previous, q, s.steps))
    case Loaded(loaded, p, q, r) =>
      With(s, i, if s.instances[i].live.Some?
           && s.now - loaded.createdAt > MAX_AGE then Due(loaded, p, q, r) else Ready(Live(loaded, p, q, r)))
    case Due(loaded, p, q, r) =>
      if LockFree(s) then With(s.(lock := Some(Lock(s.now + LOCK_TTL, i))), i, Locked(loaded, s.now + LOCK_TTL))
      else With(s, i, Ready(Live(loaded, p, q, r)))
    case Locked(loaded, d) => With(s, i, Stamped(loaded, d, s.now))
    case Stamped(loaded, d, created) =>
      var next := Key(|s.issued|, loaded.alg, |s.issued|, created);
      With(s.(issued := s.issued + [Stored(next)]), i, Generated(loaded, d, s.active, next))
    case Generated(loaded, d, demoted, next) =>
      With(s.(previous := Some(Stored(demoted))), i, PreviousSaved(loaded, d, demoted, next))
    case PreviousSaved(loaded, d, demoted, next) =>
      With(s.(active := Stored(next)), i, ActiveSaved(loaded, d, next, s.steps + 1))
    case ActiveSaved(loaded, d, next, q) => With(s.(lock := None), i, Ready(Live(next, Some(loaded), q, q)))
    case Ready(live) => s.(instances := s.instances[i := Instance(Idle, Some(live))])
  }

  /** A failed lock attempt or release is only logged; any other failure ends the tick with the live
      keys unchanged. */
  function Failed(s: State, i: int): State
    requires i in s.instances
  {
    match s.instances[i].pc
    case Due(loaded, p, q, r) => With(s, i, Ready(Live(loaded, p, q, r)))
    case ActiveSaved(loaded, d, next, q) => With(s, i, Ready(Live(next, Some(loaded), q, q)))
    case Ready(_) => s
    case _ => With(s, i, Idle)
  }

  /** A failure touches neither the store nor the lock nor anybody's live keys. After a failed lock attempt the tick
      goes live with what it loaded; after a failed release, with the key it just stored and the one it demoted;
      after any other it ends. */
  lemma FailureIsHarmless(s: State, i: int)
    requires i in s.instances
    ensures var t, before, after := Failed(s, i), s.instances[i], Failed(s, i).instances[i];
            && t == s.(instances := s.instances[i := after]) && after.live == before.live
            && (before.pc.Due? ==> after.pc.Ready? && after.pc.live.active == before.pc.loaded
                                   && after.pc.live.previous == before.pc.previous)
            && (before.pc.ActiveSaved? ==> after.pc.Ready? && after.pc.live.active == before.pc.next
                                           && after.pc.live.previous == Some(before.pc.loaded))
            && (before.pc.Ready? ==> after.pc == before.pc)
            && (!before.pc.Due? && !before.pc.ActiveSaved? && !before.pc.Ready? ==> after.pc.Idle?)
  {
    assert s.instances[i := s.instances[i]] == s.instances;
  }

  function Effect(s: State, act: Act): State {
    match act
    case Wait(t) => if s.now <= t then s.(now := t) else s
    case Join(i) => if i in s.instances then s else s.(instances := s.instances[i := Instance(Idle, None)])
    case Crash(i) => s.(instances := s.instances - {i})
    case Advance(i) => if i in s.instances then Proceed(s, i) else s
    case Fail(i) => if i in s.instances then Failed(s, i) else s
  }

  function Next(s: State, act: Act): (t: State)
    ensures t.steps == s.steps + 1
  {
    Effect(s, act).(steps := s.steps + 1)
  }

  /** The state after the first n steps of a run. */
  function At(s: State, acts: seq<Act>, n: nat): State
    requires n <= |acts|
  {
    if n == 0 then s else Next(At(s, acts, n - 1), acts[n - 1])
  }

  /** The timing hypothesis. A tick that wins the lock still finds the key it loaded stored as active,
      it saves before its lock expires, and its release takes nobody else's unexpired lock away. */
  predicate Timely(s: State, act: Act) {
    act.Advance? && act.i in s.instances ==>
      match s.instances[act.i].pc
      case Due(loaded, _, _, _) => LockFree(s) ==> s.active == loaded
      case Generated(_, d, _, _) => s.now < d
      case PreviousSaved(_, d, _, _) => s.now < d
      case ActiveSaved(_, _, _, _) => s.lock.Some? && s.lock.value.owner != act.i ==> s.lock.value.expires <= s.now
      case _ => true
  }

  ghost predicate TimelyRun(s: State, acts: seq<Act>) {
    forall n :: 0 <= n < |acts| ==> Timely(At(s, acts, n), acts[n])
  }

  predicate Issued(s: State, k: Key) {
    k.kid < |s.issued| && s.issued[k.kid] == k
  }

  predicate InStore(s: State, k: Key) {
    s.active == k || s.previous == Some(k)
  }

  ghost predicate Start(s: State) {
    && s.steps == 0 && s.instances == map[] && s.lock == None
    && Issued(s, s.active) && (s.previous.Some? ==> Issued(s, s.previous.value))
    && (forall k :: 0 <= k < |s.issued| ==> s.issued[k].kid == k && Stored(s.issued[k]) == s.issued[k])
  }

  // ---------------------------------------------------------------- invariants of every run

  predicate NextKeyOk(s: State, next: Key) {
    Issued(s, Stored(next)) && next.kid != s.active.kid
  }

  predicate KeysOk(s: State, pc: Pc) {
    match pc
    case GotActive(loaded, _) => Issued(s, loaded)
    case Loaded(loaded, p, _, _) => Issued(s, loaded) && (p.Some? ==> Issued(s, p.value))
    case Due(loaded, p, _, _) => Issued(s, loaded) && (p.Some? ==> Issued(s, p.value))
    case Locked(loaded, _) => Issued(s, loaded)
    case Stamped(loaded, _, _) => Issued(s, loaded)
    case Generated(loaded, _, demoted, next) => Issued(s, loaded) && Issued(s, demoted) && NextKeyOk(s, next)
    case PreviousSaved(loaded, _, demoted, next) => Issued(s, loaded) && Issued(s, demoted) && NextKeyOk(s, next)
    case ActiveSaved(loaded, _, next, _) => Issued(s, loaded) && Issued(s, Stored(next))
    case _ => true
  }

  predicate Pending(pc: Pc, kid: nat) {
    (pc.Generated? || pc.PreviousSaved?) && pc.next.kid == kid
  }

  ghost predicate IssuedOk(s: State) {
    forall k :: 0 <= k < |s.issued| ==> s.issued[k].kid == k && Stored(s.issued[k]) == s.issued[k]
  }

  ghost predicate OneWriterPerKey(s: State) {
    forall i, j, kid: nat :: i in s.instances && j in s.instances && i != j && Pending(s.instances[i].pc, kid) ==>
      !Pending(s.instances[j].pc, kid)
  }

  ghost predicate Inv(s: State) {
    && Issued(s, s.active) && (s.previous.Some? ==> Issued(s, s.previous.value))
    && IssuedOk(s)
    && (forall i :: i in s.instances ==> KeysOk(s, s.instances[i].pc))
    && OneWriterPerKey(s)
  }

  lemma StartKeeps(s: State)
    requires Start(s)
    ensures Inv(s)
  {}

  lemma KeysOkSurvives(s: State, act: Act, j: int)
    requires Inv(s) && j in s.instances && j in Next(s, act).instances && (act.Advance? || act.Fail?) && act.i != j
    ensures KeysOk(Next(s, act), s.instances[j].pc)
  {
    hide Stored;
    if act.Advance? && act.i in s.instances && s.instances[act.i].pc.PreviousSaved? {
      var next := s.instances[act.i].pc.next;
      assert Pending(s.instances[act.i].pc, next.kid) && !Pending(s.instances[j].pc, next.kid);
      StoredKeepsKid(next);
    }
  }

  lemma StoredKeepsKid(k: Key)
    ensures SameKey(Stored(k), k) && Stored(Stored(k)) == Stored(k)
  {
    WireRoundTrip(k);
  }

  lemma ActorKeys(s: State, i: int)
    requires Inv(s) && i in s.instances
    ensures KeysOk(Next(s, Advance(i)), Proceed(s, i).instances[i].pc)
    ensures var t := Next(s, Advance(i));
            Issued(t, t.active) && (t.previous.Some? ==> Issued(t, t.previous.value)) && IssuedOk(t)
  {
    hide Stored;
    var x := s.instances[i];
    assert KeysOk(s, x.pc);
    match x.pc
    case Stamped(loaded, d, created) => StoredKeepsKid(Key(|s.issued|, loaded.alg, |s.issued|, created));
    case Generated(_, _, demoted, next) =>
      assert Stored(demoted) == demoted;
    case PreviousSaved(_, _, _, next) => StoredKeepsKid(next);
    case _ =>
  }

  lemma FailedKeys(s: State, i: int)
    requires Inv(s) && i in s.instances
    ensures KeysOk(Next(s, Fail(i)), Failed(s, i).instances[i].pc)
  {
    hide Stored;
    assert KeysOk(s, s.instances[i].pc);
  }

  lemma OthersUntouched(s: State, act: Act, j: int)
    requires j in Next(s, act).instances && act != Join(j)
    requires (act.Advance? || act.Fail?) ==> act.i != j
    ensures j in s.instances && Next(s, act).instances[j] == s.instances[j]
  {
    hide Stored;
  }

  lemma OtherActs(s: State, act: Act)
    requires Inv(s) && !((act.Advance? || act.Fail?) && act.i in s.instances)
    ensures Inv(Next(s, act))
  {
    hide Stored;
    OneWriterStays(s, act);
    hide Pending, OneWriterPerKey;
    var t := Next(s, act);
    assert t.active == s.active && t.previous == s.previous && t.issued == s.issued;
    forall j | j in t.instances ensures KeysOk(t, t.instances[j].pc) {
      if j in s.instances {
        assert KeysOk(s, s.instances[j].pc);
      }
    }
  }

  lemma StepKeeps(s: State, act: Act)
    requires Inv(s)
    ensures Inv(Next(s, act))
  {
    hide Stored;
    if (act.Advance? || act.Fail?) && act.i in s.instances {
      var t := Next(s, act);
      OneWriterStays(s, act);
      if act.Advance? {
        ActorKeys(s, act.i);
      } else {
        FailedKeys(s, act.i);
      }
      forall j | j in t.instances ensures KeysOk(t, t.instances[j].pc) {
        hide KeysOk, Proceed, Failed, OneWriterPerKey;
        if j != act.i {
          OthersUntouched(s, act, j);
          KeysOkSurvives(s, act, j);
        }
      }
      hide KeysOk, Proceed, OneWriterPerKey;
    } else {
      OtherActs(s, act);
    }
  }

  lemma OneWriterStays(s: State, act: Act)
    requires Inv(s)
    ensures OneWriterPerKey(Next(s, act))
  {
    hide Stored;
    var t := Next(s, act);
    forall i, j, kid: nat | i in t.instances && j in t.instances && i != j && Pending(t.instances[i].pc, kid)
      ensures !Pending(t.instances[j].pc, kid)
    {
      PendingStep(s, act, i, kid);
      if Pending(t.instances[j].pc, kid) {
        PendingStep(s, act, j, kid);
        assert false;
      }
    }
  }

  /** A key becomes pending only when it is generated. */
  lemma PendingStep(s: State, act: Act, i: int, kid: nat)
    requires Inv(s) && i in Next(s, act).instances && Pending(Next(s, act).instances[i].pc, kid)
    ensures || (i in s.instances && Pending(s.instances[i].pc, kid) && kid < |s.issued|)
            || (act == Advance(i) && kid == |s.issued|)
  {
    hide Stored;
    if i in s.instances && Pending(s.instances[i].pc, kid) {
      InvHas(s, i);
      StoredKeepsKid(s.instances[i].pc.next);
    }
    hide Inv, IssuedOk, Issued;
  }

  lemma {:induction false} RunKeeps(s: State, acts: seq<Act>, n: nat)
    requires Start(s) && n <= |acts|
    ensures Inv(At(s, acts, n)) && At(s, acts, n).steps == n
  {
    if n > 0 {
      RunKeeps(s, acts, n - 1);
      StepKeeps(At(s, acts, n - 1), acts[n - 1]);
    } else {
      StartKeeps(s);
    }
  }

  // ---------------------------------------------------------------- a demoted key never returns

  /** k was generated, is not active and nobody is about to write it as active. */
  ghost predicate Gone(s: State, k: Key) {
    Issued(s, k) && s.active != k && forall i :: i in s.instances ==> !Pending(s.instances[i].pc, k.kid)
  }

  lemma GoneStays(s: State, act: Act, k: Key)
    requires Inv(s) && Gone(s, k)
    ensures Gone(Next(s, act), k)
  {
    hide Stored;
    var t := Next(s, act);
    forall i | i in t.instances ensures !Pending(t.instances[i].pc, k.kid) {
      if Pending(t.instances[i].pc, k.kid) {
        PendingStep(s, act, i, k.kid);
        assert false;
      }
    }
    if act.Advance? && act.i in s.instances && s.instances[act.i].pc.PreviousSaved? {
      StoredKeepsKid(s.instances[act.i].pc.next);
      assert !Pending(s.instances[act.i].pc, k.kid);
    }
  }

  lemma DemotionIsFinal(s: State, act: Act)
    requires Inv(s) && Next(s, act).active != s.active
    ensures Gone(Next(s, act), s.active)
  {
    hide Stored;
    var t := Next(s, act);
    StepKeeps(s, act);
    forall i | i in t.instances ensures !Pending(t.instances[i].pc, s.active.kid) {
      if Pending(t.instances[i].pc, s.active.kid) {
        PendingStep(s, act, i, s.active.kid);
        assert false;
      }
    }
  }

  lemma {:induction false} ActiveOnce(s: State, acts: seq<Act>, m: nat, n: nat, r: nat)
    requires Start(s) && m <= n <= r <= |acts|
    requires At(s, acts, m).active == At(s, acts, r).active
    ensures At(s, acts, n).active == At(s, acts, m).active
  {
    if At(s, acts, n).active != At(s, acts, m).active {
      GoneAfter(s, acts, m, n);
      GoneUntil(s, acts, At(s, acts, m).active, n, r);
      assert false;
    }
  }

  lemma {:induction false} GoneAfter(s: State, acts: seq<Act>, m: nat, n: nat)
    requires Start(s) && m <= n <= |acts|
    ensures At(s, acts, n).active == At(s, acts, m).active || Gone(At(s, acts, n), At(s, acts, m).active)
  {
    if m < n {
      GoneAfter(s, acts, m, n - 1);
      RunKeeps(s, acts, n - 1);
      var t := At(s, acts, n - 1);
      if Gone(t, At(s, acts, m).active) {
        GoneStays(t, acts[n - 1], At(s, acts, m).active);
      } else if At(s, acts, n).active != t.active {
        DemotionIsFinal(t, acts[n - 1]);
      }
    }
  }

  lemma {:induction false} GoneUntil(s: State, acts: seq<Act>, k: Key, n: nat, r: nat)
    requires Start(s) && n <= r <= |acts| && Gone(At(s, acts, n), k)
    ensures Gone(At(s, acts, r), k)
  {
    if n < r {
      GoneUntil(s, acts, k, n, r - 1);
      RunKeeps(s, acts, r - 1);
      GoneStays(At(s, acts, r - 1), acts[r - 1], k);
    }
  }

  /** Two reads, active first, see every key that became active before the first of them and is
      still stored at the second, whatever happened in between: Save writes the previous key first.
      This holds in every run, timely or not. */
  lemma LoadSeesKey(s: State, acts: seq<Act>, m: nat, q: nat, r: nat)
    requires Start(s) && m <= q <= r <= |acts|
    requires InStore(At(s, acts, r), At(s, acts, m).active)
    ensures var k := At(s, acts, m).active;
            At(s, acts, q).active == k || At(s, acts, r).previous == Some(k)
  {
    if At(s, acts, r).previous != Some(At(s, acts, m).active) {
      ActiveOnce(s, acts, m, q, r);
    }
  }

  // ---------------------------------------------------------------- invariants of timely runs

  predicate Aged(s: State, k: Key) {
    s.now > k.createdAt + MAX_AGE
  }

  /** While its lock lasts, a rotating instance owns the lock and rotates the stored active key. */
  predicate Owns(s: State, i: int, deadline: int) {
    s.now < deadline ==> s.lock == Some(Lock(deadline, i))
  }

  predicate StampedInTime(s: State, deadline: int, created: int) {
    deadline - LOCK_TTL <= created <= s.now
  }

  predicate CriticalOk(s: State, i: int, pc: Pc) {
    match pc
    case Due(loaded, _, _, _) => Aged(s, loaded)
    case Locked(loaded, d) =>
      Owns(s, i, d) && Aged(s, loaded) && d - LOCK_TTL <= s.now && (s.now < d ==> s.active == loaded)
    case Stamped(loaded, d, created) =>
      Owns(s, i, d) && Aged(s, loaded) && StampedInTime(s, d, created) && (s.now < d ==> s.active == loaded)
    case Generated(loaded, d, demoted, next) =>
      Owns(s, i, d) && Aged(s, loaded) && StampedInTime(s, d, next.createdAt)
        && (s.now < d ==> s.active == loaded == demoted)
    case PreviousSaved(loaded, d, demoted, next) =>
      && Owns(s, i, d) && StampedInTime(s, d, next.createdAt)
      && (s.now < d ==> s.active == loaded == demoted && s.previous == Some(loaded))
    case ActiveSaved(loaded, d, next, _) => Owns(s, i, d)
    case _ => true
  }

  ghost predicate TimelyInv(s: State) {
    Inv(s) && forall i :: i in s.instances ==> CriticalOk(s, i, s.instances[i].pc)
  }

  function Deadline(pc: Pc): Option<int> {
    match pc
    case Locked(_, d) => Some(d)
    case Stamped(_, d, _) => Some(d)
    case Generated(_, d, _, _) => Some(d)
    case PreviousSaved(_, d, _, _) => Some(d)
    case ActiveSaved(_, d, _, _) => Some(d)
    case _ => None
  }

  lemma MutualExclusion(s: State, i: int, j: int)
    requires TimelyInv(s) && i in s.instances && j in s.instances && i != j
    requires Deadline(s.instances[i].pc).Some? && s.now < Deadline(s.instances[i].pc).value
    ensures Deadline(s.instances[j].pc).None? || Deadline(s.instances[j].pc).value <= s.now
  {
    assert CriticalOk(s, i, s.instances[i].pc) && CriticalOk(s, j, s.instances[j].pc);
  }

  lemma OwnerKeepsFreeLockAway(s: State, j: int)
    requires TimelyInv(s) && j in s.instances && LockFree(s)
    ensures Deadline(s.instances[j].pc).None? || Deadline(s.instances[j].pc).value <= s.now
  {
    assert CriticalOk(s, j, s.instances[j].pc);
  }

  lemma CriticalSurvives(s: State, act: Act, j: int)
    requires TimelyInv(s) && Timely(s, act) && j in s.instances && (act.Advance? || act.Fail?) && act.i != j
    ensures CriticalOk(Next(s, act), j, s.instances[j].pc)
  {
    hide Stored, Inv;
    assert CriticalOk(s, j, s.instances[j].pc);
    if act.Advance? && act.i in s.instances {
      var pc := s.instances[act.i].pc;
      if pc.Due? && LockFree(s) {
        OwnerKeepsFreeLockAway(s, j);
      } else if pc.Generated? || pc.PreviousSaved? {
        MutualExclusion(s, act.i, j);
      }
    }
  }

  /** Winning the lock, reading the clock, generating: the rotation begins on the loaded key. */
  lemma BeginsCritical(s: State, i: int)
    requires Inv(s) && i in s.instances && CriticalOk(s, i, s.instances[i].pc) && Timely(s, Advance(i))
    requires var pc := s.instances[i].pc; pc.Loaded? || pc.Due? || pc.Locked? || pc.Stamped?
    ensures CriticalOk(Next(s, Advance(i)), i, Proceed(s, i).instances[i].pc)
  {
    hide Stored, Inv;
  }

  /** Saving and releasing: the stored previous key is the demoted one. */
  lemma SavesCritical(s: State, i: int)
    requires IssuedOk(s) && i in s.instances && CriticalOk(s, i, s.instances[i].pc) && KeysOk(s, s.instances[i].pc)
    requires Timely(s, Advance(i))
    requires var pc := s.instances[i].pc; !pc.Loaded? && !pc.Due? && !pc.Locked? && !pc.Stamped?
    ensures CriticalOk(Next(s, Advance(i)), i, Proceed(s, i).instances[i].pc)
  {
    var pc := s.instances[i].pc;
    if pc.Generated? {
      assert s.active == pc.demoted && Stored(pc.demoted) == pc.demoted;
    }
    hide Stored, KeysOk;
  }

  lemma ActorCritical(s: State, i: int)
    requires TimelyInv(s) && i in s.instances && Timely(s, Advance(i))
    ensures CriticalOk(Next(s, Advance(i)), i, Proceed(s, i).instances[i].pc)
  {
    InvHas(s, i);
    assert CriticalOk(s, i, s.instances[i].pc);
    hide Inv, CriticalOk, Timely, Next, KeysOk;
    var pc := s.instances[i].pc;
    if pc.Loaded? || pc.Due? || pc.Locked? || pc.Stamped? {
      BeginsCritical(s, i);
    } else {
      SavesCritical(s, i);
    }
  }

  lemma OtherActsCritical(s: State, act: Act)
    requires TimelyInv(s) && !((act.Advance? || act.Fail?) && act.i in s.instances)
    ensures var t := Next(s, act); forall j :: j in t.instances ==> CriticalOk(t, j, t.instances[j].pc)
  {
    hide Stored, Inv;
    var t := Next(s, act);
    forall j | j in t.instances ensures CriticalOk(t, j, t.instances[j].pc) {
      if j in s.instances {
        assert CriticalOk(s, j, s.instances[j].pc);
      }
    }
  }

  lemma TimelyStepKeeps(s: State, act: Act)
    requires TimelyInv(s) && Timely(s, act)
    ensures TimelyInv(Next(s, act))
  {
    StepKeeps(s, act);
    hide Stored, Inv, CriticalOk, Timely;
    var t := Next(s, act);
    if (act.Advance? || act.Fail?) && act.i in s.instances {
      if act.Advance? {
        ActorCritical(s, act.i);
      } else {
        FailedCritical(s, act.i);
      }
      forall j | j in t.instances ensures CriticalOk(t, j, t.instances[j].pc) {
        hide Proceed, Failed;
        if j != act.i {
          OthersUntouched(s, act, j);
          CriticalSurvives(s, act, j);
        }
      }
    } else {
      OtherActsCritical(s, act);
    }
  }

  lemma FailedCritical(s: State, i: int)
    requires TimelyInv(s) && i in s.instances
    ensures CriticalOk(Next(s, Fail(i)), i, Failed(s, i).instances[i].pc)
  {
    hide Stored, Inv;
    assert CriticalOk(s, i, s.instances[i].pc);
  }

  lemma TimelyAt(s: State, acts: seq<Act>, n: nat)
    requires TimelyRun(s, acts) && n < |acts|
    ensures Timely(At(s, acts, n), acts[n])
  {
    hide Timely, At;
  }

  lemma AtNext(s: State, acts: seq<Act>, n: nat)
    requires n < |acts|
    ensures At(s, acts, n + 1) == Next(At(s, acts, n), acts[n]) && At(s, acts, 0) == s
  {
    hide Next;
  }

  lemma TimelyStart(s: State)
    requires Start(s)
    ensures TimelyInv(s)
  {
    hide Stored, CriticalOk;
  }

  lemma {:induction false} TimelyRunKeeps(s: State, acts: seq<Act>, n: nat)
    requires Start(s) && n <= |acts| && TimelyRun(s, acts)
    ensures TimelyInv(At(s, acts, n)) && At(s, acts, n).steps == n
  {
    hide Start, TimelyRun, TimelyInv, Timely, Next, Inv;
    RunKeeps(s, acts, n);
    if n > 0 {
      hide At;
      TimelyRunKeeps(s, acts, n - 1);
      TimelyAt(s, acts, n - 1);
      AtNext(s, acts, n - 1);
      TimelyStepKeeps(At(s, acts, n - 1), acts[n - 1]);
    } else {
      TimelyStart(s);
    }
  }

  lemma {:induction false} ClockRuns(s: State, acts: seq<Act>, m: nat, n: nat)
    requires m <= n <= |acts|
    ensures At(s, acts, m).now <= At(s, acts, n).now
  {
    if m < n {
      ClockRuns(s, acts, m, n - 1);
    }
  }

  // ---------------------------------------------------------------- retention

  /** What one timely step can do to the two stored keys: nothing, copy the aged active key to
      previous, or replace the active key that previous already holds by one generated under the lock. */
  lemma StoreStep(s: State, act: Act)
    requires TimelyInv(s) && Timely(s, act)
    ensures var t := Next(s, act);
            || (t.active == s.active && t.previous == s.previous)
            || (t.active == s.active && t.previous == Some(s.active) && Aged(s, s.active))
            || (t.previous == s.previous == Some(s.active) && t.now - LOCK_TTL - SECOND < t.active.createdAt <= t.now)
  {
    hide Inv;
    if act.Advance? && act.i in s.instances {
      var pc := s.instances[act.i].pc;
      assert CriticalOk(s, act.i, pc);
      assert KeysOk(s, pc) && IssuedOk(s) by {
        InvHas(s, act.i);
      }
      if pc.Generated? {
        assert Stored(pc.demoted) == pc.demoted;
      }
    }
  }

  lemma InvHas(s: State, i: int)
    requires Inv(s) && i in s.instances
    ensures KeysOk(s, s.instances[i].pc) && IssuedOk(s) && Issued(s, s.active)
  {}

  /** Step d of the run replaced k as the active key. */
  predicate DemotedAt(s: State, acts: seq<Act>, k: Key, d: nat) {
    d < |acts| && At(s, acts, d).active == k && At(s, acts, d + 1).active != k
  }

  /** After k was replaced by successor: still the previous key, or the successor has aged. */
  predicate KeptFor(s: State, k: Key, successor: Key) {
    (s.previous == Some(k) && s.active == successor) || Aged(s, successor)
  }

  lemma KeptStays(s: State, act: Act, k: Key, successor: Key)
    requires TimelyInv(s) && Timely(s, act) && KeptFor(s, k, successor) && k != successor
    ensures KeptFor(Next(s, act), k, successor)
  {
    StoreStep(s, act);
    hide TimelyInv, Timely, Stored, Proceed, Failed;
  }

  lemma DemotionKeeps(s: State, act: Act)
    requires TimelyInv(s) && Timely(s, act) && Next(s, act).active != s.active
    ensures var t := Next(s, act);
            KeptFor(t, s.active, t.active) && t.now - LOCK_TTL - SECOND < t.active.createdAt
  {
    StoreStep(s, act);
    hide TimelyInv, Timely, Stored, Proceed, Failed;
  }

  /** In a timely run a key that has been the active key stays stored until MaxAge after its successor
      was created. Since the successor is created at most the lock lifetime before the demotion, and
      stored in whole seconds, the key outlives its demotion by more than MaxAge less the lock
      lifetime and one second. */
  lemma {:induction false} Retention(s: State, acts: seq<Act>, m: nat, n: nat) returns (d: nat)
    requires Start(s) && TimelyRun(s, acts) && m <= n <= |acts|
    ensures var k := At(s, acts, m).active;
            At(s, acts, n).active == k ||
              (m <= d < n && DemotedAt(s, acts, k, d) && KeptFor(At(s, acts, n), k, At(s, acts, d + 1).active))
    ensures !InStore(At(s, acts, n), At(s, acts, m).active) ==>
              At(s, acts, n).now - At(s, acts, d + 1).now > MAX_AGE - LOCK_TTL - SECOND
  {
    hide TimelyInv, Timely, Next, KeptFor, TimelyRun, Start, At;
    d := m;
    if m < n {
      d := Retention(s, acts, m, n - 1);
      var k, t := At(s, acts, m).active, At(s, acts, n - 1);
      TimelyRunKeeps(s, acts, n - 1);
      TimelyAt(s, acts, n - 1);
      AtNext(s, acts, n - 1);
      if t.active == k && Next(t, acts[n - 1]).active != k {
        d := n - 1;
        DemotionKeeps(t, acts[n - 1]);
      } else if t.active != k {
        KeptStays(t, acts[n - 1], k, At(s, acts, d + 1).active);
        ActiveOnceAfter(s, acts, k, d, n);
      }
      if At(s, acts, n).active != k {
        AgedSince(s, acts, k, d, n);
      }
    }
  }

  lemma ActiveOnceAfter(s: State, acts: seq<Act>, k: Key, d: nat, n: nat)
    requires Start(s) && d < n <= |acts| && DemotedAt(s, acts, k, d)
    ensures At(s, acts, n).active != k
  {
    if At(s, acts, n).active == k {
      ActiveOnce(s, acts, d, d + 1, n);
      assert false;
    }
  }

  lemma AgedSince(s: State, acts: seq<Act>, k: Key, d: nat, n: nat)
    requires Start(s) && TimelyRun(s, acts) && d < n <= |acts| && DemotedAt(s, acts, k, d)
    requires KeptFor(At(s, acts, n), k, At(s, acts, d + 1).active)
    ensures InStore(At(s, acts, n), k) || At(s, acts, n).now - At(s, acts, d + 1).now > MAX_AGE - LOCK_TTL - SECOND
  {
    hide TimelyInv, Timely, Next, TimelyRun, Start, At;
    TimelyRunKeeps(s, acts, d);
    TimelyAt(s, acts, d);
    AtNext(s, acts, d);
    DemotionKeeps(At(s, acts, d), acts[d]);
  }

  lemma {:induction false} IssuedGrows(s: State, acts: seq<Act>, m: nat, n: nat, k: Key)
    requires Start(s) && m <= n <= |acts| && Issued(At(s, acts, m), k)
    ensures Issued(At(s, acts, n), k)
  {
    if m < n {
      IssuedGrows(s, acts, m, n - 1, k);
      hide Stored;
      assert At(s, acts, n - 1).issued <= At(s, acts, n).issued;
    }
  }

  lemma StoredKeysIssued(s: State, acts: seq<Act>, m: nat, n: nat)
    requires Start(s) && m <= n <= |acts|
    ensures Issued(At(s, acts, n), At(s, acts, m).active)
    ensures At(s, acts, m).previous.Some? ==> Issued(At(s, acts, n), At(s, acts, m).previous.value)
  {
    RunKeeps(s, acts, m);
    IssuedGrows(s, acts, m, n, At(s, acts, m).active);
    if At(s, acts, m).previous.Some? {
      IssuedGrows(s, acts, m, n, At(s, acts, m).previous.value);
    }
  }

  lemma StillStored(s: State, acts: seq<Act>, m: nat, t: nat, r: nat)
    requires Start(s) && TimelyRun(s, acts) && m <= t <= r <= |acts|
    requires At(s, acts, r).now - At(s, acts, m).now <= MAX_AGE - LOCK_TTL - SECOND
    ensures InStore(At(s, acts, t), At(s, acts, m).active)
  {
    hide TimelyRun, Start, At, InStore;
    var d := Retention(s, acts, m, t);
    if !InStore(At(s, acts, t), At(s, acts, m).active) {
      assert At(s, acts, t).active != At(s, acts, m).active by {
        StoredNow(At(s, acts, t), At(s, acts, m).active);
      }
      ClockRuns(s, acts, m, d + 1);
      ClockRuns(s, acts, t, r);
      assert false;
    }
  }

  lemma StoredNow(s: State, k: Key)
    ensures InStore(s, k) <==> s.active == k || s.previous == Some(k)
  {}
}
