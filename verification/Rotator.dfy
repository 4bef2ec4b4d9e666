/** The rotation loop's tick as one instance runs it when nothing disturbs it. */
module Rotator {
  import opened Wrappers
  import opened Keys
  import Rotation
  import RotationRuns
  import CacheClient
  import Jwt

  const LOCK_KEY := "rotate_jwk_lock"

  /** The stored keys, the lock entry and the live keys are those of the fleet's state s. */
  ghost predicate Shows(s: Rotation.State, i: int, params: Parameters, locks: CacheClient.Mem<string>, active: Key,
                        previous: Option<Key>) {
    && Current(params, ACTIVE) == Ok(s.active)
    && Current(params, PREVIOUS) == (if s.previous.Some? then Ok(s.previous.value) else Err(ParameterNotFound))
    && (LOCK_KEY in locks <==> s.lock.Some?)
    && (s.lock.Some? ==> locks[LOCK_KEY].expires == s.lock.value.expires)
    && i in s.instances && s.instances[i].pc == Rotation.Idle
    && s.instances[i].live.Some? && s.instances[i].live.value.active == active
       && s.instances[i].live.value.previous == previous
  }

  lemma CurrentAfter(params: Parameters, writes: seq<(string, KeyJson)>, w: (string, KeyJson), name: string)
    ensures Current(Written(params, writes + [w]), name) == if name == w.0 then ParseKey(w.1)
            else Current(Written(params, writes), name)
  {
    hide ParseKey;
    WrittenInTurn(params, writes, w);
    var before := Written(params, writes);
    assert [w][..0] == [];
    assert Written(before, [w]) == before[w.0 := History(before, w.0) + [w.1]];
  }

  lemma AfterSave(params: Parameters, active: Key, previous: Key)
    ensures var after := Written(params, [(PREVIOUS, ToJson(previous))] + [(ACTIVE, ToJson(active))]);
            Current(after, ACTIVE) == Ok(Stored(active)) && Current(after, PREVIOUS) == Ok(Stored(previous))
  {
    WireRoundTrip(active);
    WireRoundTrip(previous);
    hide ToJson, ParseKey, Current, Written, Stored;
    CurrentAfter(params, [(PREVIOUS, ToJson(previous))], (ACTIVE, ToJson(active)), ACTIVE);
    CurrentAfter(params, [(PREVIOUS, ToJson(previous))], (ACTIVE, ToJson(active)), PREVIOUS);
    CurrentAfter(params, [], (PREVIOUS, ToJson(previous)), PREVIOUS);
    assert [] + [(PREVIOUS, ToJson(previous))] == [(PREVIOUS, ToJson(previous))];
    assert ACTIVE != PREVIOUS;
  }

  /** The two writes of a rotation: the key so far as one more version of the previous parameter, the new key as one
      more version of the active one, and no other parameter changed. */
  predicate Demoted(before: Parameters, after: Parameters, oldKey: Key, newKey: Key) {
    && History(after, "jwk/previous") == History(before, "jwk/previous") + [ToJson(oldKey)]
    && History(after, "jwk/active") == History(before, "jwk/active") + [ToJson(newKey)]
    && (forall name :: name in before && name != "jwk/previous" && name != "jwk/active" ==>
          name in after && after[name] == before[name])
    && after.Keys == before.Keys + {"jwk/previous", "jwk/active"}
  }

  lemma SaveDemotes(params: Parameters, demoted: Key, next: Key)
    ensures Demoted(params, Written(params, [(PREVIOUS, ToJson(demoted))] + [(ACTIVE, ToJson(next))]), demoted, next)
  {
    hide ToJson;
    var first := [(PREVIOUS, ToJson(demoted))];
    assert (first + [(ACTIVE, ToJson(next))])[..1] == first && first[..0] == [];
    assert Written(params, first) == params[PREVIOUS := History(params, PREVIOUS) + [ToJson(demoted)]];
  }

  /** Rotate generates a key of the given algorithm and demotes the stored active key. */
  method Rotate(store: Store, now: int, alg: Alg, kid: nat, secret: nat) returns (r: Result<Key, KeyError>)
    requires store.Valid()
    modifies store, store.ssm
    ensures store.Valid()
    ensures r.Ok? <==> StoredPair(old(store.ssm.params)).Ok?
    ensures r.Ok? ==> r.value == Key(kid, alg, secret, now)
    ensures r.Ok? ==> store.ssm.params ==
                      Written(old(store.ssm.params),
                              [(PREVIOUS, ToJson(StoredPair(old(store.ssm.params)).value.0))]
                                + [(ACTIVE, ToJson(r.value))])
    ensures r.Err? ==> store.ssm.params == old(store.ssm.params)
    ensures r.Ok? ==>
              Demoted(old(store.ssm.params), store.ssm.params, StoredPair(old(store.ssm.params)).value.0, r.value)
  {
    hide Written, StoredPair, ToJson, ParseKey, IsVersion, Demoted;
    var loaded := store.Load([], [], []);
    if loaded.Err? {
      return Err(loaded.error);
    }
    var next := Key(kid, alg, secret, now);
    ghost var before := store.ssm.params;
    ghost var writes := [(PREVIOUS, ToJson(loaded.value.0))] + [(ACTIVE, ToJson(next))];
    store.Save(next, Some(loaded.value.0));
    SaveDemotes(before, loaded.value.0, next);
    forall n | n in store.cache ensures IsVersion(History(store.ssm.params, n), store.cache[n].0, store.cache[n].1) {
      VersionStays(before, writes, n, store.cache[n].0, store.cache[n].1);
    }
    return Ok(next);
  }

  class Rotator {
    const store: Store
    const service: Jwt.JWTService
    const locks: CacheClient.Client<string>

    constructor (store: Store, service: Jwt.JWTService, locks: CacheClient.Client<string>)
      ensures this.store == store && this.service == service && this.locks == locks
    {
      this.store, this.service, this.locks := store, service, locks;
    }

    /** One undisturbed tick takes the store, the lock and the live keys where the fleet's step machine
        goes when only this instance moves. A failed load changes nothing. */
    method Tick(now: int, secret: nat, ghost s: Rotation.State, ghost i: int, kid: nat)
      returns (r: Result<bool, KeyError>)
      requires store.Valid() && locks.enabled
      modifies store, store.ssm, service, locks
      ensures store.Valid()
      ensures r.Err? ==> StoredPair(old(store.ssm.params)).Err? && store.ssm.params == old(store.ssm.params)
                         && service.active == old(service.active) && service.previous == old(service.previous)
                            && locks.mem == old(locks.mem)
      ensures r.Ok? <==> StoredPair(old(store.ssm.params)).Ok?
      ensures r.Ok? ==>
                var (active, previous) := StoredPair(old(store.ssm.params)).value;
                var due := now - active.createdAt > 90 * 24 * 3600 * SECOND
                           && (LOCK_KEY in old(locks.mem) ==> old(locks.mem)[LOCK_KEY].expires <= now);
                if due then
                  && service.active == Key(kid, active.alg, secret, now) && service.previous == Some(active)
                  && Demoted(old(store.ssm.params), store.ssm.params, active, service.active)
                  && locks.mem == old(locks.mem) - {LOCK_KEY}
                else
                  && service.active == active && service.previous == previous
                  && store.ssm.params == old(store.ssm.params) && locks.mem == old(locks.mem)
      ensures old(Shows(s, i, store.ssm.params, locks.mem, service.active, service.previous))
              && s.now == now && kid == secret == |s.issued| ==>
                && r.Ok?
                && Shows(RotationRuns.Do(s, RotationRuns.TickSteps(s, i)), i, store.ssm.params, locks.mem,
                         service.active, service.previous)
    {
      hide Written, StoredPair, ToJson, ParseKey, Shows, RotationRuns.Do, RotationRuns.TickSteps, IsVersion,
        Demoted;
      ghost var params, mem := store.ssm.params, locks.mem;
      var loaded := store.Load([], [], []);
      if loaded.Err? {
        if Shows(s, i, params, mem, service.active, service.previous) {
          ShownPair(s, i, params, mem, service.active, service.previous);
        }
        return Err(loaded.error);
      }
      var active, previous := loaded.value.0, loaded.value.1;
      if now - active.createdAt > Rotation.MAX_AGE {
        var won := locks.SetNX(now, LOCK_KEY, "1", Rotation.LOCK_TTL);
        if won {
          var rotated := Rotate(store, now, active.alg, kid, secret);
          if rotated.Err? {
            assert false;
          }
          previous := Some(active);
          active := rotated.value;
          locks.Delete(LOCK_KEY);
        }
      }
      if Shows(s, i, params, mem, service.active, service.previous) && s.now == now && kid == secret == |s.issued| {
        ShownPair(s, i, params, mem, service.active, service.previous);
        TickShows(s, i, params, mem, service.active, service.previous);
      }
      service.Reload(active, previous);
      r := Ok(true);
    }
  }

  lemma ShownPair(s: Rotation.State, i: int, params: Parameters, locks: CacheClient.Mem<string>, active: Key,
                  previous: Option<Key>)
    requires Shows(s, i, params, locks, active, previous)
    ensures StoredPair(params) == Ok((s.active, s.previous))
    ensures CacheClient.Takeable(locks, s.now, LOCK_KEY) <==> Rotation.LockFree(s)
  {
    hide Current;
  }

  lemma TickShows(s: Rotation.State, i: int, params: Parameters, locks: CacheClient.Mem<string>, active: Key,
                  previous: Option<Key>)
    requires Shows(s, i, params, locks, active, previous)
    ensures var end := RotationRuns.Do(s, RotationRuns.TickSteps(s, i));
            if Rotation.Aged(s, s.active) && Rotation.LockFree(s) then
              var next := Key(|s.issued|, s.active.alg, |s.issued|, s.now);
              Shows(end, i, Written(params, [(PREVIOUS, ToJson(s.active))] + [(ACTIVE, ToJson(next))]),
                    CacheClient.Remove(CacheClient.Put(locks, s.now, LOCK_KEY, CacheClient.Value("1"),
                                                       Rotation.LOCK_TTL), LOCK_KEY),
                    next, Some(s.active))
            else Shows(end, i, params, locks, s.active, s.previous)
  {
    hide Current, Written, RotationRuns.Do, RotationRuns.Steps, ToJson, Stored;
    if Rotation.Aged(s, s.active) && Rotation.LockFree(s) {
      RotationRuns.UndisturbedTick(s, i, s.instances[i].live.value);
      AfterSave(params, Key(|s.issued|, s.active.alg, |s.issued|, s.now), s.active);
    } else {
      RotationRuns.ReloadingTick(s, i, s.instances[i].live.value);
    }
  }
}
