/**
 * Signing keys, their wire format, and the store that caches them by parameter version. Times are
 * nanoseconds; the wire format keeps whole seconds.
 */
module Keys {
  import opened Wrappers

  const SECOND := 1_000_000_000

  datatype Alg = RS256 | ES256

  /** A key is its id and its private material; createdAt is bookkeeping. */
  datatype Key = Key(kid: nat, alg: Alg, secret: nat, createdAt: int)

  predicate SameKey(a: Key, b: Key) {
    a.kid == b.kid && a.alg == b.alg && a.secret == b.secret
  }

  /** What a PEM block decodes to. */
  datatype Material = Rsa(secret: nat) | Ec(secret: nat) | OtherKey | Undecodable

  datatype Pem = NoBlock | Pkcs1(material: Material) | Pkcs8(material: Material) | OtherBlock

  datatype KeyJson = KeyJson(kid: nat, alg: Option<Alg>, pem: Pem, createdAt: Option<int>)

  datatype KeyError = ParameterNotFound | Malformed

  function WholeSeconds(t: int): (r: int)
    ensures r <= t < r + SECOND
  {
    t - t % SECOND
  }

  function ToJson(k: Key): KeyJson {
    KeyJson(k.kid, Some(k.alg), Pkcs8(if k.alg == RS256 then Rsa(k.secret) else Ec(k.secret)),
            Some(WholeSeconds(k.createdAt)))
  }

  function Decode(pem: Pem): Option<(Alg, nat)> {
    match pem
    case Pkcs1(Rsa(s)) => Some((RS256, s))
    case Pkcs8(Rsa(s)) => Some((RS256, s))
    case Pkcs8(Ec(s)) => Some((ES256, s))
    case _ => None
  }

  function ParseKey(j: KeyJson): Result<Key, KeyError> {
    match Decode(j.pem)
    case None => Err(Malformed)
    case Some((alg, secret)) =>
      if j.alg.Some? && j.alg.value != alg then Err(Malformed)
      else if j.createdAt.None? then Err(Malformed)
      else Ok(Key(j.kid, alg, secret, j.createdAt.value))
  }

  /** What the parser takes: RSA material in either block, EC material in the newer one, an algorithm that is absent
      or that of the material, a readable date. It keeps id, material and date; the algorithm is the material's. */
  lemma ParsesExactly(j: KeyJson)
    ensures ParseKey(j).Ok? <==>
              && j.createdAt.Some?
              && ((exists s :: (j.pem == Pkcs1(Rsa(s)) || j.pem == Pkcs8(Rsa(s))) && j.alg != Some(ES256))
                  || exists s :: j.pem == Pkcs8(Ec(s)) && j.alg != Some(RS256))
    ensures ParseKey(j).Ok? ==>
              var k := ParseKey(j).value;
              && k.kid == j.kid && Some(k.createdAt) == j.createdAt
              && (j.pem == Pkcs8(Ec(k.secret)) ==> k.alg == ES256)
              && (j.pem == Pkcs8(Rsa(k.secret)) || j.pem == Pkcs1(Rsa(k.secret)) ==> k.alg == RS256)
              && (j.pem == Pkcs8(Ec(k.secret)) || j.pem == Pkcs8(Rsa(k.secret)) || j.pem == Pkcs1(Rsa(k.secret)))
  {
    match j.pem
    case Pkcs1(Rsa(s)) => assert j.pem == Pkcs1(Rsa(s));
    case Pkcs8(Rsa(s)) => assert j.pem == Pkcs8(Rsa(s));
    case Pkcs8(Ec(s)) => assert j.pem == Pkcs8(Ec(s));
    case _ =>
  }

  /** What is written: the newer block with the material, its algorithm, the key id, the date in whole seconds. */
  lemma WritesExactly(k: Key)
    ensures ToJson(k).kid == k.kid && ToJson(k).alg == Some(k.alg)
    ensures ToJson(k).pem == if k.alg == RS256 then Pkcs8(Rsa(k.secret)) else Pkcs8(Ec(k.secret))
    ensures ToJson(k).createdAt.Some?
    ensures var t := ToJson(k).createdAt.value; t % SECOND == 0 && t <= k.createdAt < t + SECOND
  {
    var t := k.createdAt;
    assert (t - t % SECOND) % SECOND == 0;
  }

  /** What a key becomes by being stored and read back: itself, created at a whole second. */
  function Stored(k: Key): Key {
    k.(createdAt := WholeSeconds(k.createdAt))
  }

  /** Writing and parsing gives the stored form, and storing again changes nothing more. */
  lemma WireRoundTrip(k: Key)
    ensures ParseKey(ToJson(k)) == Ok(Stored(k))
    ensures SameKey(Stored(k), k)
    ensures Stored(Stored(k)) == Stored(k)
  {
    var t := k.createdAt;
    assert (t - t % SECOND) % SECOND == 0;
  }

  /** Every write of a parameter appends a version; version n is element n - 1. */
  type Parameters = map<string, seq<KeyJson>>

  function History(params: Parameters, name: string): seq<KeyJson> {
    if name in params then params[name] else []
  }

  function Written(params: Parameters, writes: seq<(string, KeyJson)>): Parameters {
    if writes == [] then params
    else
      var w := writes[|writes| - 1];
      var before := Written(params, writes[..|writes| - 1]);
      before[w.0 := History(before, w.0) + [w.1]]
  }

  lemma {:induction false} WritesAppend(params: Parameters, writes: seq<(string, KeyJson)>, name: string)
    ensures History(params, name) <= History(Written(params, writes), name)
  {
    if writes != [] {
      WritesAppend(params, writes[..|writes| - 1], name);
    }
  }

  /** key is the parse of version v of a parameter. */
  predicate IsVersion(history: seq<KeyJson>, v: nat, key: Key) {
    1 <= v <= |history| && ParseKey(history[v - 1]) == Ok(key)
  }

  lemma VersionStays(params: Parameters, writes: seq<(string, KeyJson)>, name: string, v: nat, key: Key)
    requires IsVersion(History(params, name), v, key)
    ensures IsVersion(History(Written(params, writes), name), v, key)
  {
    WritesAppend(params, writes, name);
  }

  function Current(params: Parameters, name: string): Result<Key, KeyError> {
    var history := History(params, name);
    if history == [] then Err(ParameterNotFound) else ParseKey(history[|history| - 1])
  }

  lemma CurrentIs(params: Parameters, name: string)
    ensures Written(params, []) == params
    ensures var history := History(params, name);
            Current(params, name) == if history == [] then Err(ParameterNotFound) else ParseKey(history[|history| - 1])
  {}

  /** What Load returns when nobody writes meanwhile; a missing previous key is no error. */
  function StoredPair(params: Parameters): Result<(Key, Option<Key>), KeyError> {
    match Current(params, ACTIVE)
    case Err(e) => Err(e)
    case Ok(active) =>
      match Current(params, PREVIOUS)
      case Ok(previous) => Ok((active, Some(previous)))
      case Err(e) => if e == ParameterNotFound then Ok((active, None)) else Err(e)
  }

  /** Both keys are the parses of the latest versions; a previous key that was never written is no error, one that
      does not parse is. */
  lemma StoredPairIs(params: Parameters)
    ensures var a, p := History(params, ACTIVE), History(params, PREVIOUS);
            && (StoredPair(params).Ok? <==>
                  && a != [] && ParseKey(a[|a| - 1]).Ok? && (p != [] ==> ParseKey(p[|p| - 1]).Ok?))
            && (StoredPair(params).Ok? ==>
                  && Ok(StoredPair(params).value.0) == ParseKey(a[|a| - 1])
                  && (StoredPair(params).value.1.None? <==> p == [])
                  && (p != [] ==> Ok(StoredPair(params).value.1.value) == ParseKey(p[|p| - 1])))
  {
    hide ParseKey;
    var p := History(params, PREVIOUS);
    if p != [] {
      ParseErrors(p[|p| - 1]);
    }
  }

  lemma CacheStays(cache: map<string, (nat, Key)>, params: Parameters, writes: seq<(string, KeyJson)>)
    requires forall n :: n in cache ==> IsVersion(History(params, n), cache[n].0, cache[n].1)
    ensures forall n :: n in cache ==> IsVersion(History(Written(params, writes), n), cache[n].0, cache[n].1)
  {
    hide IsVersion, History, Written;
    forall n | n in cache ensures IsVersion(History(Written(params, writes), n), cache[n].0, cache[n].1) {
      VersionStays(params, writes, n, cache[n].0, cache[n].1);
    }
  }

  class Ssm {
    var params: Parameters

    constructor ()
      ensures params == map[]
    {
      params := map[];
    }

    method GetParameter(name: string) returns (r: Result<(nat, KeyJson), KeyError>)
      ensures r.Ok? <==> History(params, name) != []
      ensures r.Ok? ==> r.value == (|History(params, name)|, History(params, name)[|History(params, name)| - 1])
      ensures r.Err? ==> r.error == ParameterNotFound
    {
      if name !in params || |params[name]| == 0 {
        return Err(ParameterNotFound);
      }
      return Ok((|params[name]|, params[name][|params[name]| - 1]));
    }

    method PutParameter(name: string, value: KeyJson)
      modifies this
      ensures params == Written(old(params), [(name, value)])
    {
      ghost var writes := [(name, value)];
      assert writes[..0] == [];
      assert Written(params, writes) == Written(params, writes[..0])[name := History(params, name) + [value]];
      params := params[name := (if name in params then params[name] else []) + [value]];
    }

    /** What other instances write meanwhile. */
    method OthersWrite(writes: seq<(string, KeyJson)>)
      modifies this
      ensures params == Written(old(params), writes)
    {
      params := Written(params, writes);
    }
  }

  class Store {
    const ssm: Ssm
    var cache: map<string, (nat, Key)>

    constructor (ssm: Ssm)
      ensures this.ssm == ssm && cache == map[] && Valid()
    {
      this.ssm := ssm;
      cache := map[];
    }

    /** Every cached key is the parse of the stored version it is cached under. */
    ghost predicate Valid()
      reads this, ssm
    {
      forall name :: name in cache ==> IsVersion(History(ssm.params, name), cache[name].0, cache[name].1)
    }

    /** getKey reads the version without the value, serves the cached key while the version matches,
        and otherwise reads again. Others may write between the two reads. The result is the parse of
        a version that was current at some moment of the call, so a later call never returns an older
        one; version says which. */
    method GetKey(name: string, between: seq<(string, KeyJson)>) returns (r: Result<Key, KeyError>, version: nat)
      requires Valid()
      modifies this, ssm
      ensures Valid()
      ensures ssm.params == Written(old(ssm.params), between)
      ensures r == Err(ParameterNotFound) <==> old(History(ssm.params, name)) == []
      ensures r != Err(ParameterNotFound) ==>
                && |old(History(ssm.params, name))| <= version <= |History(ssm.params, name)| && version > 0
                && r == ParseKey(History(ssm.params, name)[version - 1])
      ensures r.Ok? ==> name in cache && cache[name] == (version, r.value)
      ensures between == [] ==> r == Current(old(ssm.params), name)
    {
      CurrentIs(ssm.params, name);
      hide ParseKey, Written, IsVersion, WholeSeconds, Decode, History, Current;
      version := 0;
      var head := ssm.GetParameter(name);
      CacheStays(cache, ssm.params, between);
      WritesAppend(ssm.params, between, name);
      ssm.OthersWrite(between);
      if head.Err? {
        return Err(head.error), 0;
      }
      if name in cache && cache[name].0 == head.value.0 {
        version := head.value.0;
        VersionParses(History(ssm.params, name), version, cache[name].1);
        return Ok(cache[name].1), version;
      }
      r, version := Fetch(name);
    }

    /** The second half of getKey: reads the value and caches its parse. */
    method Fetch(name: string) returns (r: Result<Key, KeyError>, version: nat)
      requires Valid() && History(ssm.params, name) != []
      modifies this
      ensures Valid()
      ensures version == |History(ssm.params, name)| && r == ParseKey(History(ssm.params, name)[version - 1])
      ensures r != Err(ParameterNotFound)
      ensures cache == if r.Ok? then old(cache)[name := (version, r.value)] else old(cache)
    {
      hide ParseKey, IsVersion, WholeSeconds, Decode;
      var out := ssm.GetParameter(name);
      version := out.value.0;
      r := ParseKey(out.value.1);
      ParseErrors(out.value.1);
      if r.Err? {
        return;
      }
      VersionParses(History(ssm.params, name), version, r.value);
      cache := cache[name := (version, r.value)];
    }

    /** Load: both keys, a missing previous one is no error. */
    method Load(first: seq<(string, KeyJson)>, second: seq<(string, KeyJson)>, third: seq<(string, KeyJson)>)
      returns (r: Result<(Key, Option<Key>), KeyError>)
      requires Valid()
      modifies this, ssm
      ensures Valid()
      ensures r.Ok? ==> ssm.params == Written(Written(Written(old(ssm.params), first), second), third)
      ensures r.Ok? ==>
                exists v: nat :: |old(History(ssm.params, ACTIVE))| <= v
                  && IsVersion(History(ssm.params, ACTIVE), v, r.value.0)
      ensures first == second == third == [] ==> ssm.params == old(ssm.params) && r == StoredPair(old(ssm.params))
      ensures r.Ok? && r.value.1.None? ==> old(History(ssm.params, PREVIOUS)) == []
      ensures r.Ok? && r.value.1.Some? ==>
                exists v: nat :: |old(History(ssm.params, PREVIOUS))| <= v
                  && IsVersion(History(ssm.params, PREVIOUS), v, r.value.1.value)
    {
      ghost var p0 := ssm.params;
      assert Written(p0, []) == p0;
      hide ParseKey, Written, Current;
      var active, v := GetKey(ACTIVE, first);
      if active.Err? {
        return Err(active.error);
      }
      ghost var p1 := ssm.params;
      ssm.OthersWrite(second);
      ghost var p2 := ssm.params;
      CacheStays(cache, p1, second);
      var previous, w := GetKey(PREVIOUS, third);
      forall n: string ensures History(p0, n) <= History(p1, n) <= History(p2, n) <= History(ssm.params, n) {
        WritesAppend(p0, first, n);
        WritesAppend(p1, second, n);
        WritesAppend(p2, third, n);
      }
      assert IsVersion(History(ssm.params, ACTIVE), v, active.value);
      if previous.Err? {
        return if previous.error == ParameterNotFound then Ok((active.value, None)) else Err(previous.error);
      }
      assert IsVersion(History(ssm.params, PREVIOUS), w, previous.value);
      return Ok((active.value, Some(previous.value)));
    }

    /** Save writes the previous key first. */
    method Save(active: Key, previous: Option<Key>)
      modifies ssm
      ensures ssm.params == Written(old(ssm.params),
                                    (if previous.Some? then [(PREVIOUS, ToJson(previous.value))] else [])
                                      + [(ACTIVE, ToJson(active))])
    {
      if previous.Some? {
        ssm.PutParameter(PREVIOUS, ToJson(previous.value));
      }
      ssm.PutParameter(ACTIVE, ToJson(active));
      WrittenInTurn(old(ssm.params), if previous.Some? then [(PREVIOUS, ToJson(previous.value))]
                    else [], (ACTIVE, ToJson(active)));
    }
  }

  const ACTIVE := "jwk/active"
  const PREVIOUS := "jwk/previous"

  lemma VersionParses(history: seq<KeyJson>, v: nat, key: Key)
    ensures IsVersion(history, v, key) <==> 1 <= v <= |history| && ParseKey(history[v - 1]) == Ok(key)
  {}

  lemma ParseErrors(j: KeyJson)
    ensures ParseKey(j).Err? ==> ParseKey(j).error == Malformed
  {}

  lemma WrittenInTurn(params: Parameters, a: seq<(string, KeyJson)>, w: (string, KeyJson))
    ensures Written(params, a + [w]) == Written(Written(params, a), [w])
  {
    assert (a + [w])[..|a|] == a;
    assert [w][..0] == [];
  }
}
