/**
 * The in-memory branch of the cache client: a map of entries with an expiry time. The clock is
 * a parameter of every call. An entry is still readable at its expiry instant; only SetNX and
 * Exists already treat it as gone there.
 */
module CacheClient {
  import opened Wrappers

  datatype CacheError = NotFound | NotANumber

  datatype Data<+V> = Number(n: int) | Value(v: V)

  datatype Entry<+V> = Entry(data: Data<V>, expires: int)

  type Mem<V> = map<string, Entry<V>>

  /** What Get, GetDel, Count and Incr consider present. */
  predicate Readable<V>(mem: Mem<V>, now: int, key: string) {
    key in mem && now <= mem[key].expires
  }

  function Put<V>(mem: Mem<V>, now: int, key: string, data: Data<V>, ttl: int): Mem<V> {
    mem[key := Entry(data, now + ttl)]
  }

  function Read<V>(mem: Mem<V>, now: int, key: string): Option<Data<V>> {
    if Readable(mem, now, key) then Some(mem[key].data) else None
  }

  function Remove<V>(mem: Mem<V>, key: string): Mem<V> {
    mem - {key}
  }

  predicate Countable<V>(mem: Mem<V>, now: int, key: string) {
    Readable(mem, now, key) ==> mem[key].data.Number?
  }

  function CountOf<V>(mem: Mem<V>, now: int, key: string): int
    requires Countable(mem, now, key)
  {
    if Readable(mem, now, key) then mem[key].data.n else 0
  }

  /** Incr: a window opens with the first count and keeps its expiry until it has passed. */
  function Bump<V>(mem: Mem<V>, now: int, key: string, ttl: int): Mem<V>
    requires Countable(mem, now, key)
  {
    var expires := if Readable(mem, now, key) then mem[key].expires else now + ttl;
    mem[key := Entry(Number(CountOf(mem, now, key) + 1), expires)]
  }

  predicate Takeable<V>(mem: Mem<V>, now: int, key: string) {
    key !in mem || mem[key].expires <= now
  }

  class Client<V> {
    const enabled: bool
    var mem: Mem<V>

    constructor NewInMemory()
      ensures enabled && mem == map[]
    {
      enabled := true;
      mem := map[];
    }

    constructor Disabled()
      ensures !enabled && mem == map[]
    {
      enabled := false;
      mem := map[];
    }

    method Set(now: int, key: string, data: Data<V>, ttl: int)
      modifies this
      ensures mem == if enabled then old(mem)[key := Entry(data, now + ttl)] else old(mem)
    {
      if !enabled {
        return;
      }
      mem := mem[key := Entry(data, now + ttl)];
    }

    method Get(now: int, key: string) returns (r: Result<Data<V>, CacheError>)
      ensures r.Ok? <==> enabled && key in mem && now <= mem[key].expires
      ensures r.Ok? ==> r.value == mem[key].data
      ensures r.Err? ==> r.error == NotFound
    {
      if !enabled {
        return Err(NotFound);
      }
      if key !in mem || now > mem[key].expires {
        return Err(NotFound);
      }
      return Ok(mem[key].data);
    }

    /** Removes the entry even when it has already expired, and returns it only when it has not. */
    method GetDel(now: int, key: string) returns (r: Result<Data<V>, CacheError>)
      modifies this
      ensures mem == if enabled then old(mem) - {key} else old(mem)
      ensures r.Ok? <==> enabled && key in old(mem) && now <= old(mem)[key].expires
      ensures r.Ok? ==> r.value == old(mem)[key].data
      ensures r.Err? ==> r.error == NotFound
    {
      if !enabled {
        return Err(NotFound);
      }
      var found := key in mem;
      if !found {
        assert mem == mem - {key};
        return Err(NotFound);
      }
      var entry := mem[key];
      mem := mem - {key};
      if now > entry.expires {
        return Err(NotFound);
      }
      return Ok(entry.data);
    }

    method Delete(key: string)
      modifies this
      ensures mem == if enabled then old(mem) - {key} else old(mem)
    {
      if !enabled {
        return;
      }
      mem := mem - {key};
    }

    method Exists(now: int, key: string) returns (r: bool)
      ensures r <==> enabled && key in mem && now < mem[key].expires
    {
      r := enabled && key in mem && now < mem[key].expires;
    }

    method Count(now: int, key: string) returns (r: Result<int, CacheError>)
      ensures r == if !enabled || key !in mem || now > mem[key].expires then Ok(0)
                   else if mem[key].data.Number? then Ok(mem[key].data.n) else Err(NotANumber)
    {
      if !enabled {
        return Ok(0);
      }
      if key !in mem || now > mem[key].expires {
        return Ok(0);
      }
      match mem[key].data
      case Number(n) => return Ok(n);
      case Value(_) => return Err(NotANumber);
    }

    /** The time left: positive exactly while the entry's expiry lies ahead. */
    method TTL(now: int, key: string) returns (r: int)
      ensures r == if enabled && key in mem && now < mem[key].expires then mem[key].expires - now else 0
    {
      if !enabled || key !in mem {
        return 0;
      }
      var remaining := mem[key].expires - now;
      if remaining <= 0 {
        return 0;
      }
      return remaining;
    }

    method Incr(now: int, key: string, ttl: int) returns (r: Result<int, CacheError>)
      modifies this
      ensures !enabled ==> r == Ok(0) && mem == old(mem)
      ensures enabled ==>
                if key !in old(mem) || now > old(mem)[key].expires then
                  r == Ok(1) && mem == old(mem)[key := Entry(Number(1), now + ttl)]
                else
                  var e := old(mem)[key];
                  if e.data.Number? then
                    r == Ok(e.data.n + 1) && mem == old(mem)[key := Entry(Number(e.data.n + 1), e.expires)]
                  else r == Err(NotANumber) && mem == old(mem)
    {
      if !enabled {
        return Ok(0);
      }
      var n := 0;
      var isNew := key !in mem || now > mem[key].expires;
      if !isNew {
        match mem[key].data {
          case Value(_) => return Err(NotANumber);
          case Number(stored) => n := stored;
        }
      }
      n := n + 1;
      var expires := if isNew then now + ttl else mem[key].expires;
      mem := mem[key := Entry(Number(n), expires)];
      return Ok(n);
    }

    method SetNX(now: int, key: string, value: V, ttl: int) returns (won: bool)
      modifies this
      ensures won <==> enabled && (key !in old(mem) || old(mem)[key].expires <= now)
      ensures mem == if won then old(mem)[key := Entry(Value(value), now + ttl)] else old(mem)
    {
      if !enabled {
        return false;
      }
      if key in mem && now < mem[key].expires {
        return false;
      }
      mem := mem[key := Entry(Value(value), now + ttl)];
      return true;
    }
  }
}
