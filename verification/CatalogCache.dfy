/**
 * How stale a served catalog can be. Loads read the two tables one after the other and fill the
 * cache later, while other instances change the tables and clear the cache in between.
 */
module CatalogStaleness {
  import opened Wrappers
  import opened Store
  import opened Catalog
  import opened CacheClient
  import Services
  import Strings

  const KEY := Services.CATALOG_CACHE_KEY
  const TTL := Services.CATALOG_CACHE_TTL

  /** A request for the catalog. The step numbers say when each table was read. */
  datatype Request =
    | Missed
    | HasLegacy(legacy: seq<ServiceScopes>, i: nat)
    | HasBoth(services: seq<ServiceScopes>, i: nat, j: nat)
    | Served(services: seq<ServiceScopes>, i: nat, j: nat, filledAt: int, servedAt: int)

  /** origin belongs to the cached entry and is recorded for stating the theorem only. */
  datatype Origin = Origin(i: nat, j: nat, filledAt: int)

  datatype State = State(
    steps: nat,
    now: int,
    legacy: seq<ServiceScopes>,
    resources: seq<ResourceServer>,
    cache: Mem<seq<ServiceScopes>>,
    origin: Origin,
    requests: map<int, Request>)

  datatype Act =
    | Wait(until: int)
    | WriteLegacy(legacy: seq<ServiceScopes>)
    | WriteResources(resources: seq<ResourceServer>)
    | Invalidate
    | Lookup(r: int)
    | LoadLegacy(r: int)
    | LoadResources(r: int)
    | Fill(r: int)

  predicate Hit(s: State) {
    Readable(s.cache, s.now, KEY) && s.cache[KEY].data.Value? && s.cache[KEY].data.v != []
  }

  function Effect(s: State, act: Act): State {
    match act
    case Wait(t) => if s.now <= t then s.(now := t) else s
    case WriteLegacy(l) => s.(legacy := l)
    case WriteResources(rs) => s.(resources := rs)
    case Invalidate => s.(cache := Remove(s.cache, KEY))
    case Lookup(r) =>
      if r in s.requests then s
      else if Hit(s) then
        s.(requests := s.requests[r := Served(s.cache[KEY].data.v, s.origin.i, s.origin.j, s.origin.filledAt, s.now)])
      else s.(requests := s.requests[r := Missed])
    case LoadLegacy(r) =>
      if r in s.requests && s.requests[r].Missed? then s.(requests := s.requests[r := HasLegacy(s.legacy, s.steps)])
        else s
    case LoadResources(r) =>
      if r in s.requests && s.requests[r].HasLegacy? then
        var q := s.requests[r];
        s.(requests := s.requests[r := HasBoth(Merge(q.legacy, s.resources), q.i, s.steps)])
      else s
    case Fill(r) =>
      if r in s.requests && s.requests[r].HasBoth? then
        var q := s.requests[r];
        var served := s.(requests := s.requests[r := Served(q.services, q.i, q.j, s.now, s.now)]);
        if q.services == [] then served
        else served.(cache := Put(s.cache, s.now, KEY, Value(q.services), TTL), origin := Origin(q.i, q.j, s.now))
      else s
  }

  function Next(s: State, act: Act): State {
    Effect(s, act).(steps := s.steps + 1)
  }

  function Start(now: int, legacy: seq<ServiceScopes>, resources: seq<ResourceServer>): State {
    State(0, now, legacy, resources, map[], Origin(0, 0, now), map[])
  }

  /** The state after the first n actions. */
  function At(s: State, acts: seq<Act>, n: nat): State
    requires n <= |acts|
  {
    if n == 0 then s else Next(At(s, acts, n - 1), acts[n - 1])
  }

  /** These services are the merge of the legacy table as it was at step i and the resource table
      as it was at the later step j, both read no later than the given time. */
  predicate MergedFrom(s: State, acts: seq<Act>, n: nat, services: seq<ServiceScopes>, i: nat, j: nat, time: int)
    requires n <= |acts|
  {
    && i <= j <= n
    && services == Merge(At(s, acts, i).legacy, At(s, acts, j).resources)
    && At(s, acts, i).now <= At(s, acts, j).now <= time
  }

  predicate RequestOk(s: State, acts: seq<Act>, n: nat, q: Request)
    requires n <= |acts|
  {
    match q
    case Missed => true
    case HasLegacy(l, i) => i <= n && l == At(s, acts, i).legacy && At(s, acts, i).now <= At(s, acts, n).now
    case HasBoth(services, i, j) => MergedFrom(s, acts, n, services, i, j, At(s, acts, n).now)
    case Served(services, i, j, filledAt, servedAt) =>
      MergedFrom(s, acts, n, services, i, j, filledAt) && filledAt <= servedAt <= filledAt + TTL
  }

  ghost predicate Inv(s: State, acts: seq<Act>, n: nat)
    requires n <= |acts|
  {
    var t := At(s, acts, n);
    && t.steps == n
    && (forall r :: r in t.requests ==> RequestOk(s, acts, n, t.requests[r]))
    && (KEY in t.cache ==>
          && t.cache[KEY].data.Value?
          && t.cache[KEY].expires == t.origin.filledAt + TTL
          && t.origin.filledAt <= t.now
          && MergedFrom(s, acts, n, t.cache[KEY].data.v, t.origin.i, t.origin.j, t.origin.filledAt))
  }

  /** A request that nobody interrupts does what CatalogService.Catalog does: it serves a readable, nonempty cached
      catalog as it is, and otherwise the merge of the two tables, which it caches for 300 seconds if not empty. */
  lemma UndisturbedLoad(s: State, r: int)
    requires r !in s.requests
    ensures var t := Next(Next(Next(Next(s, Lookup(r)), LoadLegacy(r)), LoadResources(r)), Fill(r));
            && t.legacy == s.legacy && t.resources == s.resources && t.now == s.now
            && r in t.requests && t.requests[r].Served?
            && var services := t.requests[r].services;
               if KEY in s.cache && s.now <= s.cache[KEY].expires
                 && s.cache[KEY].data.Value? && s.cache[KEY].data.v != [] then
                 services == s.cache[KEY].data.v && t.cache == s.cache
               else
                 && services == Merge(s.legacy, s.resources)
                 && t.cache == if services == [] then s.cache
                               else s.cache[KEY := Entry(Value(services), s.now + 300)]
  {
    hide Merge;
    var a := Next(s, Lookup(r));
    var b := Next(a, LoadLegacy(r));
    var c := Next(b, LoadResources(r));
    if Hit(s) {
      assert c.cache == s.cache && c.requests == a.requests;
    } else {
      assert a.requests[r] == Missed && b.requests[r] == HasLegacy(s.legacy, s.steps + 1);
      assert c.requests[r] == HasBoth(Merge(s.legacy, s.resources), s.steps + 1, s.steps + 2) && c.cache == s.cache;
    }
  }

  /** A writer changes a table and then clears the cached catalog: the next request loads. */
  lemma WriterClears(s: State, legacy: seq<ServiceScopes>, resources: seq<ResourceServer>)
    ensures Next(s, WriteLegacy(legacy)).legacy == legacy && Next(s, WriteResources(resources)).resources == resources
    ensures Next(s, WriteLegacy(legacy)).cache == s.cache && Next(s, WriteResources(resources)).cache == s.cache
    ensures Next(s, Invalidate).cache == s.cache - {KEY} && !Hit(Next(s, Invalidate))
  {}

  lemma OneMoreStep(s: State, acts: seq<Act>, n: nat)
    requires n < |acts|
    ensures At(s, acts, n + 1) == Next(At(s, acts, n), acts[n])
  {
    hide Next;
  }

  lemma ClockRuns(s: State, acts: seq<Act>, n: nat)
    requires n < |acts|
    ensures At(s, acts, n).now <= At(s, acts, n + 1).now
  {}

  lemma RequestFrame(s: State, acts: seq<Act>, n: nat, q: Request)
    requires n < |acts| && RequestOk(s, acts, n, q)
    ensures RequestOk(s, acts, n + 1, q)
  {
    hide Merge, At;
    ClockRuns(s, acts, n);
  }

  lemma {:induction false} RunKeeps(s: State, acts: seq<Act>, n: nat)
    requires n <= |acts|
    requires s.steps == 0 && s.cache == map[] && s.requests == map[]
    ensures Inv(s, acts, n)
  {
    if n > 0 {
      RunKeeps(s, acts, n - 1);
      StepKeeps(s, acts, n - 1);
    }
  }

  lemma StepKeeps(s: State, acts: seq<Act>, n: nat)
    requires n < |acts| && Inv(s, acts, n)
    ensures Inv(s, acts, n + 1)
  {
    hide Merge, RequestOk, MergedFrom, Effect;
    var t' := At(s, acts, n + 1);
    forall r | r in t'.requests ensures RequestOk(s, acts, n + 1, t'.requests[r]) {
      StepRequest(s, acts, n, r);
    }
    StepCache(s, acts, n);
  }

  /** The request a step acts on, if any. */
  function Actor(act: Act): Option<int> {
    match act
    case Lookup(r) => Some(r)
    case LoadLegacy(r) => Some(r)
    case LoadResources(r) => Some(r)
    case Fill(r) => Some(r)
    case _ => None
  }

  lemma OtherRequests(t: State, act: Act, r: int)
    requires Actor(act) != Some(r) && r in Next(t, act).requests
    ensures r in t.requests && Next(t, act).requests[r] == t.requests[r]
  {
    hide Merge, Hit;
  }

  lemma ServedOk(s: State, acts: seq<Act>, n: nat, r: int)
    requires n < |acts| && Inv(s, acts, n) && acts[n] == Lookup(r)
    requires r in At(s, acts, n + 1).requests
    ensures RequestOk(s, acts, n + 1, At(s, acts, n + 1).requests[r])
  {
    hide Merge;
    var t := At(s, acts, n);
    assert At(s, acts, n + 1) == Next(t, acts[n]);
    ClockRuns(s, acts, n);
    if r in t.requests {
      RequestFrame(s, acts, n, t.requests[r]);
    }
    hide At;
  }

  lemma ActingRequest(s: State, acts: seq<Act>, n: nat, r: int)
    requires n < |acts| && Inv(s, acts, n)
    requires Actor(acts[n]) == Some(r) && !acts[n].Lookup? && r in At(s, acts, n + 1).requests
    ensures RequestOk(s, acts, n + 1, At(s, acts, n + 1).requests[r])
  {
    hide Merge, Hit;
    var t := At(s, acts, n);
    assert At(s, acts, n + 1) == Next(t, acts[n]);
    ClockRuns(s, acts, n);
    hide At;
    assert RequestOk(s, acts, n, t.requests[r]);
  }

  lemma StepRequest(s: State, acts: seq<Act>, n: nat, r: int)
    requires n < |acts| && Inv(s, acts, n)
    requires r in At(s, acts, n + 1).requests
    ensures RequestOk(s, acts, n + 1, At(s, acts, n + 1).requests[r])
  {
    if acts[n] == Lookup(r) {
      ServedOk(s, acts, n, r);
    } else if Actor(acts[n]) == Some(r) {
      ActingRequest(s, acts, n, r);
    } else {
      assert At(s, acts, n + 1) == Next(At(s, acts, n), acts[n]);
      OtherRequests(At(s, acts, n), acts[n], r);
      RequestFrame(s, acts, n, At(s, acts, n).requests[r]);
      hide At, RequestOk, Next;
    }
  }

  lemma StepCache(s: State, acts: seq<Act>, n: nat)
    requires n < |acts| && Inv(s, acts, n)
    ensures var t' := At(s, acts, n + 1);
            KEY in t'.cache ==>
              && t'.cache[KEY].data.Value?
              && t'.cache[KEY].expires == t'.origin.filledAt + TTL
              && t'.origin.filledAt <= t'.now
              && MergedFrom(s, acts, n + 1, t'.cache[KEY].data.v, t'.origin.i, t'.origin.j, t'.origin.filledAt)
  {
    hide Merge, At;
    var t := At(s, acts, n);
    OneMoreStep(s, acts, n);
    ClockRuns(s, acts, n);
    if acts[n].Fill? && acts[n].r in t.requests {
      assert RequestOk(s, acts, n, t.requests[acts[n].r]);
    }
  }

  /** In every interleaving of loads, table writes, provisions and invalidations: a served catalog is
      a merge of the two tables as they stood at two moments of the run, and the older of the two is
      at most the cache lifetime plus the duration of the load that filled the cache ago. */
  lemma ServedCatalogIsRecent(s: State, acts: seq<Act>, r: int)
    requires s.steps == 0 && s.cache == map[] && s.requests == map[]
    requires var end := At(s, acts, |acts|); r in end.requests && end.requests[r].Served?
    ensures var q := At(s, acts, |acts|).requests[r];
            && q.i <= q.j <= |acts|
            && q.services == Merge(At(s, acts, q.i).legacy, At(s, acts, q.j).resources)
            && var loadDuration := q.filledAt - At(s, acts, q.i).now;
               0 <= loadDuration && q.servedAt - At(s, acts, q.j).now <= q.servedAt - At(s, acts, q.i).now <= TTL
                 + loadDuration
  {
    hide Merge, At;
    RunKeeps(s, acts, |acts|);
    var end := At(s, acts, |acts|);
    assert RequestOk(s, acts, |acts|, end.requests[r]);
  }

  // ---------------------------------------------------------------- provisioning does not invalidate

  lemma FromResourcesSnoc(a: seq<ResourceServer>, r: ResourceServer)
    ensures FromResources(a + [r]) == FromResources(a) + FromResource(r)
  {
    hide FromResource;
    assert (a + [r])[..|a|] == a;
  }

  lemma {:induction false} FromResourcesConcat(a: seq<ResourceServer>, b: seq<ResourceServer>)
    ensures FromResources(a + b) == FromResources(a) + FromResources(b)
  {
    hide FromResources;
    if b == [] {
      NoResources();
      assert a + b == a;
    } else {
      var front, last := b[..|b| - 1], b[|b| - 1];
      FromResourcesConcat(a, front);
      ConcatSnoc(a, front, last);
      assert front + [last] == b;
    }
  }

  lemma NoResources()
    ensures FromResources([]) == []
  {}

  lemma ConcatSnoc(a: seq<ResourceServer>, front: seq<ResourceServer>, last: ResourceServer)
    requires FromResources(a + front) == FromResources(a) + FromResources(front)
    ensures FromResources(a + (front + [last])) == FromResources(a) + FromResources(front + [last])
  {
    FromResourcesSnoc(a + front, last);
    FromResourcesSnoc(front, last);
    hide FromResource, FromResources;
    assert a + (front + [last]) == a + front + [last];
    var x, y, z := FromResources(a), FromResources(front), FromResource(last);
    assert (x + y) + z == x + (y + z);
  }

  lemma RowsUnfold(table: map<string, ResourceServer>)
    requires table != map[]
    ensures Rows(table) == [table[LeastKey(table)]] + Rows(table - {LeastKey(table)})
  {}

  lemma LeastKeyIsUnique(table: map<string, ResourceServer>, k: string)
    requires k in table && forall j :: j in table ==> Strings.LexLe(k, j)
    ensures LeastKey(table) == k
  {
    Strings.LexLeAntisymmetric(k, LeastKey(table));
  }

  lemma {:induction false} RowsInsert(table: map<string, ResourceServer>, r: ResourceServer) returns (i: nat)
    requires r.id !in table
    ensures i <= |Rows(table)| && Rows(table[r.id := r]) == Rows(table)[..i] + [r] + Rows(table)[i..]
    decreases |table.Keys|
  {
    hide Rows, LeastKey;
    var more := table[r.id := r];
    var k := LeastKey(more);
    RowsUnfold(more);
    if k == r.id {
      assert more - {k} == table;
      i := 0;
    } else {
      LeastKeyIsUnique(table, k);
      RowsUnfold(table);
      var rest := table - {k};
      assert more - {k} == rest[r.id := r];
      assert rest.Keys == table.Keys - {k};
      var j := RowsInsert(rest, r);
      i := j + 1;
    }
  }

  lemma {:induction false} KeptShrinks(legacy: seq<ServiceScopes>, managed: set<string>, id: string)
    requires id !in managed
    ensures |Kept(legacy, managed + {id})| <= |Kept(legacy, managed)|
    ensures Kept(legacy, managed + {id}) == Kept(legacy, managed) <==>
              forall svc :: svc in legacy ==> LegacyId(svc.service) != id
    ensures Kept(legacy, managed + {id}) != Kept(legacy, managed) ==>
              |Kept(legacy, managed + {id})| < |Kept(legacy, managed)|
  {
    hide LegacyId;
    if legacy != [] {
      var front, last := legacy[..|legacy| - 1], legacy[|legacy| - 1];
      KeptShrinks(front, managed, id);
      assert legacy == front + [last];
    }
  }

  /** Provisioning clears no cache. What the cache held stays right exactly when no legacy service
      row stands for the new resource. */
  lemma ProvisionStaysFreshIff(legacy: seq<ServiceScopes>, table: map<string, ResourceServer>, r: ResourceServer)
    requires r.scopes == [] && r.id !in table && forall k :: k in table ==> table[k].id == k
    ensures Merge(legacy, Rows(table[r.id := r])) == Merge(legacy, Rows(table)) <==>
              forall svc :: svc in legacy ==> LegacyId(svc.service) != r.id
  {
    hide LegacyId, Rows, Kept, FromResources, Managed;
    var rows := Rows(table);
    var i := RowsInsert(table, r);
    EmptyResourceAddsNothing(rows, i, r);
    assert r.id !in Managed(rows) by {
      ManagedRow(rows, r.id);
    }
    KeptShrinks(legacy, Managed(rows), r.id);
  }

  lemma EmptyResourceAddsNothing(rows: seq<ResourceServer>, i: nat, r: ResourceServer)
    requires i <= |rows| && r.scopes == []
    ensures var rows' := rows[..i] + [r] + rows[i..];
            FromResources(rows') == FromResources(rows) && Managed(rows') == Managed(rows) + {r.id}
  {
    hide FromResources, Managed;
    var a, b := rows[..i], rows[i..];
    assert rows == a + b;
    FromResourcesConcat(a + [r], b);
    FromResourcesConcat(a, [r]);
    FromResourcesConcat(a, b);
    NoScopesNoServices(r);
    ManagedInsert(a, b, r);
  }

  lemma NoScopesNoServices(r: ResourceServer)
    requires r.scopes == []
    ensures FromResources([r]) == []
  {
    assert [r][..0] == [];
  }

  lemma ManagedInsert(a: seq<ResourceServer>, b: seq<ResourceServer>, r: ResourceServer)
    ensures Managed(a + [r] + b) == Managed(a + b) + {r.id}
  {
    hide Managed;
    forall x ensures x in Managed(a + [r] + b) <==> x in Managed(a + b) + {r.id} {
      ManagedRow(a + [r] + b, x);
      ManagedRow(a + b, x);
    }
  }

  lemma ManagedRow(rows: seq<ResourceServer>, x: string)
    ensures x in Managed(rows) <==> exists row :: row in rows && row.id == x
  {
    if x in Managed(rows) {
      var i :| 0 <= i < |rows| && rows[i].id == x;
      assert rows[i] in rows;
    }
  }
}
