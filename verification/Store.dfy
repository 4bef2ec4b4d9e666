/**
 * The scope tables. Each database call is one atomic step on a Db value: a put that requires
 * absence, and a two-row transaction that requires the stored revision to be the expected one
 * and the history row to be absent.
 */
module Store {
  import opened Wrappers
  import opened Strings
  import opened Manifests

  datatype ResourceServer = ResourceServer(
    id: string,
    displayName: string,
    audience: string,
    publisher: string,
    scopes: seq<ScopeDefinition>,
    revision: int,
    hash: Hash,
    updatedAt: int,
    updatedBy: string,
    sourceRepository: string,
    sourceRevision: string)

  datatype ResourceRevision = ResourceRevision(
    id: string,
    revision: int,
    previousHash: Hash,
    hash: Hash,
    displayName: string,
    scopes: seq<ScopeDefinition>,
    updatedAt: int,
    updatedBy: string,
    sourceRepository: string,
    sourceRevision: string)

  /** history is keyed by (resource id, revision), the partition and padded sort key of the table. */
  datatype Db = Db(
    resources: map<string, ResourceServer>,
    history: map<(string, int), ResourceRevision>)

  function GetResource(db: Db, id: string): Option<ResourceServer> {
    if id in db.resources then Some(db.resources[id]) else None
  }

  function GetRevision(db: Db, id: string, revision: int): Option<ResourceRevision> {
    if (id, revision) in db.history then Some(db.history[(id, revision)]) else None
  }

  function CreateResource(db: Db, r: ResourceServer): Result<Db, RegistryError> {
    if r.id in db.resources then Err(ResourceAlreadyExists)
    else Ok(db.(resources := db.resources[r.id := r]))
  }

  function HistoryRow(previous: ResourceServer, next: ResourceServer): ResourceRevision {
    ResourceRevision(next.id, next.revision, previous.hash, next.hash, next.displayName, next.scopes,
                     next.updatedAt, next.updatedBy, next.sourceRepository, next.sourceRevision)
  }

  predicate CanReconcile(db: Db, previous: ResourceServer, next: ResourceServer) {
    && next.id in db.resources
    && db.resources[next.id].revision == previous.revision
    && (next.id, next.revision) !in db.history
  }

  function ReconcileResource(db: Db, previous: ResourceServer, next: ResourceServer): Result<Db, RegistryError> {
    if CanReconcile(db, previous, next) then
      Ok(Db(db.resources[next.id := next],
            db.history[(next.id, next.revision) := HistoryRow(previous, next)]))
    else
      Err(RevisionConflict)
  }

  function LeastKey<T>(table: map<string, T>): (k: string)
    requires table != map[]
    ensures k in table && forall j :: j in table ==> LexLe(k, j)
  {
    LeastKeyExists(table.Keys);
    LeastKeyUnique(table.Keys);
    var k :| k in table && forall j :: j in table ==> LexLe(k, j);
    k
  }

  /** What a database query returns for one partition: its rows in sort-key order. */
  function Rows<T(!new)>(table: map<string, T>): (rows: seq<T>)
    ensures |rows| == |table|
    ensures forall row :: row in rows <==> exists k :: k in table && table[k] == row
    decreases |table|
  {
    if table == map[] then []
    else
      var k := LeastKey(table);
      var rest := table - {k};
      assert rest.Keys == table.Keys - {k};
      assert forall j :: j in table <==> j == k || j in rest;
      assert forall j :: j in rest ==> rest[j] == table[j];
      [table[k]] + Rows(rest)
  }

  lemma {:induction false} LeastKeyExists(keys: set<string>)
    requires keys != {}
    ensures exists k :: k in keys && forall j :: j in keys ==> LexLe(k, j)
  {
    var x :| x in keys;
    LexLeReflexive(x);
    if keys == {x} {
      assert forall j :: j in keys ==> LexLe(x, j);
    } else {
      LeastKeyExists(keys - {x});
      var y :| y in keys - {x} && forall j :: j in keys - {x} ==> LexLe(y, j);
      LexLeTotal(x, y);
      if LexLe(y, x) {
        assert forall j :: j in keys ==> LexLe(y, j);
      } else {
        forall j | j in keys ensures LexLe(x, j) {
          if j != x { LexLeTransitive(x, y, j); }
        }
      }
    }
  }

  lemma LeastKeyUnique(keys: set<string>)
    ensures forall a, b | a in keys && b in keys && (forall j :: j in keys ==> LexLe(a, j))
            && (forall j :: j in keys ==> LexLe(b, j)) ::
              a == b
  {
    forall a, b | a in keys && b in keys && (forall j :: j in keys ==> LexLe(a, j))
      && (forall j :: j in keys ==> LexLe(b, j))
      ensures a == b
    {
      LexLeAntisymmetric(a, b);
    }
  }

  datatype ScopeEntry = ScopeEntry(scope: string, description: string, descriptionPT: string, m2m: bool)

  datatype ServiceScopes = ServiceScopes(
    service: string,
    name: string,
    audience: string,
    scopes: seq<ScopeEntry>,
    isInternal: bool)

  class Repository {
    var resources: map<string, ResourceServer>
    var history: map<(string, int), ResourceRevision>
    var services: map<string, ServiceScopes>

    constructor ()
      ensures Contents() == Db(map[], map[]) && services == map[]
    {
      resources, history, services := map[], map[], map[];
    }

    function Contents(): Db
      reads this
    {
      Db(resources, history)
    }

    method Create(r: ResourceServer) returns (res: Result<(), RegistryError>)
      modifies this`resources
      ensures res.Ok? <==> CreateResource(old(Contents()), r).Ok?
      ensures res.Ok? <==> r.id !in old(resources)
      ensures res.Err? ==> res.error == ResourceAlreadyExists
      ensures resources == if res.Ok? then old(resources)[r.id := r] else old(resources)
      ensures Contents() == if res.Ok? then CreateResource(old(Contents()), r).value else old(Contents())
    {
      if r.id in resources {
        return Err(ResourceAlreadyExists);
      }
      resources := resources[r.id := r];
      return Ok(());
    }

    method Get(id: string) returns (res: Result<ResourceServer, RegistryError>)
      ensures res.Ok? ==> GetResource(Contents(), id) == Some(res.value)
      ensures res.Err? ==> GetResource(Contents(), id) == None && res.error == ResourceNotFound
    {
      if id !in resources {
        return Err(ResourceNotFound);
      }
      return Ok(resources[id]);
    }

    method Reconcile(previous: ResourceServer, next: ResourceServer) returns (res: Result<(), RegistryError>)
      modifies this`resources, this`history
      ensures res.Ok? <==> ReconcileResource(old(Contents()), previous, next).Ok?
      ensures res.Ok? <==>
                && next.id in old(resources) && old(resources)[next.id].revision == previous.revision
                && (next.id, next.revision) !in old(history)
      ensures res.Err? ==> res.error == RevisionConflict
      ensures resources == if res.Ok? then old(resources)[next.id := next] else old(resources)
      ensures history ==
              if res.Ok? then
                old(history)[(next.id, next.revision) :=
                    ResourceRevision(next.id, next.revision, previous.hash, next.hash, next.displayName, next.scopes,
                                     next.updatedAt, next.updatedBy, next.sourceRepository, next.sourceRevision)]
              else old(history)
      ensures Contents() == if res.Ok? then ReconcileResource(old(Contents()), previous, next).value
              else old(Contents())
    {
      var row := ResourceRevision(next.id, next.revision, previous.hash, next.hash, next.displayName, next.scopes,
                                  next.updatedAt, next.updatedBy, next.sourceRepository, next.sourceRevision);
      if next.id !in resources || resources[next.id].revision != previous.revision
        || (next.id, next.revision) in history {
        return Err(RevisionConflict);
      }
      resources := resources[next.id := next];
      history := history[(next.id, next.revision) := row];
      return Ok(());
    }

    method Revision(id: string, revision: int) returns (res: Result<ResourceRevision, RegistryError>)
      ensures res.Ok? ==> GetRevision(Contents(), id, revision) == Some(res.value)
      ensures res.Err? ==> GetRevision(Contents(), id, revision) == None && res.error == ResourceNotFound
    {
      if (id, revision) !in history {
        return Err(ResourceNotFound);
      }
      return Ok(history[(id, revision)]);
    }

    method LoadResources() returns (rows: seq<ResourceServer>)
      ensures rows == Rows(resources)
    {
      rows := Rows(resources);
    }

    method LoadCatalog() returns (rows: seq<ServiceScopes>)
      ensures rows == Rows(services)
    {
      rows := Rows(services);
    }

    method PutService(svc: ServiceScopes)
      modifies this`services
      ensures services == old(services)[svc.service := svc]
    {
      services := services[svc.service := svc];
    }
  }
}
