/**
 * Any number of publishers, restorers, booting instances and operators, interleaved one database
 * call at a time: what every reachable state of the registry looks like.
 */
module RegistrySafety {
  import opened Wrappers
  import opened Strings
  import opened Manifests
  import opened Store
  import opened Registry
  import opened RegistryAnswers

  /** Who wrote a history row; recorded for stating properties only. */
  datatype Writer = ByPublish | ByRestore(of: int)

  datatype World = World(db: Db, clients: map<int, Pc>, writers: map<(string, int), Writer>)

  datatype Act = Begin(client: int, pc: Pc) | Advance(client: int, now: int)

  predicate OwnableId(id: string) {
    ValidResourceId(id) && id != IDENTITY_SERVICE && id != INTERNAL_PREFIX
  }

  /** A resource as provisioned: no content yet, under an id a manifest could own. */
  predicate FreshResource(r: ResourceServer) {
    r.revision == 0 && r.hash == Unset && r.scopes == [] && OwnableId(r.id)
  }

  /** The states an operation can begin in. */
  predicate Startable(pc: Pc) {
    || (pc.PublishRead? && pc.boot == None)
    || pc.RestoreRead?
    || pc.BootRead?
    || (pc.ProvisionCreate? && FreshResource(pc.initial))
  }

  function Recorded(db: Db, writers: map<(string, int), Writer>, pc: Pc): map<(string, int), Writer> {
    if pc.PublishWrite? && CanReconcile(db, pc.previous, pc.next) then
      writers[(pc.next.id, pc.next.revision) := ByPublish]
    else if pc.RestoreWrite? && CanReconcile(db, pc.previous, pc.next) then
      writers[(pc.next.id, pc.next.revision) := ByRestore(pc.restore.revision)]
    else writers
  }

  /** One action; an action that does not apply changes nothing. */
  function Next(w: World, act: Act): World {
    match act
    case Begin(c, pc) =>
      if Startable(pc) && (c in w.clients ==> w.clients[c].Done?) then w.(clients := w.clients[c := pc]) else w
    case Advance(c, now) =>
      if c !in w.clients then w
      else
        var (db', pc') := Step(w.db, w.clients[c], now);
        World(db', w.clients[c := pc'], Recorded(w.db, w.writers, w.clients[c]))
  }

  function Exec(w: World, acts: seq<Act>): World {
    if acts == [] then w else Next(Exec(w, acts[..|acts| - 1]), acts[|acts| - 1])
  }

  const Empty := World(Db(map[], map[]), map[], map[])

  // ---------------------------------------------------------------- what holds of the tables

  predicate ContentOk(row: ResourceRevision) {
    && ValidManifest(SnapshotManifest(row))
    && Canonical(SnapshotManifest(row)) == SnapshotManifest(row)
    && row.hash == ManifestHash(SnapshotManifest(row))
  }

  predicate RowOk(db: Db, id: string, n: int) {
    && (id, n) in db.history
    && db.history[(id, n)].id == id
    && db.history[(id, n)].revision == n
    && ContentOk(db.history[(id, n)])
    && (if n == 1 then db.history[(id, n)].previousHash == Unset
        else (id, n - 1) in db.history && db.history[(id, n)].previousHash == db.history[(id, n - 1)].hash)
  }

  /** The current row and a history row say the same. */
  predicate Mirrors(r: ResourceServer, row: ResourceRevision) {
    row == ResourceRevision(r.id, r.revision, row.previousHash, r.hash, r.displayName, r.scopes,
                            r.updatedAt, r.updatedBy, r.sourceRepository, r.sourceRevision)
  }

  ghost predicate ResourceOk(db: Db, id: string)
    requires id in db.resources
  {
    var r := db.resources[id];
    && r.id == id
    && r.revision >= 0
    && (forall n :: 1 <= n <= r.revision ==> RowOk(db, id, n))
    && (if r.revision == 0 then FreshResource(r)
        else (id, r.revision) in db.history && Mirrors(r, db.history[(id, r.revision)]))
  }

  ghost predicate TablesOk(db: Db) {
    && (forall id :: id in db.resources ==> ResourceOk(db, id))
    && (forall id, n :: (id, n) in db.history ==> id in db.resources && 1 <= n <= db.resources[id].revision)
  }

  predicate WriterOk(db: Db, id: string, n: int, w: Writer)
    requires (id, n) in db.history
  {
    match w
    case ByPublish => (id, n - 1) in db.history ==>
      NoActiveRemoval(db.history[(id, n - 1)].scopes, db.history[(id, n)].scopes)
    case ByRestore(k) =>
      && 1 <= k < n && (id, k) in db.history
      && db.history[(id, n)].displayName == db.history[(id, k)].displayName
      && db.history[(id, n)].scopes == db.history[(id, k)].scopes
      && db.history[(id, n)].hash == db.history[(id, k)].hash
  }

  ghost predicate WritersOk(db: Db, writers: map<(string, int), Writer>) {
    && writers.Keys == db.history.Keys
    && forall id, n :: (id, n) in db.history ==> WriterOk(db, id, n, writers[(id, n)])
  }

  // ---------------------------------------------------------------- what a client may rely on

  /** A row read earlier: still the current one, or overtaken by a higher revision. */
  predicate ReadEarlier(db: Db, r: ResourceServer) {
    && r.id in db.resources
    && r.revision <= db.resources[r.id].revision
    && (r.revision == db.resources[r.id].revision ==> r == db.resources[r.id])
  }

  predicate ClientOk(db: Db, pc: Pc) {
    match pc
    case PublishWrite(a, _, previous, next) =>
      && ReadEarlier(db, previous)
      && ValidManifest(a.manifest)
      && a.manifest.resourceServerId == previous.id
      && previous.publisher == a.actor && previous.revision == a.expected
      && NoActiveRemoval(previous.scopes, a.manifest.scopes)
      && next == Candidate(previous, a, next.updatedAt)
    case RestoreSnapshot(r, current) => ReadEarlier(db, current) && current.id == r.id && current.revision == r.expected
    case RestoreWrite(r, previous, next) =>
      && ReadEarlier(db, previous) && previous.id == r.id && previous.revision == r.expected
      && (r.id, r.revision) in db.history
      && next == RestoreCandidate(previous, db.history[(r.id, r.revision)], r, next.updatedAt)
    case ProvisionCreate(initial) => FreshResource(initial)
    case _ => true
  }

  ghost predicate Inv(w: World) {
    && TablesOk(w.db)
    && WritersOk(w.db, w.writers)
    && forall c :: c in w.clients ==> ClientOk(w.db, w.clients[c])
  }

  // ---------------------------------------------------------------- how the tables may change

  /** Rows are added, never rewritten or removed; a current row moves to the next revision only,
      and keeps its audience and publisher. */
  ghost predicate Grows(db: Db, db': Db) {
    && (forall k :: k in db.history ==> k in db'.history && db'.history[k] == db.history[k])
    && (forall id :: id in db.resources ==>
          && id in db'.resources
          && db'.resources[id].audience == db.resources[id].audience
          && db'.resources[id].publisher == db.resources[id].publisher
          && (db'.resources[id] == db.resources[id] || db'.resources[id].revision > db.resources[id].revision))
  }

  lemma GrowsTransitive(a: Db, b: Db, c: Db)
    requires Grows(a, b) && Grows(b, c)
    ensures Grows(a, c)
  {}

  lemma ClientOkFrame(db: Db, db': Db, pc: Pc)
    requires Grows(db, db') && ClientOk(db, pc)
    ensures ClientOk(db', pc)
  {
    hide ValidManifest, NoActiveRemoval, Canonical, ManifestHash;
  }

  lemma CreateKeeps(db: Db, writers: map<(string, int), Writer>, r: ResourceServer)
    requires TablesOk(db) && WritersOk(db, writers)
    requires FreshResource(r) && r.id !in db.resources
    ensures var db' := db.(resources := db.resources[r.id := r]);
            TablesOk(db') && WritersOk(db', writers) && Grows(db, db')
  {
    hide ContentOk, NoActiveRemoval;
    var db' := db.(resources := db.resources[r.id := r]);
    forall id | id in db'.resources ensures ResourceOk(db', id) {
      if id != r.id {
        assert ResourceOk(db, id);
        forall n | 1 <= n <= db'.resources[id].revision ensures RowOk(db', id, n) {
          assert RowOk(db, id, n);
        }
      }
    }
    forall id, n | (id, n) in db'.history ensures WriterOk(db', id, n, writers[(id, n)]) {
      assert WriterOk(db, id, n, writers[(id, n)]);
    }
  }

  /** The heart of the protocol: a transaction that passes its revision condition was computed from
      the row it replaces, so what was checked on the read holds of the predecessor. */
  lemma ReconcileKeepsTables(db: Db, previous: ResourceServer, next: ResourceServer)
    requires TablesOk(db)
    requires ReadEarlier(db, previous) && CanReconcile(db, previous, next)
    requires next.id == previous.id && next.revision == previous.revision + 1
    requires next.audience == previous.audience && next.publisher == previous.publisher
    requires ContentOk(HistoryRow(previous, next))
    ensures previous == db.resources[next.id]
    ensures TablesOk(ReconcileResource(db, previous, next).value)
    ensures Grows(db, ReconcileResource(db, previous, next).value)
  {
    NewRowIsOk(db, previous, next);
    ReconcileGrows(db, previous, next);
    hide ContentOk, RowOk, HistoryRow, ResourceOk, Grows, HistoryInside;
    var db' := ReconcileResource(db, previous, next).value;
    forall id | id in db'.resources ensures ResourceOk(db', id) {
      ResourceFrame(db, previous, next, id);
    }
    TablesFrom(db');
  }

  ghost predicate HistoryInside(db: Db) {
    forall id, n :: (id, n) in db.history ==> id in db.resources && 1 <= n <= db.resources[id].revision
  }

  lemma TablesFrom(db: Db)
    requires HistoryInside(db) && forall id :: id in db.resources ==> ResourceOk(db, id)
    ensures TablesOk(db)
  {
    hide ResourceOk;
  }

  lemma ReconcileGrows(db: Db, previous: ResourceServer, next: ResourceServer)
    requires TablesOk(db)
    requires ReadEarlier(db, previous) && CanReconcile(db, previous, next)
    requires next.id == previous.id && next.revision == previous.revision + 1 && next.revision >= 1
    requires next.audience == previous.audience && next.publisher == previous.publisher
    ensures HistoryInside(ReconcileResource(db, previous, next).value)
    ensures Grows(db, ReconcileResource(db, previous, next).value)
  {
    hide ResourceOk, HistoryRow;
  }

  lemma NewRowIsOk(db: Db, previous: ResourceServer, next: ResourceServer)
    requires TablesOk(db)
    requires ReadEarlier(db, previous) && CanReconcile(db, previous, next)
    requires next.id == previous.id && next.revision == previous.revision + 1
    requires ContentOk(HistoryRow(previous, next))
    ensures previous == db.resources[next.id] && next.revision >= 1
    ensures RowOk(ReconcileResource(db, previous, next).value, next.id, next.revision)
  {
    hide ContentOk;
    assert ResourceOk(db, previous.id);
    if next.revision > 1 {
      assert RowOk(db, next.id, next.revision - 1);
    }
  }

  lemma ResourceFrame(db: Db, previous: ResourceServer, next: ResourceServer, id: string)
    requires TablesOk(db) && id in db.resources
    requires GetResource(db, previous.id) == Some(previous) && CanReconcile(db, previous, next)
    requires next.id == previous.id && next.revision == previous.revision + 1
    requires RowOk(ReconcileResource(db, previous, next).value, next.id, next.revision)
    ensures ResourceOk(ReconcileResource(db, previous, next).value, id)
  {
    hide ContentOk;
    var db' := ReconcileResource(db, previous, next).value;
    assert ResourceOk(db, id);
    forall n | 1 <= n <= db'.resources[id].revision ensures RowOk(db', id, n) {
      if (id, n) != (next.id, next.revision) {
        assert RowOk(db, id, n);
      }
    }
  }

  lemma ReconcileKeepsWriters(db: Db, writers: map<(string, int), Writer>, previous: ResourceServer,
                              next: ResourceServer, writer: Writer)
    requires TablesOk(db) && WritersOk(db, writers)
    requires GetResource(db, previous.id) == Some(previous) && CanReconcile(db, previous, next)
    requires next.id == previous.id && next.revision == previous.revision + 1
    requires match writer
             case ByPublish => NoActiveRemoval(previous.scopes, next.scopes)
             case ByRestore(k) =>
               && (next.id, k) in db.history
               && next.displayName == db.history[(next.id, k)].displayName
               && next.scopes == db.history[(next.id, k)].scopes
               && next.hash == db.history[(next.id, k)].hash
    ensures WritersOk(ReconcileResource(db, previous, next).value, writers[(next.id, next.revision) := writer])
  {
    hide ContentOk, NoActiveRemoval;
    var db' := ReconcileResource(db, previous, next).value;
    var key := (next.id, next.revision);
    var writers' := writers[key := writer];
    assert ResourceOk(db, previous.id);
    forall id, n | (id, n) in db'.history ensures WriterOk(db', id, n, writers'[(id, n)]) {
      if (id, n) != key {
        assert WriterOk(db, id, n, writers[(id, n)]);
        assert (id, n - 1) != key;
      }
    }
  }

  /** Content produced from a valid manifest passes the row check. */
  lemma PublishedContent(previous: ResourceServer, a: PublishArgs, now: int)
    requires ValidManifest(a.manifest) && a.manifest.resourceServerId == previous.id
    ensures ContentOk(HistoryRow(previous, Candidate(previous, a, now)))
    ensures NoActiveRemoval(previous.scopes, a.manifest.scopes) ==>
              NoActiveRemoval(previous.scopes, Candidate(previous, a, now).scopes)
  {
    var m := a.manifest;
    CanonicalIsValid(m);
    CanonicalIdempotent(m);
    assert SnapshotManifest(HistoryRow(previous, Candidate(previous, a, now))) == Canonical(m) by {
      hide Canonical;
    }
    if NoActiveRemoval(previous.scopes, m.scopes) {
      forall i | 0 <= i < |previous.scopes| && previous.scopes[i].status == STATUS_ACTIVE
        ensures Lists(Canonical(m).scopes, previous.scopes[i].scope)
      {
        CanonicalKeepsNames(m, previous.scopes[i].scope);
      }
    }
  }

  /** A restore reproduces the snapshot: same name, same scopes, same hash. */
  lemma RestoredContent(previous: ResourceServer, row: ResourceRevision, r: RestoreArgs, now: int)
    requires ContentOk(row) && row.id == r.id == previous.id
    ensures var next := RestoreCandidate(previous, row, r, now);
            && ContentOk(HistoryRow(previous, next))
            && next.displayName == row.displayName && next.scopes == row.scopes && next.hash == row.hash
  {
    hide ValidManifest, Canonical;
  }

  // ---------------------------------------------------------------- one step

  lemma PublishWriteTables(w: World, c: int, now: int)
    requires Inv(w) && c in w.clients && w.clients[c].PublishWrite?
    ensures var w' := Next(w, Advance(c, now));
            TablesOk(w'.db) && WritersOk(w'.db, w'.writers) && Grows(w.db, w'.db)
  {
    hide ValidManifest, NoActiveRemoval, Canonical, ManifestHash, ContentOk, TablesOk, WritersOk;
    var pc := w.clients[c];
    assert ClientOk(w.db, pc);
    if CanReconcile(w.db, pc.previous, pc.next) {
      PublishedContent(pc.previous, pc.args, pc.next.updatedAt);
      ReconcileKeepsTables(w.db, pc.previous, pc.next);
      ReconcileKeepsWriters(w.db, w.writers, pc.previous, pc.next, ByPublish);
    }
  }

  lemma RestoreWriteTables(w: World, c: int, now: int)
    requires Inv(w) && c in w.clients && w.clients[c].RestoreWrite?
    ensures var w' := Next(w, Advance(c, now));
            TablesOk(w'.db) && WritersOk(w'.db, w'.writers) && Grows(w.db, w'.db)
  {
    hide ValidManifest, NoActiveRemoval, Canonical, ManifestHash, ContentOk, TablesOk, WritersOk;
    var pc := w.clients[c];
    assert ClientOk(w.db, pc);
    if CanReconcile(w.db, pc.previous, pc.next) {
      var row := w.db.history[(pc.restore.id, pc.restore.revision)];
      RestoreSource(w.db, pc.restore.id, pc.restore.revision);
      RestoredContent(pc.previous, row, pc.restore, pc.next.updatedAt);
      ReconcileKeepsTables(w.db, pc.previous, pc.next);
      ReconcileKeepsWriters(w.db, w.writers, pc.previous, pc.next, ByRestore(pc.restore.revision));
    }
  }

  lemma AdvanceTables(w: World, c: int, now: int)
    requires Inv(w) && c in w.clients
    ensures var w' := Next(w, Advance(c, now));
            && TablesOk(w'.db) && WritersOk(w'.db, w'.writers) && Grows(w.db, w'.db)
  {
    hide ValidManifest, NoActiveRemoval, Canonical, ManifestHash, ContentOk, AfterPublishRead, TablesOk, WritersOk;
    var pc := w.clients[c];
    match pc {
      case PublishWrite(_, _, _, _) =>
        hide Next;
        PublishWriteTables(w, c, now);
      case RestoreWrite(_, _, _) =>
        hide Next;
        RestoreWriteTables(w, c, now);
      case BootCreate(b) =>
        if ACCOUNT_RESOURCE_ID !in w.db.resources {
          CreateKeeps(w.db, w.writers, InitialAccount(b, now));
        }
      case ProvisionCreate(initial) =>
        assert ClientOk(w.db, pc);
        if initial.id !in w.db.resources {
          CreateKeeps(w.db, w.writers, initial);
        }
      case _ =>
    }
  }

  lemma RestoreSource(db: Db, id: string, n: int)
    requires TablesOk(db) && (id, n) in db.history
    ensures ContentOk(db.history[(id, n)]) && db.history[(id, n)].id == id
  {
    hide ContentOk;
    assert ResourceOk(db, id);
    assert RowOk(db, id, n);
  }

  lemma CurrentIsRead(db: Db, id: string)
    requires TablesOk(db) && id in db.resources
    ensures db.resources[id].id == id && ReadEarlier(db, db.resources[id])
  {
    assert ResourceOk(db, id);
  }

  lemma PublishReadClient(w: World, a: PublishArgs, boot: Option<BootArgs>, now: int)
    requires TablesOk(w.db)
    ensures var (db', pc') := Step(w.db, PublishRead(a, boot), now); ClientOk(db', pc')
  {
    hide NoActiveRemoval, ManifestHash, ValidManifest, TablesOk, Candidate;
    var id := a.manifest.resourceServerId;
    if id in w.db.resources {
      CurrentIsRead(w.db, id);
      assert Candidate(w.db.resources[id], a, Candidate(w.db.resources[id], a, now).updatedAt) ==
          Candidate(w.db.resources[id], a, now) by {
        CandidateClock(w.db.resources[id], a, now);
      }
    }
  }

  lemma CandidateClock(previous: ResourceServer, a: PublishArgs, now: int)
    ensures Candidate(previous, a, now).updatedAt == now
  {
    hide Canonical;
  }

  lemma AdvanceClient(w: World, c: int, now: int)
    requires Inv(w) && c in w.clients
    requires TablesOk(Step(w.db, w.clients[c], now).0)
    ensures var (db', pc') := Step(w.db, w.clients[c], now); ClientOk(db', pc')
  {
    hide NoActiveRemoval, Canonical, ManifestHash, ValidManifest, TablesOk, WritersOk, AfterPublishRead;
    var pc := w.clients[c];
    assert ClientOk(w.db, pc);
    match pc {
      case PublishRead(a, boot) =>
        hide Step;
        PublishReadClient(w, a, boot, now);
      case RestoreRead(r) =>
        if r.id in w.db.resources {
          CurrentIsRead(w.db, r.id);
        }
      case _ =>
    }
  }

  lemma NextKeeps(w: World, act: Act)
    requires Inv(w)
    ensures Inv(Next(w, act))
    ensures Grows(w.db, Next(w, act).db)
  {
    hide Step, TablesOk, WritersOk, ClientOk;
    match act {
      case Begin(c, pc) =>
        BeginClient(w.db, pc);
      case Advance(c, now) =>
        if c in w.clients {
          AdvanceTables(w, c, now);
          AdvanceClient(w, c, now);
          forall d | d in w.clients ensures ClientOk(Next(w, act).db, w.clients[d]) {
            ClientOkFrame(w.db, Next(w, act).db, w.clients[d]);
          }
        }
    }
  }

  lemma BeginClient(db: Db, pc: Pc)
    ensures Startable(pc) ==> ClientOk(db, pc)
  {}

  // ---------------------------------------------------------------- all runs

  lemma {:induction false} RunKeeps(w: World, acts: seq<Act>)
    requires Inv(w)
    ensures Inv(Exec(w, acts))
    ensures Grows(w.db, Exec(w, acts).db)
  {
    if acts != [] {
      var before := acts[..|acts| - 1];
      RunKeeps(w, before);
      NextKeeps(Exec(w, before), acts[|acts| - 1]);
      GrowsTransitive(w.db, Exec(w, before).db, Exec(w, acts).db);
    }
  }

  lemma {:induction false} PrefixKeeps(acts: seq<Act>, i: nat)
    requires i <= |acts|
    ensures Inv(Exec(Empty, acts[..i]))
    ensures Grows(Exec(Empty, acts[..i]).db, Exec(Empty, acts).db)
    decreases |acts| - i
  {
    RunKeeps(Empty, acts[..i]);
    if i < |acts| {
      PrefixKeeps(acts, i + 1);
      assert acts[..i + 1][..i] == acts[..i];
      NextKeeps(Exec(Empty, acts[..i]), acts[i]);
      GrowsTransitive(Exec(Empty, acts[..i]).db, Exec(Empty, acts[..i + 1]).db, Exec(Empty, acts).db);
    } else {
      assert acts[..i] == acts;
    }
  }

  /** A resource at revision n has exactly the history rows 1..n; row n says what the current row
      says, and each row carries the hash of the row before it. */
  ghost predicate ExactHistory(db: Db, id: string) {
    if id in db.resources then
      var r := db.resources[id];
      && (forall n :: (id, n) in db.history <==> 1 <= n <= r.revision)
      && (r.revision >= 1 ==> Mirrors(r, db.history[(id, r.revision)]))
      && (r.revision >= 1 ==> db.history[(id, 1)].previousHash == Unset)
      && (forall n :: 2 <= n <= r.revision ==> db.history[(id, n)].previousHash == db.history[(id, n - 1)].hash)
      && (forall n :: 1 <= n <= r.revision ==> ContentOk(db.history[(id, n)]))
    else
      forall n :: (id, n) !in db.history
  }

  lemma TablesAreExact(db: Db, id: string)
    requires TablesOk(db)
    ensures ExactHistory(db, id)
  {
    hide ContentOk;
    if id in db.resources {
      assert ResourceOk(db, id);
      forall n | 1 <= n <= db.resources[id].revision
        ensures (id, n) in db.history && ContentOk(db.history[(id, n)])
        ensures if n == 1 then db.history[(id, n)].previousHash == Unset
                else (id, n - 1) in db.history && db.history[(id, n)].previousHash == db.history[(id, n - 1)].hash
      {
        assert RowOk(db, id, n);
      }
      assert db.resources[id].revision >= 1 ==> RowOk(db, id, 1);
    }
  }

  lemma HistoryIsExact(acts: seq<Act>, id: string)
    ensures ExactHistory(Exec(Empty, acts).db, id)
  {
    hide *;
    RunKeeps(Empty, acts) by {
      EmptyIsOk();
    }
    InvTables(Exec(Empty, acts));
    TablesAreExact(Exec(Empty, acts).db, id);
  }

  lemma EmptyIsOk()
    ensures Inv(Empty)
  {}

  lemma InvTables(w: World)
    requires Inv(w)
    ensures TablesOk(w.db)
  {}

  /** No history row is ever rewritten, no revision goes back, and the audience and the owner of a
      resource never change, between any two moments of a run. */
  lemma NothingIsRewritten(acts: seq<Act>, i: nat, j: nat)
    requires i <= j <= |acts|
    ensures Grows(Exec(Empty, acts[..i]).db, Exec(Empty, acts[..j]).db)
  {
    PrefixKeeps(acts[..j], i);
    assert acts[..j][..i] == acts[..i];
  }

  predicate Writing(pc: Pc) {
    pc.PublishWrite? || pc.RestoreWrite?
  }

  /** A write that succeeds was computed from the whole row it replaces, not merely from one of the
      same revision: it becomes the next revision of that row and adds one history row. */
  lemma WritesFollowTheirPredecessor(acts: seq<Act>, c: int, now: int)
    requires var w := Exec(Empty, acts); c in w.clients && Writing(w.clients[c])
    ensures var w := Exec(Empty, acts);
            var w' := Next(w, Advance(c, now));
            var pc := w.clients[c];
            if w'.db == w.db then
              !CanReconcile(w.db, pc.previous, pc.next)
            else
              var key := (pc.previous.id, pc.previous.revision + 1);
              && GetResource(w.db, pc.previous.id) == Some(pc.previous)
              && GetResource(w'.db, pc.previous.id) == Some(pc.next)
              && w'.db.history.Keys == w.db.history.Keys + {key} && key !in w.db.history
              && w'.db.history[key] == HistoryRow(pc.previous, pc.next)
              && w'.clients[c] == Done(Stored(pc.next, true))
  {
    hide ValidManifest, NoActiveRemoval, Canonical, ManifestHash, ContentOk, WritersOk, Exec;
    RunKeeps(Empty, acts);
    var w := Exec(Empty, acts);
    assert ClientOk(w.db, w.clients[c]);
  }

  /** The condition on the history row is redundant: the revision condition alone decides. */
  lemma RevisionConditionDecides(acts: seq<Act>, c: int)
    requires var w := Exec(Empty, acts); c in w.clients && Writing(w.clients[c])
    ensures var w := Exec(Empty, acts);
            var pc := w.clients[c];
            && pc.next.id in w.db.resources
            && (CanReconcile(w.db, pc.previous, pc.next) <==>
                w.db.resources[pc.next.id].revision == pc.previous.revision)
  {
    hide ValidManifest, NoActiveRemoval, Canonical, ManifestHash, ContentOk, WritersOk, Exec;
    RunKeeps(Empty, acts);
    var w := Exec(Empty, acts);
    assert ClientOk(w.db, w.clients[c]);
  }

  /** A scope active at revision n is still listed at revision n + 1 unless a restore wrote n + 1. */
  lemma ActiveScopesSurvive(acts: seq<Act>, id: string, n: int, i: nat)
    requires var db := Exec(Empty, acts).db;
             && (id, n) in db.history && (id, n + 1) in db.history
             && i < |db.history[(id, n)].scopes| && db.history[(id, n)].scopes[i].status == STATUS_ACTIVE
    ensures var w := Exec(Empty, acts);
            && (id, n + 1) in w.writers
            && (w.writers[(id, n + 1)].ByRestore?
                || Lists(w.db.history[(id, n + 1)].scopes, w.db.history[(id, n)].scopes[i].scope))
  {
    hide TablesOk, ClientOk, Exec;
    RunKeeps(Empty, acts);
    var w := Exec(Empty, acts);
    assert WriterOk(w.db, id, n + 1, w.writers[(id, n + 1)]);
  }

  /** A revision written by restoring revision k has k's name, scopes and hash. */
  lemma RestoreReproduces(acts: seq<Act>, id: string, n: int)
    requires var w := Exec(Empty, acts); (id, n) in w.writers && w.writers[(id, n)].ByRestore?
    ensures var w := Exec(Empty, acts);
            var k := w.writers[(id, n)].of;
            && 1 <= k < n
            && (id, n) in w.db.history && (id, k) in w.db.history
            && w.db.history[(id, n)].displayName == w.db.history[(id, k)].displayName
            && w.db.history[(id, n)].scopes == w.db.history[(id, k)].scopes
            && w.db.history[(id, n)].hash == w.db.history[(id, k)].hash
  {
    hide TablesOk, ClientOk, Exec;
    RunKeeps(Empty, acts);
    var w := Exec(Empty, acts);
    assert WriterOk(w.db, id, n, w.writers[(id, n)]);
  }

  // ---------------------------------------------------------------- every write is what was asked for

  /** The request this write carries was made when its client began, and a bootstrap publishes its manifest
      as the system. */
  ghost predicate Asked(acts: seq<Act>, c: int, pc: Pc) {
    match pc
    case PublishRead(a, None) => Began(acts, c, pc)
    case PublishWrite(a, None, _, _) => Began(acts, c, PublishRead(a, None))
    case PublishRead(a, Some(b)) => Began(acts, c, BootRead(b)) && AsSystem(a, b)
    case PublishWrite(a, Some(b), _, _) => Began(acts, c, BootRead(b)) && AsSystem(a, b)
    case BootRead(b) => Began(acts, c, pc)
    case BootCreate(b) => Began(acts, c, BootRead(b))
    case BootReread(b) => Began(acts, c, BootRead(b))
    case RestoreRead(_) => Began(acts, c, pc)
    case RestoreSnapshot(r, _) => Began(acts, c, RestoreRead(r))
    case RestoreWrite(r, _, _) => Began(acts, c, RestoreRead(r))
    case _ => true
  }

  ghost predicate Began(acts: seq<Act>, c: int, pc: Pc) {
    exists i :: 0 <= i < |acts| && acts[i] == Begin(c, pc)
  }

  predicate AsSystem(a: PublishArgs, b: BootArgs) {
    && a.actor == "system://ctech-account" && a.manifest == b.manifest
    && a.sourceRepository == "ctech-account" && a.sourceRevision == b.sourceRevision
  }

  lemma AskedLasts(acts: seq<Act>, act: Act, c: int, pc: Pc)
    requires Asked(acts, c, pc)
    ensures Asked(acts + [act], c, pc)
  {
    forall q | Began(acts, c, q) ensures Began(acts + [act], c, q) {
      var i :| 0 <= i < |acts| && acts[i] == Begin(c, q);
      assert (acts + [act])[i] == Begin(c, q);
    }
  }

  lemma BeginAsked(acts: seq<Act>, c: int, pc: Pc)
    requires Startable(pc)
    ensures Asked(acts + [Begin(c, pc)], c, pc)
  {
    assert (acts + [Begin(c, pc)])[|acts|] == Begin(c, pc);
  }

  lemma StepAsked(acts: seq<Act>, c: int, db: Db, pc: Pc, now: int)
    requires Asked(acts, c, pc)
    ensures Asked(acts, c, Step(db, pc, now).1)
  {
    hide Began, ValidManifest, NoActiveRemoval, ManifestHash, Candidate, RestoreCandidate, ReconcileResource;
  }

  lemma {:induction false} RunAsked(acts: seq<Act>, c: int)
    ensures var w := Exec(Empty, acts); c in w.clients ==> Asked(acts, c, w.clients[c])
  {
    hide Step, Startable, Asked;
    if acts != [] {
      var before, act := acts[..|acts| - 1], acts[|acts| - 1];
      assert acts == before + [act];
      RunAsked(before, c);
      var w := Exec(Empty, before);
      if c in w.clients {
        AskedLasts(before, act, c, w.clients[c]);
      }
      if act.Begin? && Startable(act.pc) {
        BeginAsked(before, act.client, act.pc);
      }
      if act.Advance? && act.client == c && c in w.clients {
        StepAsked(acts, c, w.db, w.clients[c], act.now);
      }
    }
  }

  /** What a publish that writes replaces: a row of its own publisher, at the revision the request named,
      none of whose active scopes the manifest drops; and what it stores is that manifest, canonically. */
  predicate PublishesAsAsked(a: PublishArgs, replaced: ResourceServer, stored: ResourceServer, when: int) {
    && ValidManifest(a.manifest) && replaced.id == a.manifest.resourceServerId
    && replaced.publisher == a.actor && replaced.revision == a.expected
    && !DropsActive(replaced, a.manifest)
    && Continues(replaced, stored, a.manifest, a.actor, a.sourceRepository, a.sourceRevision, when)
  }

  /** What a restore that writes replaces: the row whose revision the operator named; and what it stores is
      the snapshot the operator named. */
  predicate RestoresAsAsked(history: map<(string, int), ResourceRevision>, r: RestoreArgs, replaced: ResourceServer,
                            stored: ResourceServer, when: int) {
    && replaced.id == r.id && replaced.revision == r.expected && (r.id, r.revision) in history
    && var snapshot := history[(r.id, r.revision)];
       && stored.displayName == snapshot.displayName && stored.scopes == snapshot.scopes
       && stored.hash == snapshot.hash
       && Continues(replaced, stored, Manifest(1, r.id, snapshot.displayName, snapshot.scopes), r.actor,
                    "operator-restore", "revision-" + Decimal(r.revision), when)
  }

  /** The write at pc took a row of db to one of db', and a request of client c asked for exactly that. */
  ghost predicate AsAsked(db: Db, db': Db, acts: seq<Act>, c: int, pc: Pc)
    requires Writing(pc)
  {
    var id := pc.previous.id;
    && id in db.resources && id in db'.resources
    && var replaced, stored := db.resources[id], db'.resources[id];
       && Replaced(db, db', replaced, stored)
       && match pc
          case PublishWrite(a, boot, _, _) =>
            && PublishesAsAsked(a, replaced, stored, stored.updatedAt)
            && if boot.Some? then Began(acts, c, BootRead(boot.value)) && AsSystem(a, boot.value)
               else Began(acts, c, PublishRead(a, None))
          case RestoreWrite(r, _, _) =>
            && RestoresAsAsked(db.history, r, replaced, stored, stored.updatedAt)
            && Began(acts, c, RestoreRead(r))
  }

  /** In every interleaving: whenever a write changes the tables, somebody asked for it with a request that
      named the revision of the very row it replaces. No restore overwrites a revision its operator had not
      seen, and no publish one its publisher had not. */
  lemma WritesAreAsAsked(acts: seq<Act>, c: int, now: int)
    requires var w := Exec(Empty, acts); c in w.clients && Writing(w.clients[c])
    requires Next(Exec(Empty, acts), Advance(c, now)).db != Exec(Empty, acts).db
    ensures var w := Exec(Empty, acts);
            var w' := Next(w, Advance(c, now));
            var id := w.clients[c].previous.id;
            && id in w'.db.resources && w'.clients[c] == Done(Stored(w'.db.resources[id], true))
            && AsAsked(w.db, w'.db, acts, c, w.clients[c])
  {
    hide *;
    WritesFollowTheirPredecessor(acts, c, now);
    RunKeeps(Empty, acts) by {
      EmptyIsOk();
    }
    RunAsked(acts, c);
    WriteAsAsked(Exec(Empty, acts), acts, c, now);
  }

  lemma WriteAsAsked(w: World, acts: seq<Act>, c: int, now: int)
    requires Inv(w) && c in w.clients && Writing(w.clients[c]) && Asked(acts, c, w.clients[c])
    requires Next(w, Advance(c, now)).db != w.db
    ensures var w' := Next(w, Advance(c, now));
            var id := w.clients[c].previous.id;
            && id in w'.db.resources && w'.clients[c] == Done(Stored(w'.db.resources[id], true))
            && AsAsked(w.db, w'.db, acts, c, w.clients[c])
  {
    hide ValidManifest, NoActiveRemoval, Canonical, ManifestHash, ContentOk, WritersOk, TablesOk, Continues,
      DropsActive, Began, FromManifest;
    var pc := w.clients[c];
    assert ClientOk(w.db, pc);
    if pc.PublishWrite? {
      DropsActiveMeans(pc.previous, pc.args.manifest);
      FromManifestContinues(pc.previous, pc.args.manifest, pc.args.actor, pc.args.sourceRepository,
                            pc.args.sourceRevision, pc.next.updatedAt);
      ContinuesBasics(pc.previous, pc.next, pc.args.manifest, pc.args.actor, pc.args.sourceRepository,
                      pc.args.sourceRevision, pc.next.updatedAt);
    } else {
      var row := w.db.history[(pc.restore.id, pc.restore.revision)];
      var m := Manifest(MANIFEST_SCHEMA_V1, pc.restore.id, row.displayName, row.scopes);
      FromManifestContinues(pc.previous, m, pc.restore.actor, "operator-restore",
                            "revision-" + Decimal(pc.restore.revision), pc.next.updatedAt);
      ContinuesBasics(pc.previous, pc.next, m, pc.restore.actor, "operator-restore",
                      "revision-" + Decimal(pc.restore.revision), pc.next.updatedAt);
      RestoreSource(w.db, pc.restore.id, pc.restore.revision);
      RestoredContent(pc.previous, row, pc.restore, pc.next.updatedAt);
    }
  }

  lemma ContinuesBasics(previous: ResourceServer, next: ResourceServer, m: Manifest, actor: string, repo: string,
                        rev: string, now: int)
    requires Continues(previous, next, m, actor, repo, rev, now)
    ensures next.id == previous.id && next.revision == previous.revision + 1
  {}
}
