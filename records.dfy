/** The backend's database rows (backend/app/database/dodoco/project.py and
    container.py) as records of an in-memory store, with the lookups the
    routes run on them and the outcomes the routes answer with. */
module Records {
  import opened Wrappers

  /** An instant; the clock itself is not modelled. */
  type Time = nat

  /** The caller of a route: the user id of its access token and whether
      the token carries the admin role. */
  datatype AccessToken = AccessToken(user: nat, admin: bool)

  /** A `ProjectTag` row. */
  datatype Tag = Tag(uuid: nat, name: string, code: string, description: Option<string>, enabled: bool)

  /** A `Project` row. `approved` is nullable and has no default. */
  datatype Project = Project(
    uuid: nat, name: string, description: Option<string>, approved: Option<bool>,
    maxContainerLimit: int, tagId: Option<nat>, createdById: Option<nat>,
    frozenAt: Option<Time>, deletedAt: Option<Time>)

  /** A `ProjectMember` row. */
  datatype Member = Member(uuid: nat, projectId: nat, userId: nat, leader: bool, accepted: bool)

  /** `DockerPortProtocol`. */
  datatype Protocol = Tcp | Udp | Stcp

  /** A `Container` row; `containerId` is the Docker container's id. */
  datatype Container = Container(
    uuid: nat, name: string, description: Option<string>,
    startImageName: Option<string>, containerId: Option<string>, containerName: Option<string>,
    projectId: nat, createdById: Option<nat>)

  /** A `ContainerPort` row. */
  datatype Port = Port(uuid: nat, containerId: nat, containerPort: int, protocol: Protocol, exposedPort: int)

  /** The tables, each in insertion order, and the next free primary key. */
  datatype Db = Db(
    tags: seq<Tag>, projects: seq<Project>, members: seq<Member>,
    containers: seq<Container>, ports: seq<Port>, nextId: nat)

  /** The response cases the routes answer with, with the data they attach
      to a refusal. */
  datatype Case =
    | ResourceFound
    | MultipleResourcesFound
    | ResourceNotFound(resourceName: seq<string>)
    | ResourceForbidden
    | ResourceConflict(conflictReason: seq<string>)
    | ResourceUniqueFailed(duplicate: seq<string>)
    | ResourceCreated
    | ResourceModified
    | ResourceDeleted
    | HttpMtdForbidden
    | BodyBadSemantics(field: string)
    | DbError
    | ServerError

  // ---------------------------------------------------------------- queries

  /** `query.filter(p).first()`: the index of the first row satisfying `p`. */
  function FirstIndex<T>(rows: seq<T>, p: T -> bool): (r: Option<nat>)
    ensures r.Some? ==> r.value < |rows| && p(rows[r.value])
    ensures r.Some? ==> forall j :: 0 <= j < r.value ==> !p(rows[j])
    ensures r.None? <==> forall j :: 0 <= j < |rows| ==> !p(rows[j])
    decreases |rows|
  {
    if rows == [] then None
    else if p(rows[0]) then Some(0)
    else
      match FirstIndex(rows[1..], p)
      case None => None
      case Some(i) => Some(i + 1)
  }

  /** `query.filter(p).all()`: the rows satisfying `p`, in order. */
  function Filter<T>(rows: seq<T>, p: T -> bool): (r: seq<T>)
    ensures |r| <= |rows|
    ensures forall j :: 0 <= j < |r| ==> r[j] in rows && p(r[j])
    ensures forall j :: 0 <= j < |rows| && p(rows[j]) ==> rows[j] in r
    decreases |rows|
  {
    if rows == [] then []
    else if p(rows[0]) then [rows[0]] + Filter(rows[1..], p)
    else Filter(rows[1..], p)
  }

  /** `[f(row) for row in rows]` where `f` may raise (None): every result
      in order, or None when one of them raises. */
  function MapAll<T, U>(rows: seq<T>, f: T -> Option<U>): (r: Option<seq<U>>)
    ensures r.Some? ==> |r.value| == |rows| && forall j :: 0 <= j < |rows| ==> f(rows[j]) == Some(r.value[j])
    ensures r.None? <==> exists j :: 0 <= j < |rows| && f(rows[j]).None?
    decreases |rows|
  {
    if rows == [] then Some([])
    else
      var head := f(rows[0]);
      var tail := MapAll(rows[1..], f);
      assert forall j :: 0 <= j < |rows[1..]| ==> rows[1..][j] == rows[j + 1];
      if head.Some? && tail.Some? then Some([head.value] + tail.value) else None
  }

  /** A filter keeps exactly the rows of its input: nothing is reordered. */
  lemma {:induction false} FilterOfAll<T>(rows: seq<T>, p: T -> bool)
    requires forall j :: 0 <= j < |rows| ==> p(rows[j])
    ensures Filter(rows, p) == rows
    decreases |rows|
  {
    if rows != [] {
      FilterOfAll(rows[1..], p);
    }
  }

  /** Two filters that agree on every row select the same rows. */
  lemma {:induction false} FilterCongruent<T>(rows: seq<T>, p: T -> bool, q: T -> bool)
    requires forall j :: 0 <= j < |rows| ==> p(rows[j]) == q(rows[j])
    ensures Filter(rows, p) == Filter(rows, q)
    decreases |rows|
  {
    if rows != [] {
      FilterCongruent(rows[1..], p, q);
    }
  }

  /** `.first()` is the first row `.all()` would return. */
  lemma {:induction false} FilterHead<T>(rows: seq<T>, p: T -> bool)
    ensures Filter(rows, p) == [] <==> FirstIndex(rows, p).None?
    ensures Filter(rows, p) != [] ==> Filter(rows, p)[0] == rows[FirstIndex(rows, p).value]
    decreases |rows|
  {
    if rows != [] && !p(rows[0]) {
      FilterHead(rows[1..], p);
    }
  }

  /** Two searches that agree on every row stop at the same row. */
  lemma {:induction false} FirstIndexCongruent<T>(rows: seq<T>, p: T -> bool, rows': seq<T>, q: T -> bool)
    requires |rows| == |rows'|
    requires forall j :: 0 <= j < |rows| ==> p(rows[j]) == q(rows'[j])
    ensures FirstIndex(rows, p) == FirstIndex(rows', q)
    decreases |rows|
  {
    if rows != [] {
      FirstIndexCongruent(rows[1..], p, rows'[1..], q);
    }
  }

  /** Filtering a row appended at the end. */
  lemma {:induction false} FilterAppend<T>(rows: seq<T>, x: T, p: T -> bool)
    ensures Filter(rows + [x], p) == Filter(rows, p) + (if p(x) then [x] else [])
    decreases |rows|
  {
    if rows == [] {
      assert rows + [x] == [x];
      assert [x][1..] == [];
    } else {
      assert (rows + [x])[0] == rows[0];
      assert (rows + [x])[1..] == rows[1..] + [x];
      FilterAppend(rows[1..], x, p);
    }
  }

  // ---------------------------------------------------------------- integrity

  predicate ProjectExists(db: Db, id: nat) {
    exists i :: 0 <= i < |db.projects| && db.projects[i].uuid == id
  }

  predicate TagExists(db: Db, id: nat) {
    exists i :: 0 <= i < |db.tags| && db.tags[i].uuid == id
  }

  predicate ContainerExists(db: Db, id: nat) {
    exists i :: 0 <= i < |db.containers| && db.containers[i].uuid == id
  }

  /** A project key stays present when the table grows or its rows are
      updated in place with their keys unchanged. */
  lemma ProjectExistsKept(db: Db, db': Db, id: nat)
    requires ProjectExists(db, id)
    requires |db.projects| <= |db'.projects|
    requires forall k :: 0 <= k < |db.projects| ==> db'.projects[k].uuid == db.projects[k].uuid
    ensures ProjectExists(db', id)
  {
    var k :| 0 <= k < |db.projects| && db.projects[k].uuid == id;
    assert db'.projects[k].uuid == id;
  }

  lemma TagExistsKept(db: Db, db': Db, id: nat)
    requires TagExists(db, id)
    requires |db.tags| <= |db'.tags|
    requires forall k :: 0 <= k < |db.tags| ==> db'.tags[k].uuid == db.tags[k].uuid
    ensures TagExists(db', id)
  {
    var k :| 0 <= k < |db.tags| && db.tags[k].uuid == id;
    assert db'.tags[k].uuid == id;
  }

  /** Every primary key is below the next free one. */
  predicate KeysBelow(db: Db) {
    && (forall t :: t in db.tags ==> t.uuid < db.nextId)
    && (forall p :: p in db.projects ==> p.uuid < db.nextId)
    && (forall m :: m in db.members ==> m.uuid < db.nextId)
    && (forall c :: c in db.containers ==> c.uuid < db.nextId)
    && (forall o :: o in db.ports ==> o.uuid < db.nextId)
  }

  /** Every foreign key names an existing row. */
  predicate Referenced(db: Db) {
    && (forall p :: p in db.projects && p.tagId.Some? ==> TagExists(db, p.tagId.value))
    && (forall m :: m in db.members ==> ProjectExists(db, m.projectId))
    && (forall c :: c in db.containers ==> ProjectExists(db, c.projectId))
    && (forall o :: o in db.ports ==> ContainerExists(db, o.containerId))
  }

  /** The tables looked up by primary key hold each key once. */
  predicate UniqueKeys(db: Db) {
    && (forall i, j :: 0 <= i < j < |db.tags| ==> db.tags[i].uuid != db.tags[j].uuid)
    && (forall i, j :: 0 <= i < j < |db.projects| ==> db.projects[i].uuid != db.projects[j].uuid)
    && (forall i, j :: 0 <= i < j < |db.containers| ==> db.containers[i].uuid != db.containers[j].uuid)
  }

  /** The store invariant: fresh and unique keys, referential integrity. */
  predicate Valid(db: Db) {
    KeysBelow(db) && UniqueKeys(db) && Referenced(db)
  }

  /** Rewriting one project row in place, its key and its tag unchanged,
      keeps the store invariant. */
  lemma UpdateProjectKeepsValid(db: Db, i: nat, p: Project)
    requires Valid(db) && i < |db.projects|
    requires p.uuid == db.projects[i].uuid && p.tagId == db.projects[i].tagId
    ensures Valid(db.(projects := db.projects[i := p]))
  {
    var db' := db.(projects := db.projects[i := p]);
    assert forall k :: 0 <= k < |db.projects| ==> db'.projects[k].uuid == db.projects[k].uuid;
    forall x | x in db'.projects ensures x.uuid < db'.nextId && (x.tagId.Some? ==> TagExists(db', x.tagId.value)) {
      var k :| 0 <= k < |db'.projects| && db'.projects[k] == x;
      assert db.projects[k] in db.projects;
    }
    forall x | x in db'.members ensures ProjectExists(db', x.projectId) {
      ProjectExistsKept(db, db', x.projectId);
    }
    forall x | x in db'.containers ensures ProjectExists(db', x.projectId) {
      ProjectExistsKept(db, db', x.projectId);
    }
  }

  /** Rewriting one tag row in place, its key unchanged, keeps the store
      invariant. */
  lemma UpdateTagKeepsValid(db: Db, i: nat, t: Tag)
    requires Valid(db) && i < |db.tags|
    requires t.uuid == db.tags[i].uuid
    ensures Valid(db.(tags := db.tags[i := t]))
  {
    var db' := db.(tags := db.tags[i := t]);
    assert forall k :: 0 <= k < |db.tags| ==> db'.tags[k].uuid == db.tags[k].uuid;
    forall x | x in db'.tags ensures x.uuid < db'.nextId {
      var k :| 0 <= k < |db'.tags| && db'.tags[k] == x;
      assert db.tags[k] in db.tags;
    }
    forall x | x in db'.projects && x.tagId.Some? ensures TagExists(db', x.tagId.value) {
      TagExistsKept(db, db', x.tagId.value);
    }
  }

  /** The empty store. */
  function EmptyDb(): (db: Db)
    ensures Valid(db)
  {
    Db([], [], [], [], [], 0)
  }
}
