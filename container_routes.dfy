/** `ContainerMainRoute` (backend/app/api/dodoco/containers/containers.py):
    listing containers, one container by id, and deleting one. */
module ContainerRoutes {
  import opened Wrappers
  import opened Records
  import opened ProjectModel
  import opened ProjectRoutes
  import opened ContainerModel

  // ---------------------------------------------------------------- GET

  /** Who may see a container asked for by id. `AsWritten` is the test the
      route performs: an admin, or a project that has some member other
      than the caller. `MemberOnly` is the evident intent: an admin or a
      member of the project (see README, Findings). */
  datatype AccessRule = AsWritten | MemberOnly

  predicate Admits(rule: AccessRule, db: Db, token: AccessToken, p: Project) {
    match rule
    case AsWritten => token.admin || exists m :: m in db.members && m.projectId == p.uuid && m.userId != token.user
    case MemberOnly => token.admin || IsMember(db, token.user, p.uuid)
  }

  /** The rows the query returns: every container without an id, else the
      ones with that key. */
  function ContainerRows(db: Db, containerId: Option<nat>): (r: seq<Container>)
    ensures !IdGiven(containerId) ==> r == db.containers
    ensures IdGiven(containerId) ==> forall j :: 0 <= j < |r| ==> r[j] in db.containers && r[j].uuid == containerId.value
    ensures IdGiven(containerId) ==> (r == [] <==> !ContainerExists(db, containerId.value))
  {
    if !IdGiven(containerId) then db.containers
    else
      var rows := Filter(db.containers, (c: Container) => c.uuid == containerId.value);
      assert rows != [] ==> rows[0] in db.containers;
      rows
  }

  /** With unique keys, asking by id finds at most the one container. */
  lemma ContainerRowsById(db: Db, id: nat)
    requires Valid(db) && id != 0
    ensures |ContainerRows(db, Some(id))| <= 1
  {
    var rows := ContainerRows(db, Some(id));
    if 1 < |rows| {
      var a :| 0 <= a < |db.containers| && db.containers[a] == rows[0];
      var b :| 0 <= b < |db.containers| && db.containers[b] == rows[1];
      FilterIndices(db.containers, (c: Container) => c.uuid == id);
    }
  }

  /** Two rows a filter keeps come from two different input rows. */
  lemma {:induction false} FilterIndices<T>(rows: seq<T>, p: T -> bool)
    ensures 1 < |Filter(rows, p)| ==>
              exists a, b :: 0 <= a < b < |rows| && rows[a] == Filter(rows, p)[0] && rows[b] == Filter(rows, p)[1]
    decreases |rows|
  {
    if rows != [] {
      FilterIndices(rows[1..], p);
      var tail := Filter(rows[1..], p);
      if p(rows[0]) {
        if 0 < |tail| {
          var k :| 0 <= k < |rows[1..]| && rows[1..][k] == tail[0];
          assert rows[k + 1] == Filter(rows, p)[1];
        }
      } else if 1 < |tail| {
        var a, b :| 0 <= a < b < |rows[1..]| && rows[1..][a] == tail[0] && rows[1..][b] == tail[1];
        assert rows[a + 1] == Filter(rows, p)[0] && rows[b + 1] == Filter(rows, p)[1];
      }
    }
  }

  /** `[c.to_dict() for c in rows]`; None when one of them raises. */
  function ContainerDicts(db: Db, rows: seq<Container>): (r: Option<seq<ContainerView>>)
    ensures r.Some? ==> |r.value| == |rows| && forall j :: 0 <= j < |rows| ==> ContainerToDict(db, rows[j]) == Some(r.value[j])
    ensures r.None? <==> exists j :: 0 <= j < |rows| && ContainerToDict(db, rows[j]).None?
  {
    MapAll(rows, (c: Container) => ContainerToDict(db, c))
  }

  /** GET /containers[/<id>] under an access rule: `all` is refused to a
      non-admin; asked by id, the container's project must exist and the
      rule admit the caller; no rows is NotFound; a row that cannot be
      rendered is a server error. The `project-id` and `tag-code` query
      fields are read but not used. */
  function GetContainersUnder(rule: AccessRule, db: Db, token: AccessToken, all: bool, containerId: Option<nat>)
    : (r: (Case, seq<ContainerView>))
    ensures r.0 in {ResourceForbidden, ResourceNotFound([]), MultipleResourcesFound, ServerError}
    ensures r.0 == ResourceForbidden <==>
              (all && !token.admin) ||
              (IdGiven(containerId) && ContainerExists(db, containerId.value) &&
               var p := ProjectRowOf(db, ContainerRows(db, containerId)[0]);
               p.Some? && !Admits(rule, db, token, p.value))
    ensures r.0 == ResourceNotFound([]) <==> !(all && !token.admin) && ContainerRows(db, containerId) == []
    ensures r.0 == MultipleResourcesFound ==> ContainerDicts(db, ContainerRows(db, containerId)) == Some(r.1)
    ensures r.0 == ServerError ==>
              var rows := ContainerRows(db, containerId);
              (IdGiven(containerId) && rows != [] && ProjectRowOf(db, rows[0]).None?) || ContainerDicts(db, rows).None?
    ensures r.0 != MultipleResourcesFound ==> r.1 == []
  {
    if all && !token.admin then (ResourceForbidden, [])
    else
      var rows := ContainerRows(db, containerId);
      if IdGiven(containerId) && rows != [] && ProjectRowOf(db, rows[0]).None? then (ServerError, [])
      else if IdGiven(containerId) && rows != [] && !Admits(rule, db, token, ProjectRowOf(db, rows[0]).value) then (ResourceForbidden, [])
      else if rows == [] then (ResourceNotFound([]), [])
      else
        match ContainerDicts(db, rows)
        case None => (ServerError, [])
        case Some(views) => (MultipleResourcesFound, views)
  }

  /** The route as it is meant to be: only an admin or a project member
      may see a container by id. */
  function GetContainers(db: Db, token: AccessToken, all: bool, containerId: Option<nat>): (r: (Case, seq<ContainerView>))
    ensures IdGiven(containerId) && ContainerExists(db, containerId.value) && !token.admin && !all ==>
              var p := ProjectRowOf(db, ContainerRows(db, containerId)[0]);
              p.Some? ==> (r.0 == ResourceForbidden <==> !IsMember(db, token.user, p.value.uuid))
  {
    GetContainersUnder(MemberOnly, db, token, all, containerId)
  }

  /** Without an id the listing is every container, whoever asks: the
      project filter that would restrict it is not applied. */
  lemma ListingShowsEveryContainer(rule: AccessRule, db: Db, token: AccessToken, containerId: Option<nat>)
    requires !IdGiven(containerId) && db.containers != []
    requires forall j :: 0 <= j < |db.containers| ==> ContainerToDict(db, db.containers[j]).Some?
    ensures var r := GetContainersUnder(rule, db, token, false, containerId);
            r.0 == MultipleResourcesFound && |r.1| == |db.containers|
            && forall j :: 0 <= j < |db.containers| ==> r.1[j].uuid == db.containers[j].uuid
  {
  }

  /** In a valid store every container's project exists, so asking by id
      fails with a server error only when rendering does. */
  lemma ByIdServerErrorIsRendering(rule: AccessRule, db: Db, token: AccessToken, all: bool, id: nat)
    requires Valid(db) && id != 0
    requires GetContainersUnder(rule, db, token, all, Some(id)).0 == ServerError
    ensures exists j :: 0 <= j < |ContainerRows(db, Some(id))| && ContainerToDict(db, ContainerRows(db, Some(id))[j]).None?
  {
    var rows := ContainerRows(db, Some(id));
    assert rows[0] in db.containers;
  }

  /** Finding: a non-admin who is the only member of the container's
      project is refused by the route as written, and admitted by the
      member rule. */
  lemma AsWrittenRefusesSoleMember(db: Db, token: AccessToken, id: nat)
    requires Valid(db) && id != 0 && ContainerExists(db, id) && !token.admin
    requires var c := ContainerRows(db, Some(id))[0];
             IsMember(db, token.user, c.projectId)
             && forall m :: m in db.members && m.projectId == c.projectId ==> m.userId == token.user
    ensures GetContainersUnder(AsWritten, db, token, false, Some(id)).0 == ResourceForbidden
    ensures GetContainers(db, token, false, Some(id)).0 != ResourceForbidden
  {
    var c := ContainerRows(db, Some(id))[0];
    var p := ContainerProject(db, c);
    assert !Admits(AsWritten, db, token, p);
    assert Admits(MemberOnly, db, token, p);
  }

  /** In a valid store a stored container's project resolves. */
  lemma ContainerProject(db: Db, c: Container) returns (p: Project)
    requires Valid(db) && c in db.containers
    ensures ProjectRowOf(db, c) == Some(p) && p.uuid == c.projectId
  {
    var i :| 0 <= i < |db.projects| && db.projects[i].uuid == c.projectId;
    p := ProjectRowOf(db, c).value;
  }

  /** Finding: a non-admin outside the project is admitted by the route as
      written as soon as the project has any member, and refused by the
      member rule. */
  lemma AsWrittenAdmitsOutsider(db: Db, token: AccessToken, id: nat, m: Member)
    requires Valid(db) && id != 0 && ContainerExists(db, id) && !token.admin
    requires var c := ContainerRows(db, Some(id))[0];
             !IsMember(db, token.user, c.projectId) && m in db.members && m.projectId == c.projectId
    ensures GetContainersUnder(AsWritten, db, token, false, Some(id)).0 != ResourceForbidden
    ensures GetContainers(db, token, false, Some(id)).0 == ResourceForbidden
  {
    var c := ContainerRows(db, Some(id))[0];
    var p := ContainerProject(db, c);
    assert Admits(AsWritten, db, token, p);
    assert !Admits(MemberOnly, db, token, p);
  }

  // ---------------------------------------------------------------- DELETE

  /** The first container with the key. */
  function ContainerIndex(db: Db, id: nat): (r: Option<nat>)
    ensures r.Some? ==> r.value < |db.containers| && db.containers[r.value].uuid == id
    ensures r.None? <==> !ContainerExists(db, id)
  {
    FirstIndex(db.containers, (c: Container) => c.uuid == id)
  }

  /** DELETE /containers/<id>. `alive` is whether Docker still knows the
      container; a missing one has its records deleted by
      `check_existance`. A known one goes through `destroy(force=True)`,
      whose `kill` raises when Docker refuses it (a container that is not
      running): `destroyed` is whether the Docker calls of `destroy`
      succeed, and when they do not the session rolls back and the route
      answers `db_error`. The route checks no role: any caller with a
      token may delete. */
  function DeleteContainer(db: Db, token: AccessToken, containerId: Option<nat>, alive: bool,
                           destroyed: bool): (r: (Case, Db))
    ensures r.0 == HttpMtdForbidden <==> !IdGiven(containerId)
    ensures r.0 == ResourceNotFound([]) <==> IdGiven(containerId) && !ContainerExists(db, containerId.value)
    ensures r.0 == DbError <==> IdGiven(containerId) && ContainerExists(db, containerId.value) && alive && !destroyed
    ensures r.0 == ResourceDeleted <==>
              IdGiven(containerId) && ContainerExists(db, containerId.value) && (!alive || destroyed)
    ensures r.0 != ResourceDeleted ==> r.1 == db
    ensures r.0 == ResourceDeleted ==> r.1 == Destroy(db, ContainerIndex(db, containerId.value).value)
  {
    if !IdGiven(containerId) then (HttpMtdForbidden, db)
    else
      match ContainerIndex(db, containerId.value)
      case None => (ResourceNotFound([]), db)
      case Some(i) =>
        var (kept, db1) := CheckExistance(db, i, alive, true);
        if kept.None? then (ResourceDeleted, db1)
        else if destroyed then (ResourceDeleted, Destroy(db1, i))
        else (DbError, db)
  }

  /** Who may delete a container, as the route's description says: an
      admin, a leader of the container's project, or the user who created
      the container. */
  predicate MayDelete(db: Db, token: AccessToken, c: Container) {
    || token.admin
    || (exists m :: m in db.members && m.projectId == c.projectId && m.userId == token.user && m.leader)
    || c.createdById == Some(token.user)
  }

  /** DELETE /containers/<id> with the role check the route's description
      promises: once the container is found, a caller who may not delete it
      is refused and nothing changes (see README, Findings). */
  function DeleteContainerChecked(db: Db, token: AccessToken, containerId: Option<nat>, alive: bool,
                                  destroyed: bool): (r: (Case, Db))
    ensures r.0 == HttpMtdForbidden <==> !IdGiven(containerId)
    ensures r.0 == ResourceNotFound([]) <==> IdGiven(containerId) && !ContainerExists(db, containerId.value)
    ensures r.0 == ResourceForbidden <==>
              IdGiven(containerId) && ContainerExists(db, containerId.value)
              && !MayDelete(db, token, db.containers[ContainerIndex(db, containerId.value).value])
    ensures r.0 == DbError <==>
              IdGiven(containerId) && ContainerExists(db, containerId.value)
              && MayDelete(db, token, db.containers[ContainerIndex(db, containerId.value).value])
              && alive && !destroyed
    ensures r.0 == ResourceDeleted <==>
              IdGiven(containerId) && ContainerExists(db, containerId.value)
              && MayDelete(db, token, db.containers[ContainerIndex(db, containerId.value).value])
              && (!alive || destroyed)
    ensures r.0 != ResourceDeleted ==> r.1 == db
    ensures r.0 == ResourceDeleted ==> r.1 == Destroy(db, ContainerIndex(db, containerId.value).value)
  {
    if IdGiven(containerId) && ContainerIndex(db, containerId.value).Some?
       && !MayDelete(db, token, db.containers[ContainerIndex(db, containerId.value).value])
    then (ResourceForbidden, db)
    else DeleteContainer(db, token, containerId, alive, destroyed)
  }

  /** As written, a caller who is neither an admin, nor a leader of the
      project, nor the container's creator deletes the container whenever
      Docker's part succeeds; the checked route refuses the same request
      and keeps the store, whatever Docker would answer. */
  lemma AsWrittenDeletesForAnyone(db: Db, token: AccessToken, id: nat, alive: bool, destroyed: bool)
    requires Valid(db) && id != 0 && ContainerExists(db, id)
    requires !MayDelete(db, token, db.containers[ContainerIndex(db, id).value])
    ensures DeleteContainer(db, token, Some(id), alive, true).0 == ResourceDeleted
    ensures !ContainerExists(DeleteContainer(db, token, Some(id), alive, true).1, id)
    ensures DeleteContainerChecked(db, token, Some(id), alive, destroyed) == (ResourceForbidden, db)
  {
    DeleteRemoves(db, token, id, alive, true);
  }

  /** Every outcome of the checked route leaves a valid store. */
  lemma DeleteContainerCheckedKeepsValid(db: Db, token: AccessToken, containerId: Option<nat>, alive: bool,
                                         destroyed: bool)
    requires Valid(db)
    ensures Valid(DeleteContainerChecked(db, token, containerId, alive, destroyed).1)
  {
    DeleteContainerKeepsValid(db, token, containerId, alive, destroyed);
  }

  /** Who asks never changes the outcome; when Docker's part of `destroy`
      succeeds, neither does whether Docker still had the container. */
  lemma DeleteIgnoresLivenessAndCaller(db: Db, t1: AccessToken, t2: AccessToken, containerId: Option<nat>,
                                       a1: bool, a2: bool, destroyed: bool)
    ensures DeleteContainer(db, t1, containerId, a1, destroyed) == DeleteContainer(db, t2, containerId, a1, destroyed)
    ensures DeleteContainer(db, t1, containerId, a1, true) == DeleteContainer(db, t2, containerId, a2, true)
  {
  }

  /** Destroying row `i` of a table with unique keys leaves no row with
      its key. */
  lemma DestroyRemovesKey(db: Db, i: nat)
    requires UniqueKeys(db) && i < |db.containers|
    ensures !ContainerExists(Destroy(db, i), db.containers[i].uuid)
  {
    var cs := Destroy(db, i).containers;
    forall k | 0 <= k < |cs| ensures cs[k].uuid != db.containers[i].uuid {
      assert cs[k] == db.containers[if k < i then k else k + 1];
    }
  }

  /** After a deletion no container has the key and no port row names it. */
  lemma DeleteRemoves(db: Db, token: AccessToken, id: nat, alive: bool, destroyed: bool)
    requires Valid(db) && id != 0 && ContainerExists(db, id)
    ensures var (r, db') := DeleteContainer(db, token, Some(id), alive, destroyed);
            r == ResourceDeleted ==>
              !ContainerExists(db', id) && ContainerPorts(db', id) == map[]
              && forall o :: o in db'.ports ==> o.containerId != id
  {
    DestroyRemovesKey(db, ContainerIndex(db, id).value);
  }

  /** Every outcome of the route leaves a valid store. */
  lemma DeleteContainerKeepsValid(db: Db, token: AccessToken, containerId: Option<nat>, alive: bool,
                                  destroyed: bool)
    requires Valid(db)
    ensures Valid(DeleteContainer(db, token, containerId, alive, destroyed).1)
  {
    if IdGiven(containerId) && ContainerExists(db, containerId.value) {
      DestroyKeepsValid(db, ContainerIndex(db, containerId.value).value);
    }
  }
}
