/** `ProjectMainRoute` (backend/app/api/dodoco/projects/projects.py): list
    the projects a caller may see, create a project with its creator as
    leader, and soft-delete a project. Each route is a decision chain that
    ends in one update of the store. */
module ProjectRoutes {
  import opened Wrappers
  import opened Json
  import opened Records
  import opened BackendText
  import opened ProjectModel

  /** Python truthiness of an integer path parameter: absent and 0 are
      falsy. */
  predicate IdGiven(id: Option<nat>) {
    id.Some? && id.value != 0
  }

  // ---------------------------------------------------------------- GET

  /** The `tag-code` query: `safe_json_loads(tag-code) or tag_code`, then
      None, a list of `str()` of each item, or `str()` of the value.
      `parsed` is the decoded `tag-code` (None when absent or not JSON),
      `raw` the `tag_code` query value. */
  function NormaliseTagCode(parsed: Option<Json>, raw: Option<string>): (t: TagQuery)
    ensures t.NoTag? <==> !(parsed.Some? && PyTruthy(parsed.value)) && raw.None?
    ensures t.TagCodes? <==> parsed.Some? && PyTruthy(parsed.value) && parsed.value.JArr?
    ensures t.TagCodes? ==> |t.codes| == |parsed.value.items|
    ensures t.TagCodes? ==> forall j :: 0 <= j < |t.codes| ==> t.codes[j] == PyStr(parsed.value.items[j])
    ensures parsed.Some? && PyTruthy(parsed.value) && !parsed.value.JArr? ==> t == TagPattern(PyStr(parsed.value))
    ensures !(parsed.Some? && PyTruthy(parsed.value)) && raw.Some? ==> t == TagPattern(raw.value)
  {
    if parsed.Some? && PyTruthy(parsed.value) then
      var v := parsed.value;
      if v.JArr? then TagCodes(PyStrs(v.items)) else TagPattern(PyStr(v))
    else if raw.Some? then TagPattern(raw.value)
    else NoTag
  }

  /** The query flags of GET /projects. */
  datatype ProjectsQuery = ProjectsQuery(
    all: bool, showDeleted: bool, showFrozen: bool,
    tagCodeJson: Option<Json>, tagCodeRaw: Option<string>)

  /** The `query_builder` arguments GET passes: the caller is always the
      user, so the builder never raises. */
  function ProjectsArgs(token: AccessToken, q: ProjectsQuery, projectId: Option<nat>): (a: QueryArgs)
    ensures a.userId == Some(token.user) && a.queryAll == q.all
  {
    QueryArgs(projectId, NormaliseTagCode(q.tagCodeJson, q.tagCodeRaw), Some(token.user),
              q.all, q.showDeleted, q.showFrozen)
  }

  /** `[p.to_dict() for p in rows]`; None when one of them raises. */
  function ToDicts(db: Db, rows: seq<Project>): (r: Option<seq<ProjectView>>)
    ensures r.Some? ==> |r.value| == |rows|
    ensures r.Some? ==> forall j :: 0 <= j < |rows| ==> ProjectToDict(db, rows[j], true) == Some(r.value[j])
    ensures r.None? <==> exists j :: 0 <= j < |rows| && ProjectToDict(db, rows[j], true).None?
  {
    MapAll(rows, (p: Project) => ProjectToDict(db, p, true))
  }

  /** GET /projects[/<id>]: `all` is for admins only; otherwise the views
      of every project the query selects, or not-found for none. */
  function GetProjects(db: Db, token: AccessToken, q: ProjectsQuery, projectId: Option<nat>): (r: (Case, seq<ProjectView>))
    ensures r.0 == ResourceForbidden <==> q.all && !token.admin
    ensures r.0 == ResourceNotFound(["project"]) <==>
              !(q.all && !token.admin) && forall j :: 0 <= j < |db.projects| ==> !Selected(db, ProjectsArgs(token, q, projectId), db.projects[j])
    ensures r.0 == MultipleResourcesFound ==>
              ToDicts(db, QueryBuilder(db, ProjectsArgs(token, q, projectId)).value) == Some(r.1)
    ensures r.0 == ServerError <==>
              !(q.all && !token.admin) && QueryBuilder(db, ProjectsArgs(token, q, projectId)).value != []
              && ToDicts(db, QueryBuilder(db, ProjectsArgs(token, q, projectId)).value).None?
    ensures r.0 in {ResourceForbidden, ResourceNotFound(["project"]), MultipleResourcesFound, ServerError}
  {
    if q.all && !token.admin then (ResourceForbidden, [])
    else
      var rows := QueryBuilder(db, ProjectsArgs(token, q, projectId)).value;
      if rows == [] then
        assert forall j :: 0 <= j < |db.projects| ==> !Selected(db, ProjectsArgs(token, q, projectId), db.projects[j]);
        (ResourceNotFound(["project"]), [])
      else
        match ToDicts(db, rows)
        case None => (ServerError, [])
        case Some(views) => (MultipleResourcesFound, views)
  }

  /** A listed project with a container that has no creator turns the
      whole listing into a server error. */
  lemma CreatorlessContainerFailsListing(db: Db, token: AccessToken, q: ProjectsQuery, projectId: Option<nat>, k: nat, c: Container)
    requires !(q.all && !token.admin)
    requires k < |QueryBuilder(db, ProjectsArgs(token, q, projectId)).value|
    requires c in db.containers && c.createdById.None?
    requires c.projectId == QueryBuilder(db, ProjectsArgs(token, q, projectId)).value[k].uuid
    ensures GetProjects(db, token, q, projectId).0 == ServerError
  {
    var rows := QueryBuilder(db, ProjectsArgs(token, q, projectId)).value;
    CreatorlessContainerBreaksRendering(db, rows[k], c);
    assert ToDicts(db, rows).None?;
  }

  /** Without `all`, a caller only ever sees live projects it is a member
      of (unless it asks for deleted or frozen ones). */
  lemma GetProjectsOnlyOwn(db: Db, token: AccessToken, q: ProjectsQuery, projectId: Option<nat>, k: nat)
    requires !q.all
    requires GetProjects(db, token, q, projectId).0 == MultipleResourcesFound
    requires k < |GetProjects(db, token, q, projectId).1|
    ensures exists p :: p in db.projects && p.uuid == GetProjects(db, token, q, projectId).1[k].uuid
              && IsMember(db, token.user, p.uuid)
              && (q.showDeleted || p.deletedAt.None?) && (q.showFrozen || p.frozenAt.None?)
  {
    var a := ProjectsArgs(token, q, projectId);
    var rows := QueryBuilder(db, a).value;
    var views := GetProjects(db, token, q, projectId).1;
    assert ProjectToDict(db, rows[k], true) == Some(views[k]);
    var p := rows[k];
    QueryBuilderRows(db, a, p);
  }

  // ---------------------------------------------------------------- POST

  /** The project's tag is an enabled tag of the store. */
  predicate HasEnabledTag(db: Db, p: Project) {
    p.tagId.Some? && exists t :: t in db.tags && t.enabled && t.uuid == p.tagId.value
  }

  /** The name-uniqueness query: an open project under an enabled tag
      already has the name. */
  predicate NameTaken(db: Db, name: string): (r: bool)
    ensures r <==> exists p :: p in db.projects && NameClash(db, name, p)
  {
    var clashes := Filter(db.projects, p => NameClash(db, name, p));
    assert (exists p :: p in db.projects && NameClash(db, name, p)) ==> clashes != [] by {
      forall p | p in db.projects && NameClash(db, name, p)
        ensures clashes != []
      {
        var i :| 0 <= i < |db.projects| && db.projects[i] == p;
      }
    }
    assert clashes != [] ==> clashes[0] in db.projects && NameClash(db, name, clashes[0]);
    clashes != []
  }

  /** A row the duplicate-name query returns: open, under an enabled tag,
      with the name. */
  predicate NameClash(db: Db, name: string, p: Project) {
    Open(p) && HasEnabledTag(db, p) && p.name == name
  }

  /** The body of POST /projects. */
  datatype NewProjectBody = NewProjectBody(name: string, tagCode: string, description: Option<string>)

  /** The tag a new project is filed under: the first enabled tag with the
      code. */
  function EnabledTagIndex(db: Db, code: string): (r: Option<nat>)
    ensures r.Some? ==> r.value < |db.tags| && db.tags[r.value].enabled && db.tags[r.value].code == code
    ensures r.None? <==> forall j :: 0 <= j < |db.tags| ==> !(db.tags[j].enabled && db.tags[j].code == code)
  {
    FirstIndex(db.tags, (t: Tag) => t.enabled && t.code == code)
  }

  /** POST /projects: refuses a path id, then a taken name, then an unknown
      or disabled tag; otherwise adds the project and one member row making
      the caller its accepted leader. */
  function PostProject(db: Db, token: AccessToken, projectId: Option<nat>, body: NewProjectBody): (r: (Case, Db))
    ensures r.0 == HttpMtdForbidden <==> IdGiven(projectId)
    ensures r.0 == ResourceConflict(["UNIQUE:name"]) <==> !IdGiven(projectId) && NameTaken(db, body.name)
    ensures r.0 == ResourceNotFound(["project_tag"]) <==>
              !IdGiven(projectId) && !NameTaken(db, body.name) && EnabledTagIndex(db, body.tagCode).None?
    ensures r.0 != ResourceCreated ==> r.1 == db
    ensures r.0 == ResourceCreated ==>
              && r.1.tags == db.tags && r.1.containers == db.containers && r.1.ports == db.ports
              && |r.1.projects| == |db.projects| + 1 && r.1.projects[..|db.projects|] == db.projects
              && |r.1.members| == |db.members| + 1 && r.1.members[..|db.members|] == db.members
              && r.1.nextId == db.nextId + 2
    ensures r.0 in {HttpMtdForbidden, ResourceConflict(["UNIQUE:name"]), ResourceNotFound(["project_tag"]), ResourceCreated}
  {
    if IdGiven(projectId) then (HttpMtdForbidden, db)
    else if NameTaken(db, body.name) then (ResourceConflict(["UNIQUE:name"]), db)
    else
      match EnabledTagIndex(db, body.tagCode)
      case None => (ResourceNotFound(["project_tag"]), db)
      case Some(i) =>
        var p := NewProject(db.nextId, body.name, body.description, db.tags[i].uuid, token.user);
        var m := Member(db.nextId + 1, db.nextId, token.user, true, true);
        (ResourceCreated, db.(projects := db.projects + [p], members := db.members + [m], nextId := db.nextId + 2))
  }

  /** The rows a successful POST adds: an open project under the enabled
      tag with the code, created by the caller, with the default limit, and
      the caller as its leader. */
  lemma PostProjectAdds(db: Db, token: AccessToken, projectId: Option<nat>, body: NewProjectBody)
    requires PostProject(db, token, projectId, body).0 == ResourceCreated
    ensures var db' := PostProject(db, token, projectId, body).1;
            var p := db'.projects[|db.projects|];
            var m := db'.members[|db.members|];
            && p.uuid == db.nextId && p.name == body.name && p.description == body.description
            && p.createdById == Some(token.user) && Open(p) && p.approved.None? && p.maxContainerLimit == 0
            && HasEnabledTag(db', p)
            && (exists t :: t in db.tags && t.enabled && t.code == body.tagCode && p.tagId == Some(t.uuid))
            && m == Member(db.nextId + 1, p.uuid, token.user, true, true)
  {
    var i := EnabledTagIndex(db, body.tagCode).value;
    assert db.tags[i] in db.tags;
  }

  // ---------------------------------------------------------------- DELETE

  /** The row DELETE targets: the first non-deleted project with the id
      (a frozen one included). */
  function LiveProjectIndex(db: Db, id: nat): (r: Option<nat>)
    ensures r.Some? ==> r.value < |db.projects| && db.projects[r.value].uuid == id && db.projects[r.value].deletedAt.None?
    ensures r.None? <==> forall j :: 0 <= j < |db.projects| ==> !(db.projects[j].uuid == id && db.projects[j].deletedAt.None?)
  {
    FirstIndex(db.projects, (p: Project) => p.deletedAt.None? && p.uuid == id)
  }

  /** Some container row belongs to the project: `freeze` then destroys
      it. */
  predicate HasContainers(db: Db, projectId: nat) {
    exists j :: 0 <= j < |db.containers| && db.containers[j].projectId == projectId
  }

  /** DELETE /projects/<id>: refuses a missing id, then an absent or
      deleted project, then a caller who is neither admin nor its creator;
      otherwise freezes and deletes it at the same instant. `freeze`
      destroys each of the project's containers through Docker;
      `destroyed` tells whether all of those calls succeed. When one
      raises, the session is rolled back and the route answers with a
      database error. */
  function DeleteProject(db: Db, token: AccessToken, projectId: Option<nat>, now: Time, destroyed: bool): (r: (Case, Db))
    ensures r.0 == HttpMtdForbidden <==> !IdGiven(projectId)
    ensures r.0 == ResourceNotFound([]) <==> IdGiven(projectId) && LiveProjectIndex(db, projectId.value).None?
    ensures r.0 == ResourceForbidden <==>
              (IdGiven(projectId) && LiveProjectIndex(db, projectId.value).Some?
               && !token.admin && db.projects[LiveProjectIndex(db, projectId.value).value].createdById != Some(token.user))
    ensures r.0 == DbError <==>
              (IdGiven(projectId) && LiveProjectIndex(db, projectId.value).Some?
               && (token.admin || db.projects[LiveProjectIndex(db, projectId.value).value].createdById == Some(token.user))
               && HasContainers(db, projectId.value) && !destroyed)
    ensures r.0 != ResourceDeleted ==> r.1 == db
    ensures r.0 == ResourceDeleted ==>
              var i := LiveProjectIndex(db, projectId.value).value;
              r.1 == db.(projects := db.projects[i := db.projects[i].(frozenAt := Some(now), deletedAt := Some(now))])
    ensures r.0 in {HttpMtdForbidden, ResourceNotFound([]), ResourceForbidden, DbError, ResourceDeleted}
  {
    if !IdGiven(projectId) then (HttpMtdForbidden, db)
    else
      match LiveProjectIndex(db, projectId.value)
      case None => (ResourceNotFound([]), db)
      case Some(i) =>
        var p := db.projects[i];
        if !token.admin && p.createdById != Some(token.user) then (ResourceForbidden, db)
        else if HasContainers(db, p.uuid) && !destroyed then (DbError, db)
        else
          var p' := Freeze(p, Some(now), now).(deletedAt := Some(now));
          (ResourceDeleted, db.(projects := db.projects[i := p']))
  }

  /** Only an admin or the project's creator can delete it, and a deleted
      project cannot be deleted again. */
  lemma DeleteProjectOnce(db: Db, token: AccessToken, id: nat, now: Time, destroyed: bool,
                          token2: AccessToken, later: Time, destroyed2: bool)
    requires UniqueKeys(db) && id != 0
    requires DeleteProject(db, token, Some(id), now, destroyed).0 == ResourceDeleted
    ensures token.admin || exists p :: p in db.projects && p.uuid == id && p.createdById == Some(token.user)
    ensures DeleteProject(DeleteProject(db, token, Some(id), now, destroyed).1, token2, Some(id), later, destroyed2).0 == ResourceNotFound([])
  {
    var i := LiveProjectIndex(db, id).value;
    assert db.projects[i] in db.projects;
    var db' := DeleteProject(db, token, Some(id), now, destroyed).1;
    forall j | 0 <= j < |db'.projects|
      ensures !(db'.projects[j].uuid == id && db'.projects[j].deletedAt.None?)
    {
      if j != i {
        assert db'.projects[j] == db.projects[j];
        assert i < j || j < i;
      }
    }
  }

  // ---------------------------------------------------------------- invariants

  /** The rule the POST route enforces: no two open projects under enabled
      tags share a name. */
  predicate OpenNamesUnique(db: Db) {
    forall i, j :: 0 <= i < j < |db.projects|
      && Open(db.projects[i]) && HasEnabledTag(db, db.projects[i])
      && Open(db.projects[j]) && HasEnabledTag(db, db.projects[j])
      ==> db.projects[i].name != db.projects[j].name
  }

  /** Adding a project with the next key under an existing tag, with a
      member row for it, keeps the store invariant. */
  lemma AddProjectKeepsValid(db: Db, p: Project, m: Member)
    requires Valid(db)
    requires p.uuid == db.nextId && m.uuid == db.nextId + 1 && m.projectId == p.uuid
    requires p.tagId.Some? ==> TagExists(db, p.tagId.value)
    ensures Valid(db.(projects := db.projects + [p], members := db.members + [m], nextId := db.nextId + 2))
  {
    var db' := db.(projects := db.projects + [p], members := db.members + [m], nextId := db.nextId + 2);
    assert KeysBelow(db');
    assert UniqueKeys(db') by {
      forall i, j | 0 <= i < j < |db'.projects| ensures db'.projects[i].uuid != db'.projects[j].uuid {
        assert db'.projects[i] == db.projects[i] && db.projects[i] in db.projects;
      }
    }
    assert ProjectExists(db', p.uuid) by {
      assert db'.projects[|db.projects|] == p;
    }
    forall x | x in db'.members ensures ProjectExists(db', x.projectId) {
      if x != m {
        ProjectExistsKept(db, db', x.projectId);
      }
    }
    forall x | x in db'.containers ensures ProjectExists(db', x.projectId) {
      ProjectExistsKept(db, db', x.projectId);
    }
    forall x | x in db'.projects && x.tagId.Some? ensures TagExists(db', x.tagId.value) {
      assert x == p || x in db.projects;
    }
  }

  lemma PostProjectKeepsValid(db: Db, token: AccessToken, projectId: Option<nat>, body: NewProjectBody)
    requires Valid(db)
    ensures Valid(PostProject(db, token, projectId, body).1)
  {
    if PostProject(db, token, projectId, body).0 == ResourceCreated {
      var i := EnabledTagIndex(db, body.tagCode).value;
      var p := NewProject(db.nextId, body.name, body.description, db.tags[i].uuid, token.user);
      var m := Member(db.nextId + 1, db.nextId, token.user, true, true);
      AddProjectKeepsValid(db, p, m);
    }
  }

  lemma PostProjectKeepsNamesUnique(db: Db, token: AccessToken, projectId: Option<nat>, body: NewProjectBody)
    requires OpenNamesUnique(db)
    ensures OpenNamesUnique(PostProject(db, token, projectId, body).1)
  {
    var r := PostProject(db, token, projectId, body);
    if r.0 == ResourceCreated {
      var db' := r.1;
      var n := |db.projects|;
      var p := db'.projects[n];
      forall i, j | 0 <= i < j < |db'.projects|
        && Open(db'.projects[i]) && HasEnabledTag(db', db'.projects[i])
        && Open(db'.projects[j]) && HasEnabledTag(db', db'.projects[j])
        ensures db'.projects[i].name != db'.projects[j].name
      {
        assert db'.projects[i] == db.projects[i] && db.projects[i] in db.projects;
        if j < n {
          assert db'.projects[j] == db.projects[j];
        }
      }
    }
  }

  lemma DeleteProjectKeepsValid(db: Db, token: AccessToken, projectId: Option<nat>, now: Time, destroyed: bool)
    requires Valid(db)
    ensures Valid(DeleteProject(db, token, projectId, now, destroyed).1)
  {
    if DeleteProject(db, token, projectId, now, destroyed).0 == ResourceDeleted {
      var i := LiveProjectIndex(db, projectId.value).value;
      UpdateProjectKeepsValid(db, i, db.projects[i].(frozenAt := Some(now), deletedAt := Some(now)));
    }
  }

  lemma DeleteProjectKeepsNamesUnique(db: Db, token: AccessToken, projectId: Option<nat>, now: Time, destroyed: bool)
    requires OpenNamesUnique(db)
    ensures OpenNamesUnique(DeleteProject(db, token, projectId, now, destroyed).1)
  {
    var r := DeleteProject(db, token, projectId, now, destroyed);
    if r.0 == ResourceDeleted {
      var db' := r.1;
      var i := LiveProjectIndex(db, projectId.value).value;
      assert !Open(db'.projects[i]);
      assert forall k :: 0 <= k < |db.projects| && k != i ==> db'.projects[k] == db.projects[k];
    }
  }
}
