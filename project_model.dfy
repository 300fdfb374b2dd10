/** The `Project` and `ProjectTag` models (backend/app/database/dodoco/project.py):
    the column defaults of new rows, the project query every route builds
    its lookups from, `freeze` and the `to_dict` view. */
module ProjectModel {
  import opened Wrappers
  import opened Records
  import opened BackendText

  // ---------------------------------------------------------------- defaults

  /** A new `ProjectTag` row: `enabled` defaults to True. */
  function NewTag(uuid: nat, name: string, code: string, description: Option<string>): (t: Tag)
    ensures t.enabled
    ensures t.uuid == uuid && t.name == name && t.code == code && t.description == description
  {
    Tag(uuid, name, code, description, true)
  }

  /** A new `Project` row: `max_container_limit` defaults to 0, `approved`
      to NULL, and it is neither frozen nor deleted. */
  function NewProject(uuid: nat, name: string, description: Option<string>, tagId: nat, createdBy: nat): (p: Project)
    ensures p.maxContainerLimit == 0 && p.approved.None?
    ensures p.frozenAt.None? && p.deletedAt.None?
    ensures p.uuid == uuid && p.name == name && p.description == description
    ensures p.tagId == Some(tagId) && p.createdById == Some(createdBy)
  {
    Project(uuid, name, description, None, 0, Some(tagId), Some(createdBy), None, None)
  }

  /** A project that is neither deleted nor frozen. */
  predicate Open(p: Project) {
    p.deletedAt.None? && p.frozenAt.None?
  }

  // ---------------------------------------------------------------- query_builder

  /** The `tag` argument of `query_builder`: None, a list of codes, or one
      LIKE pattern. */
  datatype TagQuery = NoTag | TagCodes(codes: seq<string>) | TagPattern(pattern: string)

  /** Python truthiness of the `tag` argument. */
  predicate TagGiven(tag: TagQuery) {
    match tag
    case NoTag => false
    case TagCodes(codes) => codes != []
    case TagPattern(pattern) => pattern != ""
  }

  /** The arguments of `Project.query_builder` (`uuid_only` left out). */
  datatype QueryArgs = QueryArgs(
    projectId: Option<nat>, tag: TagQuery, userId: Option<nat>,
    queryAll: bool, showDeleted: bool, showFrozen: bool)

  /** The tag subquery: the project's tag is one of those the codes select. */
  predicate TagSelected(db: Db, tag: TagQuery, p: Project) {
    p.tagId.Some? &&
    exists t :: t in db.tags && t.uuid == p.tagId.value &&
      match tag
      case TagCodes(codes) => t.code in codes
      case TagPattern(pattern) => Like(t.code, pattern)
      case NoTag => false
  }

  /** The membership subquery: `user` has a member row in the project. */
  predicate IsMember(db: Db, user: nat, projectId: nat) {
    exists m :: m in db.members && m.userId == user && m.projectId == projectId
  }

  /** The WHERE clause `query_builder` composes, one conjunct per filter. */
  predicate Selected(db: Db, a: QueryArgs, p: Project) {
    && (a.showDeleted || p.deletedAt.None?)
    && (a.showFrozen || p.frozenAt.None?)
    && (a.queryAll || (a.userId.Some? && IsMember(db, a.userId.value, p.uuid)))
    && (if a.projectId.None? then !TagGiven(a.tag) || TagSelected(db, a.tag, p)
        else p.uuid == a.projectId.value)
  }

  /** `Project.query_builder(...).all()`: raises unless `user_id` is given
      or `query_all` is set; otherwise the projects in store order that
      pass every filter. */
  function QueryBuilder(db: Db, a: QueryArgs): (r: Result<seq<Project>, string>)
    ensures r.Err? <==> !a.queryAll && a.userId.None?
    ensures r.Ok? ==> forall j :: 0 <= j < |r.value| ==> r.value[j] in db.projects
  {
    if !a.queryAll && a.userId.None? then Err("One of user_id or query_all must be set")
    else Ok(Filter(db.projects, p => Selected(db, a, p)))
  }

  /** What each filter of the query guarantees about the rows it returns,
      and that every project passing them all is returned. */
  lemma QueryBuilderRows(db: Db, a: QueryArgs, p: Project)
    requires a.queryAll || a.userId.Some?
    ensures p in QueryBuilder(db, a).value ==> p in db.projects
    ensures p in QueryBuilder(db, a).value && !a.showDeleted ==> p.deletedAt.None?
    ensures p in QueryBuilder(db, a).value && !a.showFrozen ==> p.frozenAt.None?
    ensures p in QueryBuilder(db, a).value && !a.queryAll ==> IsMember(db, a.userId.value, p.uuid)
    ensures p in QueryBuilder(db, a).value && a.projectId.Some? ==> p.uuid == a.projectId.value
    ensures p in QueryBuilder(db, a).value && a.projectId.None? && TagGiven(a.tag) ==> TagSelected(db, a.tag, p)
    ensures p in db.projects && Selected(db, a, p) ==> p in QueryBuilder(db, a).value
  {
    var rows := QueryBuilder(db, a).value;
    if p in rows {
      var j :| 0 <= j < |rows| && rows[j] == p;
    }
    if p in db.projects && Selected(db, a, p) {
      var j :| 0 <= j < |db.projects| && db.projects[j] == p;
    }
  }

  /** With a project id the tag argument is ignored. */
  lemma QueryBuilderIgnoresTagForId(db: Db, a: QueryArgs, tag: TagQuery)
    requires a.projectId.Some?
    ensures QueryBuilder(db, a) == QueryBuilder(db, a.(tag := tag))
  {
    var b := a.(tag := tag);
    FilterCongruent(db.projects, p => Selected(db, a, p), p => Selected(db, b, p));
  }

  /** A falsy tag (None, `[]` or `''`) adds no tag filter. */
  lemma QueryBuilderFalsyTag(db: Db, a: QueryArgs)
    requires !TagGiven(a.tag)
    ensures QueryBuilder(db, a) == QueryBuilder(db, a.(tag := NoTag))
  {
    var b := a.(tag := NoTag);
    FilterCongruent(db.projects, p => Selected(db, a, p), p => Selected(db, b, p));
  }

  // ---------------------------------------------------------------- freeze

  /** `freeze(frozen_time)` on the row: the timestamp is the given instant,
      or `now` when none is given. */
  function Freeze(p: Project, frozenTime: Option<Time>, now: Time): (q: Project)
    ensures q.frozenAt == Some(frozenTime.GetOr(now))
    ensures q == p.(frozenAt := q.frozenAt)
  {
    p.(frozenAt := Some(frozenTime.GetOr(now)))
  }

  // ---------------------------------------------------------------- to_dict

  /** `Project.to_dict()`: nested rows are given by their keys, timestamps
      other than `frozen_at` are left out. */
  datatype ProjectView = ProjectView(
    uuid: nat, name: string, description: string, approved: bool, maxContainerLimit: int,
    tagId: Option<nat>, tag: Tag,
    containers: Option<seq<nat>>, frozenAt: Option<Time>, members: Option<seq<nat>>)

  /** The keys of the rows a relationship backref lists for a project, in
      table order: the rows whose `parent` is the project. */
  function ChildKeys<T>(rows: seq<T>, parent: T -> nat, key: T -> nat, projectId: nat): (r: seq<nat>)
    ensures |r| <= |rows|
    ensures r == [] <==> forall j :: 0 <= j < |rows| ==> parent(rows[j]) != projectId
    ensures forall j :: 0 <= j < |rows| && parent(rows[j]) == projectId ==> key(rows[j]) in r
    decreases |rows|
  {
    if rows == [] then []
    else
      var tail := ChildKeys(rows[1..], parent, key, projectId);
      assert forall j :: 1 <= j < |rows| ==> rows[j] == rows[1..][j - 1];
      if parent(rows[0]) == projectId then [key(rows[0])] + tail else tail
  }

  /** The project's tag row; None when the project has no tag (reading
      `self.tag.to_dict()` then raises). */
  function TagOf(db: Db, p: Project): (r: Option<Tag>)
    ensures r.Some? ==> r.value in db.tags && p.tagId == Some(r.value.uuid)
    ensures r.None? <==> p.tagId.None? || forall j :: 0 <= j < |db.tags| ==> db.tags[j].uuid != p.tagId.value
  {
    if p.tagId.None? then None
    else
      match FirstIndex(db.tags, (t: Tag) => t.uuid == p.tagId.value)
      case None => None
      case Some(i) => Some(db.tags[i])
  }

  /** The project row a container belongs to. */
  function ProjectRowOf(db: Db, c: Container): (r: Option<Project>)
    ensures r.Some? ==> r.value in db.projects && r.value.uuid == c.projectId
    ensures r.None? <==> forall j :: 0 <= j < |db.projects| ==> db.projects[j].uuid != c.projectId
  {
    match FirstIndex(db.projects, (p: Project) => p.uuid == c.projectId)
    case None => None
    case Some(i) => Some(db.projects[i])
  }

  /** `Container.to_dict()` renders: it raises for a container without
      creator (`None.to_dict()` on the nullable `created_by`), and when the
      project it belongs to has no tag, whose `to_dict` then raises. Users
      are not modelled; a creator id is taken to name an existing user. */
  predicate ContainerRenders(db: Db, c: Container) {
    c.createdById.Some? && (ProjectRowOf(db, c).Some? ==> TagOf(db, ProjectRowOf(db, c).value).Some?)
  }

  /** Every container of the project renders. */
  predicate ContainersRender(db: Db, projectId: nat) {
    forall j :: 0 <= j < |db.containers| && db.containers[j].projectId == projectId ==> ContainerRenders(db, db.containers[j])
  }

  /** `to_dict(show_container)`: NULL description and approval read as
      `''` and False; `containers`, `frozen_at` and `members` appear only
      when there is something to show. With `show_container` every
      container of the project is rendered, so one that raises makes the
      whole rendering raise. */
  function ProjectToDict(db: Db, p: Project, showContainer: bool): (r: Option<ProjectView>)
    ensures r.Some? <==> TagOf(db, p).Some? && (showContainer ==> ContainersRender(db, p.uuid))
    ensures r.Some? ==> r.value.description == p.description.GetOr("")
    ensures r.Some? ==> (r.value.approved <==> p.approved == Some(true))
    ensures r.Some? ==> (r.value.containers.Some? <==>
              showContainer && exists j :: 0 <= j < |db.containers| && db.containers[j].projectId == p.uuid)
    ensures r.Some? ==> r.value.frozenAt == p.frozenAt
    ensures r.Some? ==> (r.value.members.Some? <==>
              exists j :: 0 <= j < |db.members| && db.members[j].projectId == p.uuid)
  {
    match TagOf(db, p)
    case None => None
    case Some(tag) =>
      if showContainer && !ContainersRender(db, p.uuid) then None
      else
      var containers := ChildKeys(db.containers, (c: Container) => c.projectId, (c: Container) => c.uuid, p.uuid);
      var members := ChildKeys(db.members, (m: Member) => m.projectId, (m: Member) => m.uuid, p.uuid);
      Some(ProjectView(
        p.uuid, p.name,
        match p.description case Some(d) => d case None => "",
        match p.approved case Some(b) => b case None => false,
        p.maxContainerLimit, p.tagId, tag,
        if showContainer && containers != [] then Some(containers) else None,
        p.frozenAt,
        if members != [] then Some(members) else None))
  }

  /** A container of the project without a creator makes the rendering
      with containers raise, while the rendering without them, as a
      container's own view of its project does it, is unaffected. */
  lemma CreatorlessContainerBreaksRendering(db: Db, p: Project, c: Container)
    requires c in db.containers && c.projectId == p.uuid && c.createdById.None?
    ensures ProjectToDict(db, p, true).None?
    ensures ProjectToDict(db, p, false).Some? <==> TagOf(db, p).Some?
  {
    var j :| 0 <= j < |db.containers| && db.containers[j] == c;
    assert !ContainerRenders(db, db.containers[j]);
  }
}
