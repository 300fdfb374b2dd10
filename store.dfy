/** The database session the backend routes work through, as an object
    whose tables the handlers update in place: rows are added, fields of
    fetched rows are assigned, and rows are deleted. Each handler is proved
    to leave the tables exactly as the matching route function says, and
    to keep the store invariant. */
module Session {
  import opened Wrappers
  import opened Text
  import opened Records
  import opened ProjectModel
  import opened ProjectRoutes
  import opened ApproveRoutes
  import opened TagRoutes
  import opened ContainerModel
  import opened CreateContainerRoute
  import opened ContainerRoutes

  /** Both invariants the project handlers keep, across POST /projects. */
  lemma PostProjectKeeps(db: Db, token: AccessToken, projectId: Option<nat>, body: NewProjectBody)
    ensures var db' := ProjectRoutes.PostProject(db, token, projectId, body).1;
            && (Valid(db) ==> Valid(db'))
            && (OpenNamesUnique(db) ==> OpenNamesUnique(db'))
  {
    if Valid(db) {
      PostProjectKeepsValid(db, token, projectId, body);
    }
    if OpenNamesUnique(db) {
      PostProjectKeepsNamesUnique(db, token, projectId, body);
    }
  }

  /** One `d.update(port.to_dict())` of `get_container_ports` extends the
      fold by one row. */
  lemma MergeStep(rows: seq<Port>, k: nat)
    requires k < |rows|
    ensures PortsOf(rows[..k]) + PortDef(rows[k]) == PortsOf(rows[..k + 1])
  {
    var o := rows[k];
    calc {
      PortsOf(rows[..k + 1]);
      { assert rows[..k + 1] == rows[..k] + [o]; }
      PortsOf(rows[..k] + [o]);
      { PortsOfAppend(rows[..k], o); }
      PortsOf(rows[..k])[KeyOf(o) := o.exposedPort];
      { assert PortDef(o) == map[KeyOf(o) := o.exposedPort]; }
      PortsOf(rows[..k]) + PortDef(o);
    }
  }

  class Store {
    var tags: seq<Tag>
    var projects: seq<Project>
    var members: seq<Member>
    var containers: seq<Container>
    var ports: seq<Port>
    var nextId: nat

    /** The tables as a value. */
    function State(): Db
      reads this
    {
      Db(tags, projects, members, containers, ports, nextId)
    }

    /** An empty database. */
    constructor ()
      ensures State() == EmptyDb()
    {
      tags := [];
      projects := [];
      members := [];
      containers := [];
      ports := [];
      nextId := 0;
    }

    // -------------------------------------------------------------- projects

    /** POST /projects: adds the project and the caller's leader row. */
    method PostProject(token: AccessToken, projectId: Option<nat>, body: NewProjectBody) returns (c: Case)
      modifies this
      ensures (c, State()) == ProjectRoutes.PostProject(old(State()), token, projectId, body)
      ensures Valid(old(State())) ==> Valid(State())
      ensures OpenNamesUnique(old(State())) ==> OpenNamesUnique(State())
    {
      PostProjectKeeps(State(), token, projectId, body);
      if IdGiven(projectId) {
        return HttpMtdForbidden;
      }
      if NameTaken(State(), body.name) {
        return ResourceConflict(["UNIQUE:name"]);
      }
      var tag := EnabledTagIndex(State(), body.tagCode);
      if tag.None? {
        return ResourceNotFound(["project_tag"]);
      }
      var p := NewProject(nextId, body.name, body.description, tags[tag.value].uuid, token.user);
      var m := Member(nextId + 1, nextId, token.user, true, true);
      projects := projects + [p];
      members := members + [m];
      nextId := nextId + 2;
      c := ResourceCreated;
    }

    /** DELETE /projects/<id>: freezes and marks the project deleted, or
        rolls back when destroying one of its containers raises. */
    method DeleteProject(token: AccessToken, projectId: Option<nat>, now: Time, destroyed: bool) returns (c: Case)
      modifies this
      ensures (c, State()) == ProjectRoutes.DeleteProject(old(State()), token, projectId, now, destroyed)
      ensures Valid(old(State())) ==> Valid(State())
      ensures OpenNamesUnique(old(State())) ==> OpenNamesUnique(State())
    {
      ghost var db := State();
      if Valid(db) {
        DeleteProjectKeepsValid(db, token, projectId, now, destroyed);
      }
      if OpenNamesUnique(db) {
        DeleteProjectKeepsNamesUnique(db, token, projectId, now, destroyed);
      }
      if !IdGiven(projectId) {
        return HttpMtdForbidden;
      }
      var target := LiveProjectIndex(State(), projectId.value);
      if target.None? {
        return ResourceNotFound([]);
      }
      var i := target.value;
      if !token.admin && projects[i].createdById != Some(token.user) {
        return ResourceForbidden;
      }
      if HasContainers(State(), projects[i].uuid) && !destroyed {
        return DbError;
      }
      projects := projects[i := Freeze(projects[i], Some(now), now).(deletedAt := Some(now))];
      c := ResourceDeleted;
    }

    /** PUT/DELETE /projects/<id>/approve: writes the approval. */
    method SetApproval(token: AccessToken, projectId: nat, approve: bool) returns (c: Case)
      modifies this
      ensures (c, State()) == ApproveRoutes.SetApproval(old(State()), token, projectId, approve)
      ensures Valid(old(State())) ==> Valid(State())
      ensures OpenNamesUnique(old(State())) ==> OpenNamesUnique(State())
    {
      ghost var db := State();
      if Valid(db) {
        SetApprovalKeepsValid(db, token, projectId, approve);
      }
      if OpenNamesUnique(db) {
        SetApprovalKeepsNamesUnique(db, token, projectId, approve);
      }
      if !token.admin {
        return ResourceForbidden;
      }
      var target := ApproveTarget(State(), projectId);
      if target.None? {
        return ResourceNotFound(["project"]);
      }
      var i := target.value;
      projects := projects[i := projects[i].(approved := Some(approve))];
      if ProjectToDict(State(), projects[i], true).None? {
        return DbError;
      }
      c := ResourceModified;
    }

    // -------------------------------------------------------------- tags

    /** POST /tags: adds an enabled tag unless its code or name clashes. */
    method PostTag(token: AccessToken, tagCode: Option<string>, body: NewTagBody) returns (c: Case)
      modifies this
      ensures (c, State()) == TagRoutes.PostTag(old(State()), token, tagCode, body)
      ensures Valid(old(State())) ==> Valid(State())
      ensures TagsUnique(old(State())) ==> TagsUnique(State())
    {
      ghost var db := State();
      if Valid(db) {
        PostTagKeepsValid(db, token, tagCode, body);
      }
      if TagsUnique(db) {
        PostTagKeepsTagsUnique(db, token, tagCode, body);
      }
      if CodeGiven(tagCode) {
        return HttpMtdForbidden;
      }
      if !token.admin {
        return ResourceForbidden;
      }
      var rows := ClashRows(State(), body);
      if rows != [] {
        return ResourceUniqueFailed(DuplicateFields(body, rows[0]));
      }
      tags := tags + [NewTag(nextId, body.name, body.code, body.description)];
      nextId := nextId + 1;
      c := ResourceCreated;
    }

    /** DELETE /tags/<code>: disables the enabled tag with the code. */
    method DeleteTag(token: AccessToken, tagCode: Option<string>) returns (c: Case)
      modifies this
      ensures (c, State()) == TagRoutes.DeleteTag(old(State()), token, tagCode)
      ensures Valid(old(State())) && TagsUnique(old(State())) ==> Valid(State()) && TagsUnique(State())
    {
      ghost var db := State();
      if Valid(db) && TagsUnique(db) {
        DeleteTagKeepsInvariants(db, token, tagCode);
      }
      if !CodeGiven(tagCode) {
        return HttpMtdForbidden;
      }
      if !token.admin {
        return ResourceForbidden;
      }
      var target := EnabledCodeIndex(State(), tagCode.value);
      if target.None? {
        return ResourceNotFound([]);
      }
      tags := tags[target.value := tags[target.value].(enabled := false)];
      c := ResourceDeleted;
    }

    // -------------------------------------------------------------- containers

    /** `add_port_mapping(..., db_commit=False)`: one new port row. */
    method AddPortMapping(containerUuid: nat, containerPort: int, exposedPort: int, protocol: Protocol)
      modifies this
      ensures State() == ContainerModel.AddPortMapping(old(State()), containerUuid, containerPort, exposedPort, protocol)
    {
      ports := ports + [Port(nextId, containerUuid, containerPort, protocol, exposedPort)];
      nextId := nextId + 1;
    }

    /** The record deletions of `destroy`. */
    method Destroy(i: nat)
      requires i < |containers|
      modifies this
      ensures State() == ContainerModel.Destroy(old(State()), i)
    {
      var uuid := containers[i].uuid;
      ports := OtherPorts(ports, uuid);
      containers := containers[..i] + containers[i + 1..];
    }

    /** `check_existance(db_commit)`. */
    method CheckExistance(i: nat, alive: bool, dbCommit: bool) returns (kept: Option<nat>)
      requires i < |containers|
      modifies this
      ensures (kept, State()) == ContainerModel.CheckExistance(old(State()), i, alive, dbCommit)
    {
      if alive {
        return Some(containers[i].uuid);
      }
      if dbCommit {
        Destroy(i);
      }
      kept := None;
    }

    /** `get_container_ports()`: each port row of the container merged into
        the dict in store order. */
    method GetContainerPorts(containerUuid: nat) returns (m: map<string, int>)
      ensures m == ContainerPorts(State(), containerUuid)
    {
      var rows := PortRows(State(), containerUuid);
      m := map[];
      for k := 0 to |rows|
        invariant m == PortsOf(rows[..k])
      {
        MergeStep(rows, k);
        m := m + PortDef(rows[k]);
      }
      assert rows[..|rows|] == rows;
    }

    /** POST /projects/<id>/containers. After the checks: the container
        row, then one port row per protocol of each port spec, the `k`-th
        spec drawing the free port `exposed(k)`, then the fields `create`
        sets. */
    method CreateContainer(token: AccessToken, projectId: nat, body: NewContainerBody,
                           exposed: nat -> int, nameToken: seq<byte>, docker: Option<string>) returns (c: Case)
      modifies this
      ensures (c, State()) == CreateContainerRoute.CreateContainer(old(State()), token, projectId, body, exposed, nameToken, docker)
      ensures Valid(old(State())) ==> Valid(State())
    {
      ghost var db := State();
      if Valid(db) {
        CreateContainerKeepsValid(db, token, projectId, body, exposed, nameToken, docker);
      }
      var target := TargetProjectIndex(State(), projectId);
      if target.None? {
        return ResourceNotFound(["project"]);
      }
      var p := projects[target.value];
      if !Approved(p) {
        return ResourceForbidden;
      }
      if !token.admin && !IsMember(State(), token.user, p.uuid) {
        return ResourceForbidden;
      }
      if ContainerCount(State(), p.uuid) >= p.maxContainerLimit {
        return ResourceConflict(["CONTAINER_COUNT_LIMIT"]);
      }
      if NormaliseImage(body.imageName).0 !in Whitelist {
        return BodyBadSemantics("image");
      }
      var image := ImageName(body.imageName);
      var parsed := ParsePortSpecs(Whitelist["ubuntu"]);
      c := Launch(image, parsed, p.uuid, token.user, body, exposed, nameToken, docker);
    }

    /** The work after the checks of `CreateContainer`. */
    method Launch(image: string, parsed: Option<seq<PortSpec>>, projectUuid: nat, user: nat, body: NewContainerBody,
                  exposed: nat -> int, nameToken: seq<byte>, docker: Option<string>) returns (c: Case)
      modifies this
      ensures (c, State()) == CreateContainerRoute.Launch(old(State()), projectUuid, user, body, image, parsed, exposed, nameToken, docker)
    {
      ghost var db := State();
      var uuid := nextId;
      var k0 := |containers|;
      containers := containers + [Container(uuid, body.name, body.description, None, None, None, projectUuid, Some(user))];
      nextId := nextId + 1;
      if parsed.None? {
        return ServerError;
      }
      var specs := parsed.value;
      ghost var db1 := State();
      for k := 0 to |specs|
        invariant MapPorts(State(), uuid, specs[k..], exposed, k) == MapPorts(db1, uuid, specs, exposed, 0)
      {
        MapSpec(specs, k, uuid, exposed);
      }
      assert State() == MapPorts(db1, uuid, specs, exposed, 0) by {
        assert specs[|specs|..] == [];
      }
      LaunchParsed(db, projectUuid, user, body, image, specs, exposed, nameToken, docker);
      ghost var db2 := State();
      assert k0 < |db2.containers|;
      var name := ContainerNameFor(image, nameToken);
      if name.None? || docker.None? {
        assert Start(db2, k0, image, nameToken, docker) == (ServerError, db2);
        return ServerError;
      }
      containers := containers[k0 := Created(containers[k0], image, name.value, docker.value)];
      c := ResourceCreated;
      assert Start(db2, k0, image, nameToken, docker) == (c, State());
    }

    /** The inner loop for the `k`-th spec. */
    method MapSpec(specs: seq<PortSpec>, k: nat, uuid: nat, exposed: nat -> int)
      requires k < |specs|
      modifies this
      ensures MapPorts(State(), uuid, specs[k + 1..], exposed, k + 1) == MapPorts(old(State()), uuid, specs[k..], exposed, k)
    {
      var spec := specs[k];
      var exposedPort := exposed(k);
      ghost var dbk := State();
      assert specs[k..][1..] == specs[k + 1..];
      for q := 0 to |spec.protocols|
        invariant MapProtocols(State(), uuid, spec.containerPort, exposedPort, spec.protocols[q..])
                  == MapProtocols(dbk, uuid, spec.containerPort, exposedPort, spec.protocols)
      {
        assert spec.protocols[q..][1..] == spec.protocols[q + 1..];
        AddPortMapping(uuid, spec.containerPort, exposedPort, spec.protocols[q]);
      }
      assert spec.protocols[|spec.protocols|..] == [];
    }

    /** DELETE /containers/<id>, refusing callers who may not delete the
        container; `destroyed` is whether Docker's part of `destroy`
        succeeds. */
    method DeleteContainer(token: AccessToken, containerId: Option<nat>, alive: bool, destroyed: bool)
      returns (c: Case)
      modifies this
      ensures (c, State()) == ContainerRoutes.DeleteContainerChecked(old(State()), token, containerId, alive, destroyed)
      ensures Valid(old(State())) ==> Valid(State())
    {
      ghost var db := State();
      if Valid(db) {
        DeleteContainerCheckedKeepsValid(db, token, containerId, alive, destroyed);
      }
      if !IdGiven(containerId) {
        return HttpMtdForbidden;
      }
      var target := ContainerIndex(State(), containerId.value);
      if target.None? {
        return ResourceNotFound([]);
      }
      if !MayDelete(State(), token, containers[target.value]) {
        return ResourceForbidden;
      }
      if alive && !destroyed {
        // `kill` raised inside `destroy`: the session rolls back
        return DbError;
      }
      var kept := CheckExistance(target.value, alive, true);
      if kept.Some? {
        Destroy(target.value);
      }
      c := ResourceDeleted;
    }
  }
}
