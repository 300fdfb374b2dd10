/** `ProjectApproveRoute` (backend/app/api/dodoco/projects/project_approve.py):
    PUT approves and DELETE disapproves a project; both are for admins only
    and write `approved` on the first open project with the id. */
module ApproveRoutes {
  import opened Wrappers
  import opened Records
  import opened ProjectModel
  import opened ProjectRoutes

  /** The `query_builder` arguments both verbs pass: every user's projects,
      neither deleted nor frozen ones, no tag. */
  function ApproveArgs(id: nat): (a: QueryArgs)
    ensures a.projectId == Some(id) && a.queryAll && !a.showDeleted && !a.showFrozen
  {
    QueryArgs(Some(id), NoTag, None, true, false, false)
  }

  /** `project_query.first()`: the index of the row both verbs update. */
  function ApproveTarget(db: Db, id: nat): (r: Option<nat>)
    ensures r.Some? ==> r.value < |db.projects| && db.projects[r.value].uuid == id && Open(db.projects[r.value])
    ensures r.None? <==> forall j :: 0 <= j < |db.projects| ==> !(db.projects[j].uuid == id && Open(db.projects[j]))
  {
    FirstIndex(db.projects, p => Selected(db, ApproveArgs(id), p))
  }

  /** The row updated is the first row of the query's `.all()`, and there
      is none exactly when the query returns nothing. */
  lemma ApproveTargetIsFirstRow(db: Db, id: nat)
    ensures ApproveTarget(db, id).None? <==> QueryBuilder(db, ApproveArgs(id)).value == []
    ensures ApproveTarget(db, id).Some? ==>
              QueryBuilder(db, ApproveArgs(id)).value[0] == db.projects[ApproveTarget(db, id).value]
  {
    FilterHead(db.projects, p => Selected(db, ApproveArgs(id), p));
  }

  /** PUT (`approve` true) and DELETE (`approve` false) on
      /projects/<id>/approve. After the commit the reply renders the
      project; when that raises (a project without a tag row, or with a
      container that cannot be rendered) the route answers with a database
      error although the change is committed. */
  function SetApproval(db: Db, token: AccessToken, projectId: nat, approve: bool): (r: (Case, Db))
    ensures r.0 == ResourceForbidden <==> !token.admin
    ensures r.0 == ResourceNotFound(["project"]) <==> token.admin && ApproveTarget(db, projectId).None?
    ensures r.0 in {ResourceForbidden, ResourceNotFound(["project"]), ResourceModified, DbError}
    ensures r.0 in {ResourceForbidden, ResourceNotFound(["project"])} ==> r.1 == db
    ensures r.0 in {ResourceModified, DbError} ==>
              var i := ApproveTarget(db, projectId).value;
              && r.1 == db.(projects := db.projects[i := db.projects[i].(approved := Some(approve))])
              && (r.0 == DbError <==> ProjectToDict(r.1, r.1.projects[i], true).None?)
  {
    if !token.admin then (ResourceForbidden, db)
    else
      match ApproveTarget(db, projectId)
      case None => (ResourceNotFound(["project"]), db)
      case Some(i) =>
        var db' := db.(projects := db.projects[i := db.projects[i].(approved := Some(approve))]);
        if ProjectToDict(db', db'.projects[i], true).None? then (DbError, db') else (ResourceModified, db')
  }

  /** Approving a project with a container that has no creator commits the
      change and then answers with a database error, because the reply
      renders the project's containers. */
  lemma CreatorlessContainerFailsApproval(db: Db, token: AccessToken, projectId: nat, approve: bool, c: Container)
    requires token.admin && ApproveTarget(db, projectId).Some?
    requires c in db.containers && c.createdById.None?
    requires c.projectId == db.projects[ApproveTarget(db, projectId).value].uuid
    ensures SetApproval(db, token, projectId, approve).0 == DbError
  {
    var i := ApproveTarget(db, projectId).value;
    var db' := db.(projects := db.projects[i := db.projects[i].(approved := Some(approve))]);
    CreatorlessContainerBreaksRendering(db', db'.projects[i], c);
  }

  /** Writing `approved` never moves the target: the same row is found
      again afterwards. */
  lemma ApproveTargetStable(db: Db, id: nat, i: nat, v: bool)
    requires ApproveTarget(db, id) == Some(i)
    ensures ApproveTarget(db.(projects := db.projects[i := db.projects[i].(approved := Some(v))]), id) == Some(i)
  {
    var db' := db.(projects := db.projects[i := db.projects[i].(approved := Some(v))]);
    FirstIndexCongruent(db.projects, p => Selected(db, ApproveArgs(id), p),
                        db'.projects, p => Selected(db', ApproveArgs(id), p));
  }

  /** Of two approval calls on the same project the later one decides:
      approving twice is approving once, and approve-then-disapprove is
      disapprove. */
  lemma LastApprovalWins(db: Db, token: AccessToken, id: nat, first: bool, second: bool)
    ensures SetApproval(SetApproval(db, token, id, first).1, token, id, second).1
            == SetApproval(db, token, id, second).1
  {
    if token.admin && ApproveTarget(db, id).Some? {
      var i := ApproveTarget(db, id).value;
      var db1 := SetApproval(db, token, id, first).1;
      ApproveTargetStable(db, id, i, first);
      assert db1.projects[i := db1.projects[i].(approved := Some(second))]
             == db.projects[i := db.projects[i].(approved := Some(second))];
    }
  }

  lemma SetApprovalKeepsValid(db: Db, token: AccessToken, id: nat, approve: bool)
    requires Valid(db)
    ensures Valid(SetApproval(db, token, id, approve).1)
  {
    if token.admin && ApproveTarget(db, id).Some? {
      var i := ApproveTarget(db, id).value;
      UpdateProjectKeepsValid(db, i, db.projects[i].(approved := Some(approve)));
    }
  }

  /** Approval does not touch what the name rule looks at. */
  lemma SetApprovalKeepsNamesUnique(db: Db, token: AccessToken, id: nat, approve: bool)
    requires OpenNamesUnique(db)
    ensures OpenNamesUnique(SetApproval(db, token, id, approve).1)
  {
    if token.admin && ApproveTarget(db, id).Some? {
      var i := ApproveTarget(db, id).value;
      var db' := db.(projects := db.projects[i := db.projects[i].(approved := Some(approve))]);
      assert SetApproval(db, token, id, approve).1 == db';
      forall k | 0 <= k < |db.projects|
        ensures db'.projects[k].name == db.projects[k].name
        ensures Open(db'.projects[k]) == Open(db.projects[k])
        ensures HasEnabledTag(db', db'.projects[k]) == HasEnabledTag(db, db.projects[k])
      {
      }
    }
  }
}
