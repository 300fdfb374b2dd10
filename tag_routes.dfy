/** `TagMainRoute` (backend/app/api/dodoco/tags/tags.py): list tags by a
    code substring, register a tag (admins only, code and enabled name
    unique), and disable a tag by its code (admins only). */
module TagRoutes {
  import opened Wrappers
  import opened Text
  import opened Records
  import opened BackendText
  import opened ProjectModel

  /** Python truthiness of the optional `tag_code` path parameter. */
  predicate CodeGiven(code: Option<string>) {
    code.Some? && code.value != ""
  }

  // ---------------------------------------------------------------- GET

  /** The filters GET composes: enabled tags unless `show-disabled`, and
      codes matching `%<tag_code>%` when a code is given. */
  predicate Listed(showDisabled: bool, tagCode: Option<string>, t: Tag) {
    && (showDisabled || t.enabled)
    && (CodeGiven(tagCode) ==> Like(t.code, ['%'] + tagCode.value + ['%']))
  }

  /** GET /tags[/<code>]: not found for no row, found for exactly one,
      otherwise every selected row in store order. */
  function GetTags(db: Db, showDisabled: bool, tagCode: Option<string>): (r: (Case, seq<Tag>))
    ensures r.1 == Filter(db.tags, t => Listed(showDisabled, tagCode, t))
    ensures r.0 == ResourceNotFound([]) <==> forall j :: 0 <= j < |db.tags| ==> !Listed(showDisabled, tagCode, db.tags[j])
    ensures r.0 == ResourceFound <==> |r.1| == 1
    ensures r.0 in {ResourceNotFound([]), ResourceFound, MultipleResourcesFound}
  {
    var rows := Filter(db.tags, t => Listed(showDisabled, tagCode, t));
    FilterHead(db.tags, t => Listed(showDisabled, tagCode, t));
    if rows == [] then (ResourceNotFound([]), rows)
    else if |rows| == 1 then (ResourceFound, rows)
    else (MultipleResourcesFound, rows)
  }

  /** With a wildcard-free code, GET lists a tag exactly when the code
      occurs in the tag's code (and the tag is enabled unless disabled
      tags are asked for). */
  lemma GetTagsBySubstring(db: Db, showDisabled: bool, code: string, t: Tag)
    requires code != "" && Literal(code)
    requires t in db.tags
    ensures t in GetTags(db, showDisabled, Some(code)).1 <==> (showDisabled || t.enabled) && Contains(t.code, code)
  {
    LikeContains(t.code, code);
  }

  // ---------------------------------------------------------------- POST

  /** The body of POST /tags. */
  datatype NewTagBody = NewTagBody(name: string, code: string, description: Option<string>)

  /** The uniqueness query: an enabled tag with the name, or any tag with
      the code. */
  predicate Clashes(body: NewTagBody, t: Tag) {
    (t.enabled && t.name == body.name) || t.code == body.code
  }

  /** The rows the uniqueness query returns, in store order. */
  function ClashRows(db: Db, body: NewTagBody): (r: seq<Tag>)
    ensures r == [] <==> forall j :: 0 <= j < |db.tags| ==> !Clashes(body, db.tags[j])
    ensures r != [] ==> r[0] in db.tags && Clashes(body, r[0])
  {
    FilterHead(db.tags, t => Clashes(body, t));
    Filter(db.tags, t => Clashes(body, t))
  }

  /** The `duplicate` list reported for the first clashing row: `code`
      before `name`. */
  function DuplicateFields(body: NewTagBody, t: Tag): (r: seq<string>)
    ensures "code" in r <==> t.code == body.code
    ensures "name" in r <==> t.name == body.name
    ensures Clashes(body, t) ==> r != []
    ensures |r| <= 2 && ("code" in r ==> r[0] == "code")
  {
    (if t.code == body.code then ["code"] else []) + (if t.name == body.name then ["name"] else [])
  }

  /** POST /tags: refuses a path code, then a caller who is not an admin,
      then a clash; otherwise adds an enabled tag. */
  function PostTag(db: Db, token: AccessToken, tagCode: Option<string>, body: NewTagBody): (r: (Case, Db))
    ensures r.0 == HttpMtdForbidden <==> CodeGiven(tagCode)
    ensures r.0 == ResourceForbidden <==> !CodeGiven(tagCode) && !token.admin
    ensures r.0.ResourceUniqueFailed? <==>
              !CodeGiven(tagCode) && token.admin && exists j :: 0 <= j < |db.tags| && Clashes(body, db.tags[j])
    ensures r.0.ResourceUniqueFailed? ==> r.0.duplicate != []
    ensures r.0.ResourceUniqueFailed? ==> r.0.duplicate == DuplicateFields(body, ClashRows(db, body)[0])
    ensures r.0 != ResourceCreated ==> r.1 == db
    ensures r.0 == ResourceCreated ==>
              r.1 == db.(tags := db.tags + [NewTag(db.nextId, body.name, body.code, body.description)], nextId := db.nextId + 1)
    ensures r.0 == ResourceCreated || r.0 == HttpMtdForbidden || r.0 == ResourceForbidden || r.0.ResourceUniqueFailed?
  {
    if CodeGiven(tagCode) then (HttpMtdForbidden, db)
    else if !token.admin then (ResourceForbidden, db)
    else
      var rows := ClashRows(db, body);
      if rows != [] then
        (ResourceUniqueFailed(DuplicateFields(body, rows[0])), db)
      else
        (ResourceCreated, db.(tags := db.tags + [NewTag(db.nextId, body.name, body.code, body.description)], nextId := db.nextId + 1))
  }

  // ---------------------------------------------------------------- DELETE

  /** The row DELETE disables: the first enabled tag with the code. */
  function EnabledCodeIndex(db: Db, code: string): (r: Option<nat>)
    ensures r.Some? ==> r.value < |db.tags| && db.tags[r.value].enabled && db.tags[r.value].code == code
    ensures r.None? <==> forall j :: 0 <= j < |db.tags| ==> !(db.tags[j].enabled && db.tags[j].code == code)
  {
    FirstIndex(db.tags, (t: Tag) => t.code == code && t.enabled)
  }

  /** DELETE /tags/<code>: refuses a missing code, then a caller who is not
      an admin, then a code no enabled tag has; otherwise disables the tag,
      keeping its row. */
  function DeleteTag(db: Db, token: AccessToken, tagCode: Option<string>): (r: (Case, Db))
    ensures r.0 == HttpMtdForbidden <==> !CodeGiven(tagCode)
    ensures r.0 == ResourceForbidden <==> CodeGiven(tagCode) && !token.admin
    ensures r.0 == ResourceNotFound([]) <==>
              CodeGiven(tagCode) && token.admin && EnabledCodeIndex(db, tagCode.value).None?
    ensures r.0 != ResourceDeleted ==> r.1 == db
    ensures r.0 == ResourceDeleted ==>
              var i := EnabledCodeIndex(db, tagCode.value).value;
              r.1 == db.(tags := db.tags[i := db.tags[i].(enabled := false)])
    ensures r.0 in {HttpMtdForbidden, ResourceForbidden, ResourceNotFound([]), ResourceDeleted}
  {
    if !CodeGiven(tagCode) then (HttpMtdForbidden, db)
    else if !token.admin then (ResourceForbidden, db)
    else
      match EnabledCodeIndex(db, tagCode.value)
      case None => (ResourceNotFound([]), db)
      case Some(i) => (ResourceDeleted, db.(tags := db.tags[i := db.tags[i].(enabled := false)]))
  }

  // ---------------------------------------------------------------- invariants

  /** The rules POST enforces: no two tags share a code, no two enabled
      tags share a name. */
  predicate TagsUnique(db: Db) {
    forall i, j :: 0 <= i < j < |db.tags| ==>
      db.tags[i].code != db.tags[j].code && !(db.tags[i].enabled && db.tags[j].enabled && db.tags[i].name == db.tags[j].name)
  }

  lemma PostTagKeepsValid(db: Db, token: AccessToken, tagCode: Option<string>, body: NewTagBody)
    requires Valid(db)
    ensures Valid(PostTag(db, token, tagCode, body).1)
  {
    if PostTag(db, token, tagCode, body).0 == ResourceCreated {
      var db' := PostTag(db, token, tagCode, body).1;
      assert forall k :: 0 <= k < |db.tags| ==> db'.tags[k] == db.tags[k];
      forall x | x in db'.projects && x.tagId.Some? ensures TagExists(db', x.tagId.value) {
        TagExistsKept(db, db', x.tagId.value);
      }
      forall i, j | 0 <= i < j < |db'.tags| ensures db'.tags[i].uuid != db'.tags[j].uuid {
        assert db.tags[i] in db.tags;
      }
    }
  }

  lemma PostTagKeepsTagsUnique(db: Db, token: AccessToken, tagCode: Option<string>, body: NewTagBody)
    requires TagsUnique(db)
    ensures TagsUnique(PostTag(db, token, tagCode, body).1)
  {
    if PostTag(db, token, tagCode, body).0 == ResourceCreated {
      var db' := PostTag(db, token, tagCode, body).1;
      forall i, j | 0 <= i < j < |db'.tags|
        ensures db'.tags[i].code != db'.tags[j].code
        ensures !(db'.tags[i].enabled && db'.tags[j].enabled && db'.tags[i].name == db'.tags[j].name)
      {
        assert db'.tags[i] == db.tags[i];
        if j == |db.tags| {
          assert !Clashes(body, db.tags[i]);
        } else {
          assert db'.tags[j] == db.tags[j];
        }
      }
    }
  }

  lemma DeleteTagKeepsInvariants(db: Db, token: AccessToken, tagCode: Option<string>)
    requires Valid(db) && TagsUnique(db)
    ensures Valid(DeleteTag(db, token, tagCode).1) && TagsUnique(DeleteTag(db, token, tagCode).1)
  {
    if DeleteTag(db, token, tagCode).0 == ResourceDeleted {
      var i := EnabledCodeIndex(db, tagCode.value).value;
      UpdateTagKeepsValid(db, i, db.tags[i].(enabled := false));
    }
  }

  /** A tag POST creates is listed by GET with its own code. */
  lemma PostedTagIsListed(db: Db, token: AccessToken, body: NewTagBody)
    requires body.code != "" && Literal(body.code)
    requires PostTag(db, token, None, body).0 == ResourceCreated
    ensures GetTags(PostTag(db, token, None, body).1, false, Some(body.code)).0 != ResourceNotFound([])
  {
    var db' := PostTag(db, token, None, body).1;
    var t := db'.tags[|db.tags|];
    assert OccursAt(t.code, body.code, 0);
    LikeContains(t.code, body.code);
    assert Listed(false, Some(body.code), t);
  }

  /** Disabling is soft: the code stays taken, so registering it again is
      refused with `code` among the duplicates. */
  lemma DeletedCodeStaysTaken(db: Db, token: AccessToken, code: string, body: NewTagBody)
    requires token.admin && body.code == code
    requires DeleteTag(db, token, Some(code)).0 == ResourceDeleted
    ensures PostTag(DeleteTag(db, token, Some(code)).1, token, None, body).0.ResourceUniqueFailed?
  {
    var i := EnabledCodeIndex(db, code).value;
    var db' := DeleteTag(db, token, Some(code)).1;
    assert Clashes(body, db'.tags[i]);
  }

  /** A disabled tag cannot be disabled again. */
  lemma DeleteTagOnce(db: Db, token: AccessToken, code: string)
    requires TagsUnique(db)
    requires DeleteTag(db, token, Some(code)).0 == ResourceDeleted
    ensures DeleteTag(DeleteTag(db, token, Some(code)).1, token, Some(code)).0 == ResourceNotFound([])
  {
    var i := EnabledCodeIndex(db, code).value;
    var db' := DeleteTag(db, token, Some(code)).1;
    forall j | 0 <= j < |db'.tags| ensures !(db'.tags[j].enabled && db'.tags[j].code == code) {
      if j != i {
        assert i < j || j < i;
      }
    }
  }
}
