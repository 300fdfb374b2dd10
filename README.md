# DodoCo core, modelled in Dafny

DodoCo lets users file projects under tags, have an administrator approve
them, and run Docker containers for an approved project, each with the port
mappings its image needs. This model covers two parts of the system.

The first is the browser client. `DodoCoAPI` builds each request, sends it,
dispatches on the HTTP status, and on a 401 refreshes the access token and
retries. `APIResult` checks the backend's response envelope and turns a
failure sub-code into a `DodoCoError`. The client also decodes the role
claim of the access token. The client is a class (`Api.DodoCoApi`) whose
methods update its private tokens. `fetch` is an oracle script: each
exchange says what the network returned and which random words a session
reset would draw.

The second is the backend's domain rules over an in-memory database (`Records.Db`):

- the project query builder, `freeze` and `to_dict`;
- the project routes: list, create and delete;
- project approval;
- the tag routes;
- container creation, with its whitelist, image-name normalisation and port-spec parsing;
- the container record operations: port mapping, port dictionary, `destroy` and `check_existance`;
- the container routes: list and delete.

Each route is a pure function from the database to a response case and a
new database. `Session.Store` is the database session as an object: its
handlers update the tables in place, and each is proved to leave exactly
the tables its route function gives. The invariants proved across the
routes are:

- `Records.Valid`: keys below the id counter, unique keys, and every foreign key resolved;
- `ProjectRoutes.OpenNamesUnique`: open projects under enabled tags have distinct names;
- `TagRoutes.TagsUnique`: tag codes are unique, and so are enabled tag names.

Where the specification and the code disagree, the model follows the code,
except for the bugs listed under Findings. There the model records the code
as written and uses the corrected behaviour everywhere else:

- A 401 is not retried just once. Every 401 from a url other than the refresh endpoint refreshes and retries again (`Api.Request`; api.js:110-118).
- `signout` posts with `accessTokenRequired` false, so no `Authorization` header is sent (`Api.Signout`; api.js:209).
- `roles` skips only an item that is exactly `"admin"`. The item `"type=admin"` is decoded to `{type: "admin"}` (`Roles.PairItemIsKept`; api.js:246).
- `userID` does not wait for the refresh it starts. With no cached payload it reads `null.user` and throws a TypeError (`Api.UserIdOf`; api.js:229-235).
- `roles` likewise starts a refresh when the access token is `undefined` or `null`, and returns no roles, because `split` on the missing token throws before the refresh answers (`Api.RolesGetter`; api.js:237-252).
- Deleting a container checks no permission, although the route's description limits it to admins, project leaders and the container's creator. `ContainerRoutes.DeleteContainer` is the route as written; `Session.Store.DeleteContainer` adds the check (see Findings; containers.py:94-119).
- Approving or disapproving commits before rendering the project. A rendering failure then reports `db_error`, and the approval stays written (`ApproveRoutes.SetApproval`; project_approve.py:40-47).

## Model

| member | source | states |
|---|---|---|
| Text.Split | frontend/src/network/api.js:18-19 | `split` on one character gives at least one piece, and no piece holds the separator |
| Text.JoinSplit | frontend/src/network/api.js:18-19 | joining the pieces of a split gives the string back |
| Text.SplitJoin | frontend/src/network/api.js:18-19 | splitting the join of separator-free pieces gives those pieces back |
| Text.SplitFirst | frontend/src/network/api.js:19 | a split cuts at the first separator |
| Text.Buf2Hex | frontend/src/network/api.js:29-33 | two characters per byte, each byte as its high and low hex digit |
| Text.Buf2HexIsLowerHex | frontend/src/network/api.js:29-33 | every character of the result is a lowercase hex digit |
| Text.Buf2HexInjective | frontend/src/network/api.js:29-33 | different byte strings give different hex strings |
| Text.ParseInt | frontend/src/network/api_response.js:17 | NaN exactly when, after leading white space and one sign, no digit follows; a negative result needs a leading `-` |
| Text.ParseIntOfIntToString | frontend/src/network/api_response.js:17 | `parseInt(…, 10)` reads back any printed integer and stops at the first non-digit |
| Api.GenerateRandomSecureToken | frontend/src/network/api.js:36-40 | two characters per word, each the high and low hex digit of the word's low byte, in order |
| Api.GeneratedTokenIsCsrfToken | frontend/src/network/api.js:36-40 | a generated token is 64 lowercase hex digits |
| Api.TokenKeepsLowBytes | frontend/src/network/api.js:36-40 | two word arrays give the same token exactly when their low bytes agree |
| Api.BuildRequest | frontend/src/network/api.js:77-98 | full url; a body only for POST, PATCH and PUT; the csrf header always; the bearer header only when asked; credentials `include` exactly for account and admin urls |
| Api.Dispatch | frontend/src/network/api.js:100-162 | 2xx, 3xx, 404, 409, 410, 412 and 422 hand back the body; a 401 refreshes and retries except from the refresh endpoint, where it is a session-expired error; 403 is forbidden, 405 and 415 a bad request, any other 4xx an unknown problem, each quoting url, verb and status; every other status is a server problem quoting the status; no rejection raises the invalidation flag |
| Api.Attempt | frontend/src/network/api.js:100-175 | no response rejects with the transport error, a network failure with the wrapped reason; a pass-through status resolves with the body or rejects with the wrapped JSON syntax error; a rejected status rejects with `Dispatch`'s error; a refresh is asked for exactly on a 401 from a url other than the refresh endpoint |
| Api.Request | frontend/src/network/api.js:77-176 | an unknown verb is refused synchronously, sending nothing, changing nothing and consuming no exchange; a settled request consumes at least one exchange |
| Api.Refresh | frontend/src/network/api.js:178-205 | a refresh that settles consumes at least one exchange |
| Api.RefreshRequestOnce | frontend/src/network/api.js:178-181 | the refresh request is one POST of `{}` to the refresh endpoint without a token, which never asks for a further refresh |
| Api.RefreshTransitions | frontend/src/network/api.js:178-205 | the refresh posts once; it is refreshed exactly when the post resolves with a successful envelope whose data holds `user.access_token.token`, which becomes the access token with the data cached; otherwise it signs out with a new csrf token, no tokens, the redirect and an alert of the rejection's or the envelope's message, or the session-expired text; with no exchange left it is pending and changes only the log |
| Api.ResetAfterFailedRefresh | frontend/src/network/api.js:193-204 | a well-formed new csrf token, no access token, no payload, the redirect, and one alert: the error's message for a `DodoCoError`, else the session-expired text; the log is kept |
| Api.Signout | frontend/src/network/api.js:207-227 | sign-out is one POST of `{signout: true}`; when it resolves the tokens are reset with a new csrf token and the redirect; otherwise the session is the one the request left |
| Api.DodoCoApi.constructor | frontend/src/network/api.js:69-74 | a new client holds a fresh csrf token, no access token and no payload |
| Api.DodoCoApi.ApiRequest | frontend/src/network/api.js:77-176 | the new client state and outcome are those of `Request` |
| Api.DodoCoApi.RefreshAuthentications | frontend/src/network/api.js:178-205 | the new client state and status are those of `Refresh`, whose transitions `RefreshTransitions` states |
| Api.DodoCoApi.ResetSession | frontend/src/network/api.js:193-204 | the client state after the `catch` block is `ResetAfterFailedRefresh` of the state before it |
| Api.DodoCoApi.SignOut | frontend/src/network/api.js:207-227 | the new client state and outcome are those of `Signout` |
| Api.DodoCoApi.Call | frontend/src/network/api.js:254-258 | each helper sends its own verb, with the flag defaulting to false, and is never refused |
| Api.ApiInstance.Get | frontend/src/network/api.js:42-74 | the first construction creates the client; every later one returns that same object |
| Api.VerbName | frontend/src/network/api.js:44-50 | every helper's verb is an accepted method |
| Api.PassThroughResolves | frontend/src/network/api.js:106-108 | a pass-through status resolves with the body after exactly one request |
| Api.RefreshEndpointUnauthorized | frontend/src/network/api.js:115-122 | a 401 from the refresh endpoint is not retried: the session is reset and the user sent to sign-in |
| Api.UnauthorizedThenRefreshed | frontend/src/network/api.js:110-118 | a 401 followed by a successful refresh resends the same request with the new token |
| Api.RequestOnlyAppends | frontend/src/network/api.js:77-176 | a request only appends to the log of sent requests |
| Api.RefreshOnlyAppends | frontend/src/network/api.js:178-205 | a refresh only appends to the log of sent requests |
| Api.RequestSendsItselfFirst | frontend/src/network/api.js:100 | an accepted request first sends exactly the request built from the current tokens |
| Api.RequestKeepsSessionOk | frontend/src/network/api.js:77-176 | the tokens stay consistent through any request |
| Api.RefreshKeepsSessionOk | frontend/src/network/api.js:178-205 | the tokens stay consistent through any refresh |
| Api.SignoutKeepsSessionOk | frontend/src/network/api.js:207-227 | the tokens stay consistent through sign-out |
| Api.InitialSessionOk | frontend/src/network/api.js:69-74 | a new client is consistent |
| Api.SignoutBehaviour | frontend/src/network/api.js:207-227 | sign-out first sends the signout body without an `Authorization` header, and when the post resolves the tokens are reset |
| Api.UserIdOf | frontend/src/network/api.js:229-235 | reading `userID` with no cached payload throws a TypeError |
| Api.UserIdAfterRefresh | frontend/src/network/api.js:229-235 | with a cached payload from a refresh, `userID` does not throw |
| Api.TokenFlagAsWritten | frontend/src/network/api.js:254-258 | an omitted flag evaluates the undeclared `False` and throws a ReferenceError |
| Api.TokenFlag | frontend/src/network/api.js:254-258 | an omitted flag is false; a given flag is passed on unchanged |
| Roles.DecodeUriComponent | frontend/src/network/api.js:20 | text without `%` is unchanged; decoding never lengthens the text |
| Roles.DecodeEscape | frontend/src/network/api.js:20 | an escape `%XX` of an ASCII character decodes to that character, followed by the decoding of the rest |
| Roles.DecodeMalformedEscape | frontend/src/network/api.js:20 | a `%` not followed by two hex digits is a URIError |
| Roles.DecodeEncode | frontend/src/network/api.js:20 | decoding undoes `encodeURIComponent`: every ASCII text comes back unchanged |
| Roles.RoleValueOf | frontend/src/network/api.js:21-22 | `"true"` and `"false"` become booleans, and any other text stays as it is |
| Roles.RoleEntry | frontend/src/network/api.js:19-20 | an entry's key is the text before the first `=`; a part without `=` gets the text `"undefined"`; the only failure is a malformed escape |
| Roles.RoleEntryOfPair | frontend/src/network/api.js:19-22 | the value is the decoded text between the first and second `=`, made boolean when it is `true` or `false`, and anything after a second `=` is ignored |
| Roles.CollectRolePartsFails | frontend/src/network/api.js:18-23 | the loop fails exactly when some part fails to decode |
| Roles.Role2ObjectOf | frontend/src/network/api.js:15-26 | a role string fails exactly when one of its `&` parts fails; otherwise the keys are exactly the parts' keys |
| Roles.RolesOf | frontend/src/network/api.js:242-251 | at most one entry per item; with only decodable items and no `"admin"`, one entry per item, in order, each the item's decoded object |
| Roles.Role2Object | frontend/src/network/api.js:15-26 | the loop gives the decoded role object |
| Roles.CollectRolePartsKeys | frontend/src/network/api.js:18-23 | the object's keys are exactly the keys of the parts |
| Roles.CollectRolePartsLastWins | frontend/src/network/api.js:18-23 | a key holds the value of its last part |
| Roles.CollectRolePartsKeep | frontend/src/network/api.js:18-23 | a key that no part mentions keeps its value |
| Roles.Role2ObjectOfJoin | frontend/src/network/api.js:18 | a role string joined from `&`-free parts decodes part by part |
| Roles.Role2ObjectOfOnePair | frontend/src/network/api.js:15-26 | one plain pair decodes to a one-entry object |
| Roles.Role2ObjectOfTwoPairs | frontend/src/network/api.js:15-26 | two plain pairs decode to both entries, the later one winning on a shared key |
| Roles.RoleEntryOfPlainPair | frontend/src/network/api.js:19-22 | a plain `key=value` part decodes to that key and value |
| Roles.Roles | frontend/src/network/api.js:242-251 | the getter's loop gives the entries of the claim's items, stopping at the first failure |
| Api.RolesGetter | frontend/src/network/api.js:237-252 | with no access token (`undefined` or `null`) the getter sends one refresh request and returns no roles, the session being the one the refresh leaves; with a token it sends nothing, keeps the session and returns the claim's entries |
| Api.DodoCoApi.GetRoles | frontend/src/network/api.js:237-252 | the getter on the client's fields is proved equal to `RolesGetter` |
| Api.RolesGetterKeepsSessionOk | frontend/src/network/api.js:237-252 | reading `roles` keeps the tokens consistent, whatever the refresh it starts is answered |
| Roles.AdminIsSkipped | frontend/src/network/api.js:246 | an `"admin"` item anywhere changes nothing |
| Roles.PairItemIsKept | frontend/src/network/api.js:245-247 | any `key=value` item is kept, so `"type=admin"` is not skipped |
| Errors.NewError | frontend/src/common/error.js:4-18 | a new error keeps its message and detail; the invalidation flag defaults to false |
| Errors.Wrap | frontend/src/network/api.js:167-175 | a `DodoCoError` passes through unchanged; anything else is wrapped with its reason |
| Json.Field | frontend/src/network/api_response.js:16-20 | a property is present exactly when the value is an object with that key |
| Json.Coalesce | frontend/src/network/api_response.js:16-20 | `??` gives the default for undefined and null, and the value otherwise |
| ApiResponse.Classify | frontend/src/network/api_response.js:22-60 | the flag is raised exactly for `access_token…` sub-codes; the generic error quotes the sub-code or the placeholder |
| ApiResponse.ClassifyIsFirstMatch | frontend/src/network/api_response.js:23-60 | the chain equals the ordered first-match prefix table, with `user.not_signed_in` compared whole and last |
| ApiResponse.NotSignedInIsExact | frontend/src/network/api_response.js:52 | a sub-code that only starts with `user.not_signed_in` gets the generic error |
| ApiResponse.PrefixesAreCaseSensitive | frontend/src/network/api_response.js:45 | prefixes are compared case-sensitively |
| ApiResponse.NewApiResult | frontend/src/network/api_response.js:10-62 | undefined or null throws; the result exists exactly when `success` is truthy, with every default filled in |
| ApiResponse.FailedEnvelopeThrows | frontend/src/network/api_response.js:22-61 | a failed envelope throws the classified error, or a TypeError for a sub-code that is not a string |
| ApiResponse.DefaultsFilledIn | frontend/src/network/api_response.js:16-20 | a bare success gets code -1, empty texts and empty data |
| ApiResponse.DefaultCodeIsMinusOne | frontend/src/network/api_response.js:17 | the default code survives `parseInt` |
| ApiResponse.EmptyEnvelopeShowsPlaceholder | frontend/src/network/api_response.js:56-59 | an empty envelope fails with the placeholder text |
| ApiResponse.ClassifyAsWritten | frontend/src/network/api_response.js:22-60 | away from the `access_token` branch the chain agrees with `Classify` |
| ApiResponse.AccessTokenBranchThrowsReferenceError | frontend/src/network/api_response.js:45-51 | as written, an `access_token…` sub-code throws a ReferenceError instead of a flagged error |
| BackendText.PyStr | backend/app/api/dodoco/projects/projects.py:48-50 | `str()` of a string is itself, of a number its decimal text, of `null` `None`, of a boolean `True` or `False`, and of a list a bracketed text |
| BackendText.PyReprsAppend | backend/app/api/dodoco/projects/projects.py:50 | the items' `repr()`s are joined with `, `: one more item adds `, ` and its `repr()` |
| BackendText.PyStrOfList | backend/app/api/dodoco/projects/projects.py:50 | `str()` of a list is `[]` when empty, and otherwise its items' `repr()`s, separated by `, `, between brackets |
| BackendText.PyStrs | backend/app/api/dodoco/projects/projects.py:48 | `str()` of every list item, in order |
| BackendText.PyInt | backend/app/api/dodoco/projects/project_create_container.py:112 | `int()` accepts only an optionally signed run of digit groups |
| BackendText.PyIntOfNatToString | backend/app/api/dodoco/projects/project_create_container.py:112 | `int()` reads back any printed natural number |
| BackendText.PyIntRejectsLetters | backend/app/api/dodoco/projects/project_create_container.py:112 | text with a letter is rejected |
| BackendText.LikeLiteral | backend/app/database/dodoco/project.py:103 | a pattern with neither `%` nor `_` matches exactly the equal text |
| BackendText.PyQuoted | backend/app/api/dodoco/projects/projects.py:48-50 | `repr()` of a string inside `str()` of a parsed tag value: double quotes exactly when the text holds `'` and no `"`, otherwise single quotes, the same quote at both ends |
| BackendText.LikePercentAlone | backend/app/database/dodoco/project.py:103 | `LIKE '%'` matches everything |
| BackendText.LikeLiteralPrefix | backend/app/database/dodoco/project.py:103 | a literal pattern prefix must match the text's prefix |
| BackendText.LikeLeadingPercent | backend/app/database/dodoco/project.py:103 | a leading `%` matches any prefix |
| BackendText.LikeContains | backend/app/api/dodoco/tags/tags.py:42 | `LIKE '%t%'` matches exactly the texts that contain `t` |
| Records.FirstIndex | backend/app/api/dodoco/projects/projects.py:115-118 | `.first()`: the first row that matches, or none when none matches |
| Records.Filter | backend/app/api/dodoco/tags/tags.py:38-44 | `.all()`: exactly the rows that match |
| Records.MapAll | backend/app/api/dodoco/projects/projects.py:68 | a list comprehension over rows whose element may raise: every result in order, or a failure exactly when some element raises |
| Records.EmptyDb | backend/app/database/dodoco/project.py:15-186 | an empty database satisfies the store invariant |
| ProjectModel.NewTag | backend/app/database/dodoco/project.py:15-21 | a new tag is enabled and holds the given fields |
| ProjectModel.NewProject | backend/app/database/dodoco/project.py:42-61 | a new project has limit 0, no approval, is neither frozen nor deleted, and holds the given fields |
| ProjectModel.QueryBuilder | backend/app/database/dodoco/project.py:68-111 | raises exactly when neither a user nor `query_all` is given; returns store rows |
| ProjectModel.QueryBuilderRows | backend/app/database/dodoco/project.py:84-109 | each returned row passes the deleted, frozen, membership and id filters |
| ProjectModel.QueryBuilderIgnoresTagForId | backend/app/database/dodoco/project.py:96-109 | with a project id the tag is ignored |
| ProjectModel.QueryBuilderFalsyTag | backend/app/database/dodoco/project.py:98 | a falsy tag is the same as none |
| ProjectModel.Freeze | backend/app/database/dodoco/project.py:113-117 | freezing sets `frozen_at` to the given time, or to now, and changes nothing else |
| ProjectModel.ChildKeys | backend/app/database/dodoco/project.py:146-151 | the key of every container or member row of the project is listed, at most one per row, and none exactly when no row is the project's |
| ProjectModel.TagOf | backend/app/database/dodoco/project.py:53 | the tag relation resolves exactly when a tag row has the key |
| ProjectModel.ProjectToDict | backend/app/database/dodoco/project.py:127-153 | renders exactly when the tag resolves and, when containers are shown, every container of the project renders; description defaults to empty; approval defaults to false; containers shown only when asked and present |
| ProjectModel.CreatorlessContainerBreaksRendering | backend/app/database/dodoco/project.py:146-147 | a container of the project without a creator makes the rendering with containers raise; the rendering without them depends on the tag alone |
| ProjectRoutes.NormaliseTagCode | backend/app/api/dodoco/projects/projects.py:44-50 | a truthy parsed list becomes `str()` codes, another truthy value one pattern, otherwise the raw `tag_code` |
| ProjectRoutes.ProjectsArgs | backend/app/api/dodoco/projects/projects.py:56-60 | the query is for the caller, with `all` as given |
| ProjectRoutes.ToDicts | backend/app/api/dodoco/projects/projects.py:68 | all rows render in order, or it fails exactly when some row fails to render |
| ProjectRoutes.GetProjects | backend/app/api/dodoco/projects/projects.py:39-71 | forbidden exactly for `all` from a non-admin; not found exactly when the query is empty; a server error exactly when some selected row fails to render; otherwise the rendered rows |
| ProjectRoutes.CreatorlessContainerFailsListing | backend/app/api/dodoco/projects/projects.py:61-71 | a listed project with a container that has no creator turns the whole listing into a server error |
| ProjectRoutes.GetProjectsOnlyOwn | backend/app/api/dodoco/projects/projects.py:56-68 | without `all`, every listed project is a stored project the caller is a member of, and passes the deleted and frozen filters |
| ProjectRoutes.EnabledTagIndex | backend/app/api/dodoco/projects/projects.py:115-118 | the first enabled tag with the code, or none |
| ProjectRoutes.NameTaken | backend/app/api/dodoco/projects/projects.py:102-113 | the name is taken exactly when an open project under an enabled tag has it |
| ProjectRoutes.PostProject | backend/app/api/dodoco/projects/projects.py:93-145 | refusal by path id, then taken name, then unknown tag, each leaving the store as it was; otherwise one project and one member row, with the id counter advanced by two |
| ProjectRoutes.PostProjectAdds | backend/app/api/dodoco/projects/projects.py:123-136 | the new project is open, unapproved, limit 0, created by the caller, under the enabled tag; the caller is its accepted leader |
| ProjectRoutes.LiveProjectIndex | backend/app/api/dodoco/projects/projects.py:177-180 | the first undeleted project with the id, or none |
| ProjectRoutes.DeleteProject | backend/app/api/dodoco/projects/projects.py:171-197 | refusal without an id, for a missing project, or for a caller who is neither admin nor creator; a database error with nothing changed exactly when the project has a container and destroying one raises; otherwise the project is frozen and marked deleted |
| ProjectRoutes.DeleteProjectOnce | backend/app/api/dodoco/projects/projects.py:177-192 | only an admin or the creator deletes; a second delete finds nothing, whatever Docker answers |
| ProjectRoutes.AddProjectKeepsValid | backend/app/api/dodoco/projects/projects.py:124-136 | adding a project and its member row keeps the store invariant |
| ProjectRoutes.PostProjectKeepsValid | backend/app/api/dodoco/projects/projects.py:93-145 | creating a project keeps the store invariant |
| ProjectRoutes.PostProjectKeepsNamesUnique | backend/app/api/dodoco/projects/projects.py:102-113 | the name check keeps open names unique under enabled tags |
| ProjectRoutes.DeleteProjectKeepsValid | backend/app/api/dodoco/projects/projects.py:171-197 | deleting a project keeps the store invariant |
| ProjectRoutes.DeleteProjectKeepsNamesUnique | backend/app/api/dodoco/projects/projects.py:188-193 | deleting keeps open names unique |
| ApproveRoutes.ApproveArgs | backend/app/api/dodoco/projects/project_approve.py:30-33 | the approval query asks for an open project with the id, over all users |
| ApproveRoutes.ApproveTarget | backend/app/api/dodoco/projects/project_approve.py:30-38 | the first open project with the id, or none |
| ApproveRoutes.ApproveTargetIsFirstRow | backend/app/api/dodoco/projects/project_approve.py:30-35 | the target is the first row of the query, and is missing exactly when the query is empty |
| ApproveRoutes.SetApproval | backend/app/api/dodoco/projects/project_approve.py:26-86 | forbidden exactly for non-admins; not found exactly when no open project has the id; otherwise only `approved` of the target changes, answered with a database error exactly when the updated project does not render with its containers |
| ApproveRoutes.CreatorlessContainerFailsApproval | backend/app/api/dodoco/projects/project_approve.py:40-47 | approving a project that has a container without a creator answers with a database error |
| ApproveRoutes.ApproveTargetStable | backend/app/api/dodoco/projects/project_approve.py:41 | writing the approval does not move the target |
| ApproveRoutes.LastApprovalWins | backend/app/api/dodoco/projects/project_approve.py:41-77 | approve then disapprove, or the reverse, leaves the store as the second call alone would |
| ApproveRoutes.SetApprovalKeepsValid | backend/app/api/dodoco/projects/project_approve.py:40-44 | approval keeps the store invariant |
| ApproveRoutes.SetApprovalKeepsNamesUnique | backend/app/api/dodoco/projects/project_approve.py:40-44 | approval keeps open names unique |
| TagRoutes.GetTags | backend/app/api/dodoco/tags/tags.py:35-52 | the listed tags are exactly those enabled, or all of them when disabled ones are asked for, whose code matches; one tag is `found`, none is not found |
| TagRoutes.GetTagsBySubstring | backend/app/api/dodoco/tags/tags.py:41-42 | a tag is listed exactly when it is visible and its code contains the query |
| TagRoutes.ClashRows | backend/app/api/dodoco/tags/tags.py:87-93 | the rows that share the code, or are enabled with the name; none exactly when no row clashes |
| TagRoutes.DuplicateFields | backend/app/api/dodoco/tags/tags.py:95-100 | `code` and `name` are reported exactly when the first clashing row shares them, `code` first |
| TagRoutes.PostTag | backend/app/api/dodoco/tags/tags.py:77-113 | refusal by path code, then non-admin, then clash, each leaving the store; a clash reports the duplicate fields of the first clashing row; otherwise one enabled tag is added |
| TagRoutes.EnabledCodeIndex | backend/app/api/dodoco/tags/tags.py:144-147 | the first enabled tag with the code, or none |
| TagRoutes.DeleteTag | backend/app/api/dodoco/tags/tags.py:134-154 | refusal without a code, for a non-admin, or when no enabled tag has it; otherwise only that tag is disabled |
| TagRoutes.PostTagKeepsValid | backend/app/api/dodoco/tags/tags.py:104-111 | adding a tag keeps the store invariant |
| TagRoutes.PostTagKeepsTagsUnique | backend/app/api/dodoco/tags/tags.py:86-102 | the clash check keeps codes unique and enabled names unique |
| TagRoutes.DeleteTagKeepsInvariants | backend/app/api/dodoco/tags/tags.py:144-153 | disabling keeps the store invariant and tag uniqueness |
| TagRoutes.PostedTagIsListed | backend/app/api/dodoco/tags/tags.py:35-113 | a created tag is found by its code |
| TagRoutes.DeletedCodeStaysTaken | backend/app/api/dodoco/tags/tags.py:87-151 | a disabled tag's code still blocks a new tag with that code |
| TagRoutes.DeleteTagOnce | backend/app/api/dodoco/tags/tags.py:144-151 | a second delete of the same code finds nothing |
| ContainerModel.ProtocolName | backend/app/database/dodoco/container.py:26-30 | each protocol's name is `tcp`, `udp` or `stcp` |
| ContainerModel.ProtocolNamed | backend/app/database/dodoco/container.py:26-30 | a name looks up its protocol, and only the three names succeed |
| ContainerModel.ProtocolNamedOfName | backend/app/database/dodoco/container.py:26-30 | the lookup inverts the naming |
| ContainerModel.PortKeyPort | backend/app/database/dodoco/container.py:320-321 | the port number reads back from the front of a port key |
| ContainerModel.PortKeyInjective | backend/app/database/dodoco/container.py:320-321 | two port keys are equal exactly when port and protocol both are |
| ContainerModel.PortDef | backend/app/database/dodoco/container.py:320-321 | one entry, from the port key to the exposed port |
| ContainerModel.UpdateAll | backend/app/database/dodoco/container.py:263-264 | every row's key is in the merged dict |
| ContainerModel.UpdateAllKeys | backend/app/database/dodoco/container.py:263-264 | a key is present exactly when some row has it |
| ContainerModel.UpdateAllLastWins | backend/app/database/dodoco/container.py:263-264 | a key holds the value of its last row |
| ContainerModel.UpdateAllAppend | backend/app/database/dodoco/container.py:263-264 | one more row overwrites its key |
| ContainerModel.PortsOf | backend/app/database/dodoco/container.py:259-265 | every row's port definition is in the dict |
| ContainerModel.PortsOfKeys | backend/app/database/dodoco/container.py:259-265 | a key is present exactly when some port row has it |
| ContainerModel.PortsOfLastWins | backend/app/database/dodoco/container.py:263-264 | the last row with a key decides its exposed port |
| ContainerModel.PortsOfAppend | backend/app/database/dodoco/container.py:264 | one more `update` overwrites that row's key |
| ContainerModel.PortRows | backend/app/database/dodoco/container.py:261-262 | exactly the port rows of the container |
| ContainerModel.ContainerPorts | backend/app/database/dodoco/container.py:259-265 | every port row of the container has its key in the dict |
| ContainerModel.ContainerPortsKeys | backend/app/database/dodoco/container.py:259-265 | a key is present exactly when a port row of the container has it |
| ContainerModel.AddPortMapping | backend/app/database/dodoco/container.py:223-235 | exactly one port row is appended, with the next key, and nothing else changes |
| ContainerModel.AddPortMappingShows | backend/app/database/dodoco/container.py:223-265 | after the mapping, the container's port dict maps the new key to the exposed port |
| ContainerModel.AddPortMappingKeepsValid | backend/app/database/dodoco/container.py:223-235 | a mapping for an existing container keeps the store invariant |
| ContainerModel.NameSegments | backend/app/database/dodoco/container.py:67 | the non-empty `:`-segments of the image name |
| ContainerModel.ContainerNameFor | backend/app/database/dodoco/container.py:67 | fails exactly when every segment is empty; otherwise the first non-empty segment, `_`, then the hex token |
| ContainerModel.ContainerNameOfImage | backend/app/database/dodoco/container.py:67 | `base:version` gives `base_<hex>`, 33 characters longer than the base for a 16-byte token |
| ContainerModel.ContainerNamesDiffer | backend/app/database/dodoco/container.py:67 | different random tokens give different container names |
| ContainerModel.FixedRunKwargs | backend/app/database/dodoco/container.py:68-73 | the run options the method always sets |
| ContainerModel.RunKwargs | backend/app/database/dodoco/container.py:68-73 | the fixed options override the caller's; the caller's other options are kept |
| ContainerModel.Created | backend/app/database/dodoco/container.py:66-84 | `create` sets the start image, the container name and the Docker id, and nothing else |
| ContainerModel.CommitTarget | backend/app/database/dodoco/container.py:176-186 | an image tag without `:` fails; the first commit goes to the container name as number 0; later ones increment the tag |
| ContainerModel.CommitNumbering | backend/app/database/dodoco/container.py:180-186 | a committed image numbered k is committed next as k+1 |
| ContainerModel.FirstCommit | backend/app/database/dodoco/container.py:182-184 | the start image is committed as number 0 |
| ContainerModel.OtherPorts | backend/app/database/dodoco/container.py:153 | exactly the port rows of other containers |
| ContainerModel.Destroy | backend/app/database/dodoco/container.py:147-159 | the container row and its port rows go, everything else stays, and its port dict becomes empty |
| ContainerModel.DestroyKeepsValid | backend/app/database/dodoco/container.py:147-159 | destroying keeps the store invariant |
| ContainerModel.DestroyKeepsPortTarget | backend/app/database/dodoco/container.py:153-156 | other containers stay |
| ContainerModel.CheckExistance | backend/app/database/dodoco/container.py:243-257 | a live container is returned as it is; a missing one is destroyed in the store only on `db_commit` |
| ContainerModel.PortToDict | backend/app/database/dodoco/container.py:312-318 | the rendered protocol name looks up the row's protocol; the ports are copied |
| ContainerModel.PortViews | backend/app/database/dodoco/container.py:289 | one rendered port per row, in order |
| ProjectModel.ProjectRowOf | backend/app/database/dodoco/container.py:47-50 | the project relation resolves exactly when a project row has the key |
| ContainerModel.ContainerToDict | backend/app/database/dodoco/container.py:267-291 | renders exactly when the container has a creator and its project, if any, has a tag; then with its project when that resolves, and its ports when it has any |
| CreateContainerRoute.TargetProjectIndex | backend/app/api/dodoco/projects/project_create_container.py:45-52 | the first open project with the id, or none |
| CreateContainerRoute.ContainerCount | backend/app/api/dodoco/projects/project_create_container.py:66 | the number of the project's containers, zero exactly when it has none |
| CreateContainerRoute.NormaliseImage | backend/app/api/dodoco/projects/project_create_container.py:85-89 | base and version hold no `:`; a name without `:` gets version `latest` |
| CreateContainerRoute.NormaliseImageOf | backend/app/api/dodoco/projects/project_create_container.py:86-89 | `base:version` and `base:version:rest` both give `(base, version)` |
| CreateContainerRoute.ImageName | backend/app/api/dodoco/projects/project_create_container.py:98 | the normalised name always holds a `:` |
| CreateContainerRoute.ProtocolNames | backend/app/api/dodoco/projects/project_create_container.py:114 | `all` means tcp and udp; any other name is itself |
| CreateContainerRoute.ProtocolsNamed | backend/app/api/dodoco/projects/project_create_container.py:120 | every name looks up its protocol, or the lookup fails when one name is unknown |
| CreateContainerRoute.ParsePortSpec | backend/app/api/dodoco/projects/project_create_container.py:110-120 | a spec parses if and only if it has exactly two `/` pieces, the first an `int()` port and the second `all` or protocol names; the result holds that port and those protocols |
| CreateContainerRoute.ProtocolsNamedOfNames | backend/app/api/dodoco/projects/project_create_container.py:120 | looking up the names of any protocols gives those protocols back |
| CreateContainerRoute.ParsePortSpecOfText | backend/app/api/dodoco/projects/project_create_container.py:110-120 | any port number, `/` and a name parse to that port and the name's protocols, and fail exactly when the name is not `all` or a protocol |
| CreateContainerRoute.ParsePortSpecs | backend/app/api/dodoco/projects/project_create_container.py:110-114 | every spec parses, in order |
| CreateContainerRoute.SshPortSpec | backend/app/api/dodoco/projects/project_create_container.py:73-78 | the ubuntu whitelist entry is port 22 over tcp and udp |
| CreateContainerRoute.MapProtocols | backend/app/api/dodoco/projects/project_create_container.py:116-121 | one port row per protocol, in order, all with the same exposed port; nothing else changes |
| CreateContainerRoute.MapPorts | backend/app/api/dodoco/projects/project_create_container.py:109-122 | the port loop only appends port rows and advances the id counter |
| CreateContainerRoute.Launch | backend/app/api/dodoco/projects/project_create_container.py:100-128 | the work after the checks ends in creation or a server error, and creation needs parsed specs and a Docker container |
| CreateContainerRoute.StartEffect | backend/app/database/dodoco/container.py:59-93 | created exactly when the name is found and Docker succeeds, recording the image, the name and the Docker id on that row only; otherwise the store is unchanged |
| CreateContainerRoute.LaunchSteps | backend/app/api/dodoco/projects/project_create_container.py:100-128 | the container row and the two ssh port rows are added; with Docker the row gets the image, name and id and the route creates, without it the bare rows stay and the route fails |
| CreateContainerRoute.LaunchRecords | backend/app/api/dodoco/projects/project_create_container.py:100-128 | one container row, created from the normalised image, then the two ssh port rows on the first free port; nothing else changes |
| CreateContainerRoute.LaunchPortMap | backend/app/api/dodoco/projects/project_create_container.py:109-128 | the new container's port dict maps `22/tcp` and `22/udp` to the free port |
| CreateContainerRoute.CreateContainer | backend/app/api/dodoco/projects/project_create_container.py:40-128 | not found, forbidden (unapproved, or neither admin nor member), over the limit, and a non-whitelisted image, each exactly when its check fails and each leaving the store; otherwise the launch |
| CreateContainerRoute.AdmittedIsCreated | backend/app/api/dodoco/projects/project_create_container.py:100-160 | once every check passes, the route fails exactly when Docker fails, and then the bare container row and its two port rows stay committed |
| CreateContainerRoute.ZeroLimitAdmitsNone | backend/app/api/dodoco/projects/project_create_container.py:66-69 | a project with the default limit 0 never gets a container |
| CreateContainerRoute.LaunchKeepsValid | backend/app/api/dodoco/projects/project_create_container.py:100-128 | the launch keeps the store invariant, whether Docker succeeds or not |
| CreateContainerRoute.CreateContainerKeepsValid | backend/app/api/dodoco/projects/project_create_container.py:40-128 | container creation keeps the store invariant |
| ContainerRoutes.ContainerRows | backend/app/api/dodoco/containers/containers.py:54-69 | every container without an id; with one, the rows with that key, none exactly when it is missing |
| ContainerRoutes.ContainerRowsById | backend/app/api/dodoco/containers/containers.py:68-69 | a lookup by key finds at most one row |
| ContainerRoutes.ContainerDicts | backend/app/api/dodoco/containers/containers.py:84 | all rows render in order, or some row fails |
| ContainerRoutes.GetContainersUnder | backend/app/api/dodoco/containers/containers.py:38-87 | forbidden exactly for `all` from a non-admin or when the access rule refuses; not found exactly when no row matches; otherwise the rendered rows |
| ContainerRoutes.GetContainers | backend/app/api/dodoco/containers/containers.py:71-79 | by id, a non-admin is refused exactly when not a member of the container's project |
| ContainerRoutes.ListingShowsEveryContainer | backend/app/api/dodoco/containers/containers.py:57-66 | without an id every container is listed, whoever asks |
| ContainerRoutes.ByIdServerErrorIsRendering | backend/app/api/dodoco/containers/containers.py:83-87 | a server error for a lookup by id comes only from rendering |
| ContainerRoutes.AsWrittenRefusesSoleMember | backend/app/api/dodoco/containers/containers.py:76-79 | as written, the only member of a project is refused its own container |
| ContainerRoutes.AsWrittenAdmitsOutsider | backend/app/api/dodoco/containers/containers.py:76-79 | as written, an outsider is admitted when the project has any member |
| ContainerRoutes.ContainerIndex | backend/app/api/dodoco/containers/containers.py:108-112 | the container's position, missing exactly when no row has the key |
| ContainerRoutes.DeleteContainer | backend/app/api/dodoco/containers/containers.py:103-123 | refusal without an id; not found exactly when no row has the key; `db_error` with the store unchanged exactly when Docker still has the container and its `destroy` raises; otherwise the container and its port rows are deleted |
| ContainerRoutes.DeleteIgnoresLivenessAndCaller | backend/app/api/dodoco/containers/containers.py:103-123 | the outcome never depends on the caller; when Docker's `destroy` succeeds it does not depend on whether Docker still has the container |
| ContainerRoutes.DeleteContainerChecked | backend/app/api/dodoco/containers/containers.py:94-123 | as the route's description says: refusal without an id, not found for a missing key, forbidden exactly for a caller who is neither admin, nor a leader of the project, nor the creator, and `db_error` exactly for a permitted caller whose live container fails to be destroyed, each leaving the store; otherwise the container is deleted |
| ContainerRoutes.AsWrittenDeletesForAnyone | backend/app/api/dodoco/containers/containers.py:103-119 | as written, a caller with no role deletes the container when Docker's part succeeds; the checked route refuses the same request and keeps the store, whatever Docker answers |
| ContainerRoutes.DeleteContainerCheckedKeepsValid | backend/app/api/dodoco/containers/containers.py:94-119 | the checked delete keeps the store invariant |
| ContainerRoutes.DestroyRemovesKey | backend/app/database/dodoco/container.py:147-159 | after destroying, no container has the key |
| ContainerRoutes.DeleteRemoves | backend/app/api/dodoco/containers/containers.py:103-119 | after a successful delete the container and its ports are gone |
| ContainerRoutes.DeleteContainerKeepsValid | backend/app/api/dodoco/containers/containers.py:103-123 | every outcome of a delete keeps the store invariant |
| Session.Store.constructor | backend/app/database/dodoco/project.py:15-186 | a new session starts with empty tables |
| Session.Store.PostProject | backend/app/api/dodoco/projects/projects.py:93-145 | the tables become those of `PostProject`, keeping the store invariant and unique open names |
| Session.Store.DeleteProject | backend/app/api/dodoco/projects/projects.py:171-197 | the tables become those of `DeleteProject`, keeping both invariants |
| Session.Store.SetApproval | backend/app/api/dodoco/projects/project_approve.py:26-86 | the tables become those of `SetApproval`, keeping both invariants |
| Session.Store.PostTag | backend/app/api/dodoco/tags/tags.py:77-113 | the tables become those of `PostTag`, keeping the store invariant and tag uniqueness |
| Session.Store.DeleteTag | backend/app/api/dodoco/tags/tags.py:134-154 | the tables become those of `DeleteTag`, keeping both invariants |
| Session.Store.AddPortMapping | backend/app/database/dodoco/container.py:223-235 | the tables become those of `AddPortMapping` |
| Session.Store.Destroy | backend/app/database/dodoco/container.py:147-159 | the tables become those of `Destroy` |
| Session.Store.CheckExistance | backend/app/database/dodoco/container.py:243-257 | the result and tables are those of `CheckExistance` |
| Session.Store.GetContainerPorts | backend/app/database/dodoco/container.py:259-265 | the loop of `update`s builds exactly the container's port dict |
| Session.Store.CreateContainer | backend/app/api/dodoco/projects/project_create_container.py:40-128 | the tables become those of `CreateContainer`, keeping the store invariant |
| Session.Store.Launch | backend/app/api/dodoco/projects/project_create_container.py:100-128 | the nested port loops leave the tables of `Launch` |
| Session.Store.MapSpec | backend/app/api/dodoco/projects/project_create_container.py:116-121 | the inner loop over one spec's protocols performs one step of the outer port loop |
| Session.Store.DeleteContainer | backend/app/api/dodoco/containers/containers.py:94-123 | the tables become those of `DeleteContainerChecked`, keeping the store invariant |

## Left out

- Docker itself is not modelled: creating, starting, stopping, committing, removing and inspecting containers. Where the code asks Docker something, the answer is a parameter: whether the container is alive, the new Docker id or the failure of the Docker call, whether destroying a deleted project's containers succeeds, whether destroying a container on DELETE /containers succeeds, and the image tag before a commit. On DELETE /containers, `destroy(force=True)` calls `kill` (container.py:134-137, 147-148), which Docker refuses for a container it knows but that is not running; the model does not track which containers run, so the parameter `destroyed` says whether that call and the removal succeed.
- The setup script pushed into a new container (project_create_container.py:130-143) is left out. It is file and Docker I/O, and its failure is swallowed.
- The free port drawn per port spec is a parameter (`exposed`), as are the 16 random bytes of the container name and the random words of a new csrf token.
- The clock is a parameter (`now`).
- `alert`, the redirect to the sign-in page and the creation date of an error are recorded, not performed.
- ProjectRoutes.DeleteProject: does not delete the project's container rows. `freeze` calls `destroy` on each container (project.py:118-121), which removes the Docker container and deletes the container row and its port rows (container.py:147-156); when every destroy succeeds the model keeps those rows. Whether a destroy raises is the parameter `destroyed`. `destroy` first waits for the container to exit (`stop(blocking=True)` calls `wait(timeout=10)`, container.py:134-139), so a container that keeps running is a likely cause of the database error; the model does not track which containers run.
- ContainerModel.AddPortMapping: does not model the commit `add_port_mapping` starts when the container already has a Docker id (container.py:240-241). Creation adds ports before the container exists in Docker, so this path is not reached there.
- `safe_json_loads` is a parameter: the tag-code query arrives already parsed.
- The tag-code and `project-id` queries of GET /containers are parsed but never used by the code. They are not modelled.
- `query_builder`'s `uuid_only` is not modelled. No modelled caller sets it.
- Response bodies are reduced to the response case and the rendered rows. Timestamps, `commit_id` and the user rows inside `to_dict` are left out, and user rows always resolve.
- `int()` is modelled without surrounding white space.
- Python's `str()` of a non-empty dict is rendered only as a placeholder.
- Every commit succeeds. Left out are:
  - a commit that fails after the last write, with the `IntegrityCaser` answer that follows;
  - a `to_dict` failure after the final commit of container creation;
  - partial commits.
- SQL `LIKE` escape characters are not modelled. Query results come back in store order.
- JSON numbers are integers. `parseInt` of an array is taken as NaN.
- `decodeURIComponent` decodes ASCII escapes only; an escape of a non-ASCII byte is treated as malformed.
- Api.RolesGetter: the decoding of the token (`split`, `atob`, and `JSON.parse` of the payload and of its `role` claim, api.js:244-245) is not modelled. The parsed claim is a parameter, None when any of those steps throws, as `split` does on a token that is not a string.
- Api.RolesGetter: the getter does not wait for the refresh it starts when the token is missing. The model lets that refresh settle before the getter returns. The returned roles are `[]` either way, but a read of the session between the getter and the refresh's answer is not modelled.
- ApiResponse.NewApiResult: follows the corrected `Classify`, not the code as written. As written, an `access_token…` sub-code throws a ReferenceError (see Findings).
- ApiResponse.FailedEnvelopeThrows: states the corrected `Classify` error, not the ReferenceError of the code as written.
- Api.Refresh: reads the envelope through the corrected `Classify`, so a refresh failing with an `access_token…` sub-code alerts that error's message instead of the session-expired text the ReferenceError would give.
- Request validation by the `RequestHeader` and `RequestBody` decorators is not modelled; `api_class`, which defines them, is not part of this model. The routes declare their required string fields (`name` and `image_name` for a container, `name` and `tag_code` for a project, `name` and `code` for a tag), and the model assumes the decorator refuses a body without them. Each body is therefore a record holding every required field, and the `KeyError` that a missing key would raise at backend/app/api/dodoco/projects/project_create_container.py:41-42, answered with a server error, is not modelled.
- The random Docker container name is assumed unique, so the final commit of container creation never fails on it.
- BackendText.PyQuoted: escapes backslash, the quote, newline, carriage return and tab; other non-printable characters are kept as they are.
- Api.Request: a 401 refresh loop is followed only as far as the oracle script reaches; past the script the call is `Pending`.

## Findings

| source | as written | input that shows it | evidently intended | confidence | as-written member | corrected member |
|---|---|---|---|---|---|---|
| frontend/src/network/api_response.js:51 | `accessTokenInvalidation = true` assigns an undeclared name in a strict module, which throws a ReferenceError | a failed envelope with sub-code `access_token.expired` | a `DodoCoError` with the invalidation flag raised | not executed | ApiResponse.ClassifyAsWritten | ApiResponse.Classify |
| frontend/src/network/api.js:254-258 | the default `False` is an undeclared name, so omitting the flag throws a ReferenceError | `get('projects')` | the flag defaults to `false` | not executed | Api.TokenFlagAsWritten | Api.TokenFlag |
| backend/app/api/dodoco/containers/containers.py:103-119 | the delete handler checks no role, although its description (lines 95-96) allows only an admin, the project leader or the container's creator | a user who is none of these deletes someone else's container | callers without one of those roles are refused | not executed | ContainerRoutes.AsWrittenDeletesForAnyone | ContainerRoutes.DeleteContainerChecked |
| backend/app/api/dodoco/containers/containers.py:77 | access is granted when some member of the project is not the caller | the only member of a project, not an admin, asks for that project's container by id: refused | access for admins and the project's members | not executed | ContainerRoutes.AsWrittenRefusesSoleMember | ContainerRoutes.GetContainers |
