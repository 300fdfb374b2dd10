/** `APIResult` (frontend/src/network/api_response.js): the backend's
    response envelope `{success, code, sub_code, message, data}` with its
    defaults filled in, or the error its constructor throws when the
    envelope reports a failure. */
module ApiResponse {
  import opened Wrappers
  import opened Text
  import opened Json
  import opened Errors

  /** The fields of a constructed `APIResult`. `success`, `subCode`,
      `message` and `data` keep whatever JSON value the body held (after
      `??`); `code` is `parseInt(…, 10)`, with None for NaN. */
  datatype ApiResult = ApiResult(success: Json, code: Option<int>, subCode: Json, message: Json, data: Json)

  /** `parseInt(v, 10)` on a JSON value: the argument is first turned into a
      string. Arrays are read as NaN here (see README). */
  function ParseIntJson(v: Json): Option<int> {
    match v
    case JNum(n) => ParseInt(IntToString(n))
    case JStr(s) => ParseInt(s)
    case JBool(b) => ParseInt(if b then "true" else "false")
    case JNull => ParseInt("null")
    case JArr(_) => None
    case JObj(_) => ParseInt("[object Object]")
  }

  // ---------------------------------------------------------------- sub-code table

  const NoSubCode := "sub_code 없음"

  /** The prefix table of the constructor, in the order it is tried, each
      prefix with the error it selects (the sub-code is only needed for the
      two rows whose debug text embeds it). */
  function PrefixTable(subCode: string): seq<(string, DodoCoError)> {
    [ ("request.body", NewError(ClientProblem, ClientBodyMissing)),
      ("request.header", NewError(ClientProblem, ClientHeaderMissing)),
      ("backend", NewError(ServerFault, ServerUnwell)),
      ("http", NewError(UnknownRequest, NoDebug)),
      ("refresh_token", NewError(LoginInvalid, ServerReturned(subCode))),
      ("access_token", DodoCoError(LoginInvalid, AccessTokenRejected(subCode), true)) ]
  }

  /** The error for a sub-code that matches no prefix. */
  function Unmatched(subCode: string): DodoCoError {
    if subCode == "user.not_signed_in" then NewError(NotSignedIn, NotSignedInReturned)
    else NewError(CommunicationProblem, ServerReturnedQuoted(if subCode == "" then NoSubCode else subCode))
  }

  /** Reference reading of a first-match table: the error of the first row
      whose prefix starts `subCode`, else `fallback`. */
  function FirstMatch(table: seq<(string, DodoCoError)>, subCode: string, fallback: DodoCoError): DodoCoError
    decreases |table|
  {
    if table == [] then fallback
    else if StartsWith(subCode, table[0].0) then table[0].1
    else FirstMatch(table[1..], subCode, fallback)
  }

  /** The error the constructor throws for a failed envelope whose sub-code
      is a string (the `if … else if` chain of api_response.js, with the
      `access_token` branch raising the flag as intended). */
  function Classify(subCode: string): (e: DodoCoError)
    ensures e.accessTokenInvalidation <==> StartsWith(subCode, "access_token")
    ensures e.message == CommunicationProblem ==>
              e.debug == ServerReturnedQuoted(if subCode == "" then NoSubCode else subCode)
  {
    assert StartsWith(subCode, "access_token") ==> subCode[0] == 'a';
    if StartsWith(subCode, "request.body") then NewError(ClientProblem, ClientBodyMissing)
    else if StartsWith(subCode, "request.header") then NewError(ClientProblem, ClientHeaderMissing)
    else if StartsWith(subCode, "backend") then NewError(ServerFault, ServerUnwell)
    else if StartsWith(subCode, "http") then NewError(UnknownRequest, NoDebug)
    else if StartsWith(subCode, "refresh_token") then NewError(LoginInvalid, ServerReturned(subCode))
    else if StartsWith(subCode, "access_token") then
      DodoCoError(LoginInvalid, AccessTokenRejected(subCode), true)
    else if subCode == "user.not_signed_in" then NewError(NotSignedIn, NotSignedInReturned)
    else NewError(CommunicationProblem, ServerReturnedQuoted(if subCode == "" then NoSubCode else subCode))
  }

  /** The chain is the ordered, first-match prefix table, with
      `user.not_signed_in` tried by equality only after every prefix failed. */
  lemma ClassifyIsFirstMatch(subCode: string)
    ensures Classify(subCode) == FirstMatch(PrefixTable(subCode), subCode, Unmatched(subCode))
  {
    var f := Unmatched(subCode);
    var t0 := PrefixTable(subCode);
    var t1 := t0[1..];
    var t2 := t1[1..];
    var t3 := t2[1..];
    var t4 := t3[1..];
    var t5 := t4[1..];
    assert t5[1..] == [];
    assert FirstMatch(t5, subCode, f) == if StartsWith(subCode, "access_token") then t5[0].1 else f;
    assert FirstMatch(t4, subCode, f) ==
      if StartsWith(subCode, "refresh_token") then t4[0].1 else FirstMatch(t5, subCode, f);
    assert FirstMatch(t3, subCode, f) ==
      if StartsWith(subCode, "http") then t3[0].1 else FirstMatch(t4, subCode, f);
    assert FirstMatch(t2, subCode, f) ==
      if StartsWith(subCode, "backend") then t2[0].1 else FirstMatch(t3, subCode, f);
    assert FirstMatch(t1, subCode, f) ==
      if StartsWith(subCode, "request.header") then t1[0].1 else FirstMatch(t2, subCode, f);
    assert FirstMatch(t0, subCode, f) ==
      if StartsWith(subCode, "request.body") then t0[0].1 else FirstMatch(t1, subCode, f);
  }

  /** `user.not_signed_in` is matched exactly: a longer sub-code that merely
      starts with it falls through to the generic error. */
  lemma NotSignedInIsExact(suffix: string)
    requires suffix != ""
    ensures Classify("user.not_signed_in" + suffix).message == CommunicationProblem
  {
    var s := "user.not_signed_in" + suffix;
    assert s[0] == 'u';
    assert s != "user.not_signed_in" by { assert |s| > |"user.not_signed_in"|; }
  }

  /** Prefixes are compared case-sensitively. */
  lemma PrefixesAreCaseSensitive()
    ensures Classify("Access_token.expired").message == CommunicationProblem
    ensures Classify("access_token.expired").accessTokenInvalidation
  {
    var s := "Access_token.expired";
    assert s[0] == 'A';
    var t := "access_token.expired";
    assert t[..12] == "access_token";
  }

  // ---------------------------------------------------------------- the constructor

  /** `new APIResult(body)`; `body` None is `undefined`. A failed envelope
      whose `sub_code` is not a string throws a TypeError from `startsWith`. */
  function NewApiResult(body: Option<Json>): (r: Result<ApiResult, Thrown>)
    ensures body.None? || body == Some(JNull) ==>
              r == Err(Categorized(NewError(EnvelopeUnreadable, BodyUnparsed)))
    ensures r.Ok? <==> body.Some? && body.value != JNull && Truthy(Coalesce(Field(body.value, "success"), JBool(false)))
    ensures r.Ok? ==> r.value == ApiResult(
              Coalesce(Field(body.value, "success"), JBool(false)),
              ParseIntJson(Coalesce(Field(body.value, "code"), JNum(-1))),
              Coalesce(Field(body.value, "sub_code"), JStr("")),
              Coalesce(Field(body.value, "message"), JStr("")),
              Coalesce(Field(body.value, "data"), JObj(map[])))
  {
    if body.None? || body.value == JNull then
      Err(Categorized(NewError(EnvelopeUnreadable, BodyUnparsed)))
    else
      var b := body.value;
      var result := ApiResult(
        Coalesce(Field(b, "success"), JBool(false)),
        ParseIntJson(Coalesce(Field(b, "code"), JNum(-1))),
        Coalesce(Field(b, "sub_code"), JStr("")),
        Coalesce(Field(b, "message"), JStr("")),
        Coalesce(Field(b, "data"), JObj(map[])));
      if Truthy(result.success) then Ok(result)
      else if result.subCode.JStr? then Err(Categorized(Classify(result.subCode.s)))
      else Err(Uncategorized(TypeError))
  }

  /** Every failed envelope makes the constructor throw; with a string
      sub-code the thrown error is the one the prefix table selects. */
  lemma FailedEnvelopeThrows(body: Json)
    requires body != JNull
    requires !Truthy(Coalesce(Field(body, "success"), JBool(false)))
    ensures var sub := Coalesce(Field(body, "sub_code"), JStr(""));
            NewApiResult(Some(body)) ==
              if sub.JStr? then Err(Categorized(Classify(sub.s))) else Err(Uncategorized(TypeError))
  {
  }

  /** A successful envelope with nothing else in it gets every default:
      code -1, empty sub-code and message, and an empty data object. */
  lemma DefaultsFilledIn()
    ensures NewApiResult(Some(JObj(map["success" := JBool(true)]))) ==
            Ok(ApiResult(JBool(true), Some(-1), JStr(""), JStr(""), JObj(map[])))
  {
    var b := JObj(map["success" := JBool(true)]);
    assert Field(b, "success") == Some(JBool(true));
    assert Field(b, "code") == None && Field(b, "data") == None;
    assert Field(b, "sub_code") == None && Field(b, "message") == None;
    DefaultCodeIsMinusOne();
  }

  /** The default code `-1` survives `parseInt`. */
  lemma DefaultCodeIsMinusOne()
    ensures ParseIntJson(JNum(-1)) == Some(-1)
  {
    ParseIntOfNegative(-1, "");
    assert IntToString(-1) + "" == IntToString(-1);
  }

  /** An envelope with no fields at all is a failure without sub-code: the
      generic error, whose debug text shows the placeholder. */
  lemma EmptyEnvelopeShowsPlaceholder()
    ensures NewApiResult(Some(JObj(map[]))) ==
            Err(Categorized(NewError(CommunicationProblem, ServerReturnedQuoted(NoSubCode))))
  {
  }

  // ---------------------------------------------------------------- as written

  /** The chain as api_response.js:45-51 writes it: the `access_token`
      branch passes `accessTokenInvalidation = true` as an argument, an
      assignment to an undeclared name, which in a strict-mode ES module
      throws a ReferenceError before any `DodoCoError` is built. */
  function ClassifyAsWritten(subCode: string): (t: Thrown)
    ensures !StartsWith(subCode, "access_token") ==> t == Categorized(Classify(subCode))
  {
    if StartsWith(subCode, "request.body") then Categorized(NewError(ClientProblem, ClientBodyMissing))
    else if StartsWith(subCode, "request.header") then Categorized(NewError(ClientProblem, ClientHeaderMissing))
    else if StartsWith(subCode, "backend") then Categorized(NewError(ServerFault, ServerUnwell))
    else if StartsWith(subCode, "http") then Categorized(NewError(UnknownRequest, NoDebug))
    else if StartsWith(subCode, "refresh_token") then Categorized(NewError(LoginInvalid, ServerReturned(subCode)))
    else if StartsWith(subCode, "access_token") then Uncategorized(ReferenceError)
    else if subCode == "user.not_signed_in" then Categorized(NewError(NotSignedIn, NotSignedInReturned))
    else Categorized(NewError(CommunicationProblem, ServerReturnedQuoted(if subCode == "" then NoSubCode else subCode)))
  }

  /** As written, no sub-code ever yields an error with the invalidation
      flag: an `access_token…` sub-code throws a ReferenceError instead. */
  lemma AccessTokenBranchThrowsReferenceError(subCode: string)
    requires StartsWith(subCode, "access_token")
    ensures ClassifyAsWritten(subCode) == Uncategorized(ReferenceError)
    ensures Classify(subCode).accessTokenInvalidation
  {
    assert subCode[0] == 'a';
  }
}
