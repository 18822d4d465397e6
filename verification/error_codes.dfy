/** The error-code tables and the message lookup over them
    (`UserDefineErrorCode`). Each entry carries a type, a description and a
    URL hint; a lookup turns an entry into a `(type, desc, url)` triple, or
    into `(None, None, None)` when the code has no entry. The tables are
    constants, so no lookup can change them. */
module ErrorCodes {
  import opened Wrappers
  import Text

  datatype ErrorInfo = ErrorInfo(kind: string, desc: string, url: string)

  /** An error code as callers hand it over: an `int`, or its text. */
  datatype Code = IntCode(n: int) | StrCode(text: string)

  /** What `get_error_msg` returns: `(type, desc, url)`, each `None` in the
      not-found sentinel. */
  type Triple = (Option<string>, Option<string>, Option<string>)

  const NotFound: Triple := (None, None, None)

  /** `CUSTOM_ERR_CODES`: the application's own codes, written here in two
      groups (the 10xx validation codes, then 3000 and 4001). */
  const CustomErrCodes: map<int, ErrorInfo> := UserCodes + OtherCustomCodes

  const UserCodes: map<int, ErrorInfo> :=
    map[
      1000 := ErrorInfo("VALID", "User Error", ""),
      1001 := ErrorInfo("VALID", "No permission", ""),
      1002 := ErrorInfo("VALID", "Data not found!", ""),
      1003 := ErrorInfo("VALID", "No access permission", "back"),
      1004 := ErrorInfo("VALID", "No access to project", "back"),
      1005 := ErrorInfo("VALID", "An error occurred while running analysis", ""),
      1006 := ErrorInfo("VALID", "Please check the cluster parameter value", ""),
      1007 := ErrorInfo("VALID", "user_id is required.", "back"),
      1008 := ErrorInfo("VALID", "Fail to create project, user missing.", ""),
      1009 := ErrorInfo("VALID", "The file is in use and cannot be deleted.", ""),
      1010 := ErrorInfo("VALID", "Already a registered email.", ""),
      1011 := ErrorInfo("VALID", "The number of registered email has been exceeded.", ""),
      1012 := ErrorInfo("VALID", "User information does not exist.", ""),
      1013 := ErrorInfo("VALID", "This email has been suspended or deleted.", "reload"),
      1014 := ErrorInfo("VALID", "Your password fails 5 times, your account will be suspended for 10 minutes.", "/"),
      1015 := ErrorInfo("VALID", "Your email or password is incorrect. If you fail 5 times, your account will be suspended for 10 minutes.", "reload"),
      1016 := ErrorInfo("VALID", "Your password is incorrect.", "reload"),
      1017 := ErrorInfo("VALID", "Please check the cluster parameter value.", ""),
      1018 := ErrorInfo("VALID", "Parameter value Error", ""),
      1019 := ErrorInfo("VALID", "Device name not found", ""),
      1020 := ErrorInfo("VALID", "Model not found", "")
    ]

  const OtherCustomCodes: map<int, ErrorInfo> :=
    map[
      3000 := ErrorInfo("SYSTEM", "SYSTEM Error", "back"),
      4001 := ErrorInfo("VALID", "Image not found", "")
    ]

  /** `STATUS_CODES`: the HTTP status codes, written here one status class
      at a time (4xx in two parts). */
  const StatusCodes: map<int, ErrorInfo> :=
    Informational + Successful + Redirection + ClientErrors + MoreClientErrors + ServerErrors

  const Informational: map<int, ErrorInfo> :=
    map[
      100 := ErrorInfo("HTTP", "HTTP_100_CONTINUE", ""),
      101 := ErrorInfo("HTTP", "HTTP_101_SWITCHING_PROTOCOLS", "")
    ]

  const Successful: map<int, ErrorInfo> :=
    map[
      200 := ErrorInfo("HTTP", "HTTP_200_OK", ""),
      201 := ErrorInfo("HTTP", "HTTP_201_CREATED", ""),
      202 := ErrorInfo("HTTP", "HTTP_202_ACCEPTED", ""),
      203 := ErrorInfo("HTTP", "HTTP_203_NON_AUTHORITATIVE_INFORMATION", ""),
      204 := ErrorInfo("HTTP", "HTTP_204_NO_CONTENT", ""),
      205 := ErrorInfo("HTTP", "HTTP_205_RESET_CONTENT", ""),
      206 := ErrorInfo("HTTP", "HTTP_206_PARTIAL_CONTENT", ""),
      207 := ErrorInfo("HTTP", "HTTP_207_MULTI_STATUS", "")
    ]

  const Redirection: map<int, ErrorInfo> :=
    map[
      300 := ErrorInfo("HTTP", "HTTP_300_MULTIPLE_CHOICES", ""),
      301 := ErrorInfo("HTTP", "HTTP_301_MOVED_PERMANENTLY", ""),
      302 := ErrorInfo("HTTP", "HTTP_302_FOUND", ""),
      303 := ErrorInfo("HTTP", "HTTP_303_SEE_OTHER", ""),
      304 := ErrorInfo("HTTP", "HTTP_304_NOT_MODIFIED", ""),
      305 := ErrorInfo("HTTP", "HTTP_305_USE_PROXY", ""),
      306 := ErrorInfo("HTTP", "HTTP_306_RESERVED", ""),
      307 := ErrorInfo("HTTP", "HTTP_307_TEMPORARY_REDIRECT", "")
    ]

  const ClientErrors: map<int, ErrorInfo> :=
    map[
      400 := ErrorInfo("HTTP", "HTTP_400_BAD_REQUEST", ""),
      401 := ErrorInfo("HTTP", "HTTP_401_UNAUTHORIZED", "back"),
      402 := ErrorInfo("HTTP", "HTTP_402_PAYMENT_REQUIRED", ""),
      403 := ErrorInfo("HTTP", "HTTP_403_FORBIDDEN", "back"),
      404 := ErrorInfo("HTTP", "HTTP_404_NOT_FOUND", ""),
      405 := ErrorInfo("HTTP", "HTTP_405_METHOD_NOT_ALLOWED", ""),
      406 := ErrorInfo("HTTP", "HTTP_406_NOT_ACCEPTABLE", ""),
      407 := ErrorInfo("HTTP", "HTTP_407_PROXY_AUTHENTICATION_REQUIRED", ""),
      408 := ErrorInfo("HTTP", "HTTP_408_REQUEST_TIMEOUT", ""),
      409 := ErrorInfo("HTTP", "HTTP_409_CONFLICT", ""),
      410 := ErrorInfo("HTTP", "HTTP_410_GONE", ""),
      411 := ErrorInfo("HTTP", "HTTP_411_LENGTH_REQUIRED", ""),
      412 := ErrorInfo("HTTP", "HTTP_412_PRECONDITION_FAILED", ""),
      413 := ErrorInfo("HTTP", "HTTP_413_REQUEST_ENTITY_TOO_LARGE", ""),
      414 := ErrorInfo("HTTP", "HTTP_414_REQUEST_URI_TOO_LONG", ""),
      415 := ErrorInfo("HTTP", "HTTP_415_UNSUPPORTED_MEDIA_TYPE", ""),
      416 := ErrorInfo("HTTP", "HTTP_416_REQUESTED_RANGE_NOT_SATISFIABLE", ""),
      417 := ErrorInfo("HTTP", "HTTP_417_EXPECTATION_FAILED", "")
    ]

  const MoreClientErrors: map<int, ErrorInfo> :=
    map[
      422 := ErrorInfo("HTTP", "HTTP_422_UNPROCESSABLE_ENTITY", ""),
      423 := ErrorInfo("HTTP", "HTTP_423_LOCKED", ""),
      424 := ErrorInfo("HTTP", "HTTP_424_FAILED_DEPENDENCY", ""),
      425 := ErrorInfo("HTTP", "HTTP_425_TOO_EARLY", ""),
      428 := ErrorInfo("HTTP", "HTTP_428_PRECONDITION_REQUIRED", ""),
      429 := ErrorInfo("HTTP", "HTTP_429_TOO_MANY_REQUESTS", ""),
      431 := ErrorInfo("HTTP", "HTTP_431_REQUEST_HEADER_FIELDS_TOO_LARGE", ""),
      451 := ErrorInfo("HTTP", "HTTP_451_UNAVAILABLE_FOR_LEGAL_REASONS", "")
    ]

  const ServerErrors: map<int, ErrorInfo> :=
    map[
      500 := ErrorInfo("HTTP", "HTTP_500_INTERNAL_SERVER_ERROR", ""),
      501 := ErrorInfo("HTTP", "HTTP_501_NOT_IMPLEMENTED", ""),
      502 := ErrorInfo("HTTP", "HTTP_502_BAD_GATEWAY", ""),
      503 := ErrorInfo("HTTP", "HTTP_503_SERVICE_UNAVAILABLE", ""),
      504 := ErrorInfo("HTTP", "HTTP_504_GATEWAY_TIMEOUT", ""),
      505 := ErrorInfo("HTTP", "HTTP_505_HTTP_VERSION_NOT_SUPPORTED", ""),
      507 := ErrorInfo("HTTP", "HTTP_507_INSUFFICIENT_STORAGE", ""),
      511 := ErrorInfo("HTTP", "HTTP_511_NETWORK_AUTHENTICATION_REQUIRED", "")
    ]

  /** `int(code)`: an `int` as is, a string parsed in base 10; `None` stands
      for the `ValueError` of a string that is not a number. */
  function CodeValue(code: Code): Option<int> {
    match code
    case IntCode(n) => Some(n)
    case StrCode(t) => Text.ParseInt(t)
  }

  /** `table.get(key)`. */
  function Get(table: map<int, ErrorInfo>, key: int): Option<ErrorInfo> {
    if key in table then Some(table[key]) else None
  }

  /** `get_error_msg`: the three fields of a present entry, the sentinel for
      a missing one. Every entry of both tables holds all three keys and is
      therefore truthy, so presence is the only case split. */
  function ErrorMsg(info: Option<ErrorInfo>): (r: Triple)
    ensures r.0.Some? <==> info.Some?
    ensures r.0.Some? == r.1.Some? == r.2.Some?
    ensures info.Some? ==> r.0.value == info.value.kind && r.1.value == info.value.desc && r.2.value == info.value.url
  {
    match info
    case Some(e) => (Some(e.kind), Some(e.desc), Some(e.url))
    case None => NotFound
  }

  /** Looks `int(code)` up in one table; a code that is not a number raises. */
  function Lookup(table: map<int, ErrorInfo>, code: Code): Result<Triple> {
    match CodeValue(code)
    case None => Failure("ValueError")
    case Some(n) => Success(ErrorMsg(Get(table, n)))
  }

  /** `get_custom_error_msg`: consults the custom table only. */
  function CustomErrorMsg(code: Code): Result<Triple> {
    Lookup(CustomErrCodes, code)
  }

  /** `get_http_error_msg`: consults the HTTP table only. */
  function HttpErrorMsg(code: Code): Result<Triple> {
    Lookup(StatusCodes, code)
  }

  /** A lookup finds the entry of a present code and the sentinel for an
      absent one, and fails only when the code is not a number. */
  lemma LookupFindsEntry(table: map<int, ErrorInfo>, code: Code)
    ensures Lookup(table, code).Failure? <==> CodeValue(code).None?
    ensures CodeValue(code).Some? && CodeValue(code).value in table ==>
      var e := table[CodeValue(code).value];
      Lookup(table, code) == Success((Some(e.kind), Some(e.desc), Some(e.url)))
    ensures CodeValue(code).Some? && CodeValue(code).value !in table ==>
      Lookup(table, code) == Success(NotFound)
  {
  }

  /** `"4001"` and `4001` resolve alike in either table, because the text
      of an integer parses back to it. */
  lemma TextAndIntCodesAgree(n: int)
    ensures CustomErrorMsg(StrCode(Text.IntToString(n))) == CustomErrorMsg(IntCode(n))
    ensures HttpErrorMsg(StrCode(Text.IntToString(n))) == HttpErrorMsg(IntCode(n))
  {
    Text.ParseIntString(n);
  }

  /** Every entry of `table` has type `kind`. */
  ghost predicate AllOfKind(table: map<int, ErrorInfo>, kind: string) {
    forall k :: k in table ==> table[k].kind == kind
  }

  /** Every key of `table` lies in `lo..hi`. */
  ghost predicate KeysWithin(table: map<int, ErrorInfo>, lo: int, hi: int) {
    forall k :: k in table ==> lo <= k <= hi
  }

  lemma UnionKeepsKind(a: map<int, ErrorInfo>, b: map<int, ErrorInfo>, kind: string, lo: int, hi: int)
    requires AllOfKind(a, kind) && AllOfKind(b, kind)
    requires KeysWithin(a, lo, hi) && KeysWithin(b, lo, hi)
    ensures AllOfKind(a + b, kind) && KeysWithin(a + b, lo, hi)
  {
  }

  lemma WidenKeys(table: map<int, ErrorInfo>, lo: int, hi: int, lo': int, hi': int)
    requires KeysWithin(table, lo, hi) && lo' <= lo && hi <= hi'
    ensures KeysWithin(table, lo', hi')
  {
  }

  lemma InformationalBand()
    ensures AllOfKind(Informational, "HTTP") && KeysWithin(Informational, 100, 101)
  {
  }

  lemma SuccessfulBand()
    ensures AllOfKind(Successful, "HTTP") && KeysWithin(Successful, 200, 207)
  {
  }

  lemma RedirectionBand()
    ensures AllOfKind(Redirection, "HTTP") && KeysWithin(Redirection, 300, 307)
  {
  }

  lemma ClientErrorBand()
    ensures AllOfKind(ClientErrors, "HTTP") && KeysWithin(ClientErrors, 400, 417)
  {
  }

  lemma MoreClientErrorBand()
    ensures AllOfKind(MoreClientErrors, "HTTP") && KeysWithin(MoreClientErrors, 422, 451)
  {
  }

  lemma ServerErrorBand()
    ensures AllOfKind(ServerErrors, "HTTP") && KeysWithin(ServerErrors, 500, 511)
  {
  }

  /** Every entry of the HTTP table has type `"HTTP"`, and every HTTP code
      lies between 100 and 511. */
  lemma StatusCodesAreHttp()
    ensures AllOfKind(StatusCodes, "HTTP")
    ensures KeysWithin(StatusCodes, 100, 511)
  {
    InformationalBand();
    SuccessfulBand();
    RedirectionBand();
    ClientErrorBand();
    MoreClientErrorBand();
    ServerErrorBand();
    WidenKeys(Informational, 100, 101, 100, 511);
    WidenKeys(Successful, 200, 207, 100, 511);
    WidenKeys(Redirection, 300, 307, 100, 511);
    WidenKeys(ClientErrors, 400, 417, 100, 511);
    WidenKeys(MoreClientErrors, 422, 451, 100, 511);
    WidenKeys(ServerErrors, 500, 511, 100, 511);
    var m := Informational;
    UnionKeepsKind(m, Successful, "HTTP", 100, 511);
    m := m + Successful;
    UnionKeepsKind(m, Redirection, "HTTP", 100, 511);
    m := m + Redirection;
    UnionKeepsKind(m, ClientErrors, "HTTP", 100, 511);
    m := m + ClientErrors;
    UnionKeepsKind(m, MoreClientErrors, "HTTP", 100, 511);
    m := m + MoreClientErrors;
    UnionKeepsKind(m, ServerErrors, "HTTP", 100, 511);
    m := m + ServerErrors;
    assert m == StatusCodes;
  }

  /** Any triple the HTTP lookup resolves names the type `"HTTP"`. */
  lemma HttpLookupType(code: Code)
    ensures HttpErrorMsg(code).Success? && HttpErrorMsg(code).value.0.Some? ==>
      HttpErrorMsg(code).value.0.value == "HTTP"
  {
    StatusCodesAreHttp();
  }

  lemma UserCodeBand()
    ensures AllOfKind(UserCodes, "VALID")
    ensures forall k :: k in UserCodes <==> 1000 <= k <= 1020
  {
  }

  /** The custom table holds exactly 1000 to 1020, 3000 and 4001; all are
      `"VALID"` except 3000, which is `"SYSTEM"`. */
  lemma CustomCodeKinds()
    ensures forall k :: k in CustomErrCodes <==> (1000 <= k <= 1020 || k == 3000 || k == 4001)
    ensures forall k :: k in CustomErrCodes && k != 3000 ==> CustomErrCodes[k].kind == "VALID"
    ensures CustomErrCodes[3000].kind == "SYSTEM"
  {
    UserCodeBand();
  }

  /** No code is in both tables, so a code names at most one entry. */
  lemma TablesDisjoint()
    ensures CustomErrCodes.Keys !! StatusCodes.Keys
  {
    StatusCodesAreHttp();
    CustomCodeKinds();
    assert KeysWithin(CustomErrCodes, 1000, 4001);
    SeparateRanges(StatusCodes, CustomErrCodes, 100, 511, 1000, 4001);
  }

  lemma SeparateRanges(a: map<int, ErrorInfo>, b: map<int, ErrorInfo>, lo: int, hi: int, lo': int, hi': int)
    requires KeysWithin(a, lo, hi) && KeysWithin(b, lo', hi') && hi < lo'
    ensures a.Keys !! b.Keys
  {
    forall k | k in a.Keys ensures k !in b.Keys {
      assert k in a;
    }
  }
}
