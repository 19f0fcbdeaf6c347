/**
 * The closed set of exceptions the core raises or receives, and the fields
 * that the HTTPException-based ones carry (status code, detail, headers).
 */
module Exceptions {
  import opened Values

  const BadRequest := 400
  const Unauthorized := 401
  const NotFound := 404
  const UnprocessableEntity := 422
  const InternalServerError := 500

  const DefaultUnauthorisedDetail := "Неверные учетные данные!"

  /** The header every 401 of the service carries. */
  const BearerChallenge: map<string, string> := map["WWW-Authenticate" := "Bearer"]

  datatype AppError =
      /** The user name is taken (an HTTPException). */
    | InvalidUsernameException(name: string)
      /** Bad credentials (an HTTPException); `detail` as passed, possibly missing. */
    | UserUnauthorisedException(detail: Option<string>)
      /** A token that cannot be used (a UserUnauthorisedException). */
    | InvalidTokenException(detail: Option<string>)
      /** The provider answered with a failure status (an HTTPException). */
    | ExternalAPIHTTPError(statusCode: int, responseText: string)
      /**
       * The TypeError raised when ExternalAPIHTTPError is built without the
       * status code HTTPException requires; the transport error that led
       * there survives only as its context.
       */
    | TransportTypeError(cause: string)
      /** A key missing from the provider's JSON (a KeyError). */
    | ExternalAPIKeyError(key: string, data: Dict)
      /** A registration field whose value is already stored. */
    | UniqueFieldException(field: string, value: string)
      /** The provider error kind the handler table names. */
    | ExternalAPIError(code: int, text: string)
      /** Client input that failed validation. */
    | RequestValidationError(errors: seq<Json>, body: Json)
      /** Internal data that failed validation. */
    | ValidationError(validationErrors: seq<Json>)
      /** The store refused a row (duplicate key or unique column). */
    | IntegrityError
      /** Commit or rollback of the session failed. */
    | SessionError

  /** The attributes StarletteHTTPException gives every HTTP exception. */
  datatype HTTPException = HTTPException(statusCode: int, detail: string, headers: map<string, string>)

  /** `detail or "Неверные учетные данные!"`: a missing or empty detail falls back. */
  function UnauthorisedDetail(detail: Option<string>): (d: string)
    ensures detail.Some? && detail.value != "" ==> d == detail.value
    ensures detail.None? || detail.value == "" ==> d == DefaultUnauthorisedDetail
    ensures d != ""
  {
    match detail
    case Some(text) => if text != "" then text else DefaultUnauthorisedDetail
    case None => DefaultUnauthorisedDetail
  }

  /** The detail of InvalidUsernameException: it names the user. */
  function InvalidUsernameDetail(name: string): (d: string)
    ensures Contains(d, name)
    ensures "Имя пользователя " <= d
  {
    var d := "Имя пользователя " + name + " занято. " + "Пожалуйста, используйте другое!";
    assert d == "Имя пользователя " + name + (" занято. " + "Пожалуйста, используйте другое!");
    d
  }

  /**
   * The HTTPException view of an exception: present for the four classes
   * that derive from HTTPException.
   */
  function AsHTTPException(e: AppError): (r: Option<HTTPException>)
    ensures e.InvalidUsernameException? ==>
      r.Some? && r.value.statusCode == BadRequest && Contains(r.value.detail, e.name) && r.value.headers == map[]
    ensures e.UserUnauthorisedException? || e.InvalidTokenException? ==>
      r.Some? && r.value.statusCode == Unauthorized && r.value.headers == BearerChallenge
      && r.value.detail == UnauthorisedDetail(e.detail)
    ensures e.ExternalAPIHTTPError? ==>
      r == Some(HTTPException(e.statusCode, e.responseText, map[]))
    ensures r.Some? <==>
      e.InvalidUsernameException? || e.UserUnauthorisedException? || e.InvalidTokenException?
      || e.ExternalAPIHTTPError?
  {
    match e
    case InvalidUsernameException(name) =>
      Some(HTTPException(BadRequest, InvalidUsernameDetail(name), map[]))
    case UserUnauthorisedException(detail) =>
      Some(HTTPException(Unauthorized, UnauthorisedDetail(detail), BearerChallenge))
    case InvalidTokenException(detail) =>
      Some(HTTPException(Unauthorized, UnauthorisedDetail(detail), BearerChallenge))
    case ExternalAPIHTTPError(statusCode, detail) => Some(HTTPException(statusCode, detail, map[]))
    case _ => None
  }

  /** The message ExternalAPIKeyError is built with (its `str`). */
  function KeyErrorMessage(key: string, data: Dict): (m: string)
    ensures Contains(m, key)
    ensures Contains(m, Repr(Obj(data)))
  {
    var rendered := Repr(Obj(data));
    var m := "Ключ '" + key + "' не найден в JSON из внешнего API.\n" + "Ответ внешнего API: " + rendered;
    assert m == "Ключ '" + key + ("' не найден в JSON из внешнего API.\n" + "Ответ внешнего API: " + rendered);
    assert m == ("Ключ '" + key + "' не найден в JSON из внешнего API.\n" + "Ответ внешнего API: ") + rendered + "";
    m
  }

  /** An InvalidTokenException is a UserUnauthorisedException with the same detail. */
  lemma InvalidTokenInheritsUnauthorised(detail: Option<string>)
    ensures AsHTTPException(InvalidTokenException(detail)) == AsHTTPException(UserUnauthorisedException(detail))
  {
  }
}
