/**
 * The error-to-response layer (app/api/errors/handlers.py): four handlers,
 * each a total function from an exception to a JSON response, and the
 * table that registers them by exception class. An exception is handled
 * by the entry for the nearest registered class among its ancestors; one
 * with no such ancestor gets no handler from the table.
 */
module Handlers {
  import opened Values
  import opened Exceptions
  import opened ExternalApi

  datatype Response = JSONResponse(statusCode: int, content: Dict, headers: map<string, string>)

  const RequestValidationMessage := "Ошибка валидации отправленных данных."
  const InternalErrorMessage := "Внутренняя ошибка сервера."
  const CurrencyNotFoundMessage := "Код валюты не найден. " + "Для проверки доступных кодов воспользуйтесь URL " + "currency/list"
  const ExternalProblemMessage := "Проблема с ответом внешнего API"
  const PaymentRequired := 402

  /** The `message` entry of a response body, if it has one. */
  function Message(resp: Response): Option<Json>
  {
    Lookup(resp.content, "message")
  }

  /** "Ошибка {status} - {detail}": the prefix, the status in decimal, the separator, then the detail. */
  function HttpMessage(statusCode: int, detail: string): (m: string)
    ensures |m| == |"Ошибка "| + |Decimal(statusCode)| + |" - "| + |detail|
    ensures "Ошибка " <= m
    ensures m[|"Ошибка "|..|"Ошибка "| + |Decimal(statusCode)|] == Decimal(statusCode)
    ensures m[|"Ошибка "| + |Decimal(statusCode)|..|m| - |detail|] == " - "
    ensures m[|m| - |detail|..] == detail
  {
    var m := "Ошибка " + Decimal(statusCode) + " - " + detail;
    assert m == "Ошибка " + (Decimal(statusCode) + (" - " + detail));
    assert m[|"Ошибка "|..] == Decimal(statusCode) + (" - " + detail);
    assert m == ("Ошибка " + Decimal(statusCode) + " - ") + detail;
    m
  }

  /** `http_exception_handler`: status and headers from the exception, and the status and detail in the message. */
  function HttpExceptionHandler(exc: HTTPException): (resp: Response)
    ensures resp.statusCode == exc.statusCode && resp.headers == exc.headers
    ensures Message(resp) == Some(Str(HttpMessage(exc.statusCode, exc.detail)))
    ensures |resp.content| == 1
  {
    JSONResponse(exc.statusCode, [("message", Str(HttpMessage(exc.statusCode, exc.detail)))], exc.headers)
  }

  /** `request_validation_error_handler`: always 422, with the errors and the request body echoed. */
  function RequestValidationErrorHandler(errors: seq<Json>, body: Json): (resp: Response)
    ensures resp.statusCode == UnprocessableEntity
    ensures Lookup(resp.content, "errors") == Some(Arr(errors))
    ensures Lookup(resp.content, "body") == Some(body)
    ensures Message(resp) == Some(Str(RequestValidationMessage))
  {
    var content := [("message", Str(RequestValidationMessage)), ("errors", Arr(errors)), ("body", body)];
    assert content[1..] == [("errors", Arr(errors)), ("body", body)];
    assert content[1..][1..] == [("body", body)];
    assert "body" != "message" && "body" != "errors" by {
      assert |"body"| != |"message"| && |"body"| != |"errors"|;
    }
    assert Lookup(content[1..][1..], "body") == Some(body);
    assert Lookup(content[1..], "body") == Some(body);
    JSONResponse(UnprocessableEntity, content, map[])
  }

  /** `validation_error_handler`: always 500 with the fixed message; the errors are not sent. */
  function ValidationErrorHandler(errors: seq<Json>): (resp: Response)
    ensures resp.statusCode == InternalServerError
    ensures Message(resp) == Some(Str(InternalErrorMessage))
    ensures Lookup(resp.content, "errors").None?
  {
    JSONResponse(InternalServerError, [("message", Str(InternalErrorMessage))], map[])
  }

  /** The validation errors never reach the client: the response does not depend on them. */
  lemma ValidationErrorHidesErrors(errors1: seq<Json>, errors2: seq<Json>)
    ensures ValidationErrorHandler(errors1) == ValidationErrorHandler(errors2)
  {
  }

  /** `external_api_error_handler`: 402 from the provider becomes 404 "currency code not found", anything else 500. */
  function ExternalApiErrorHandler(code: int, text: string): (resp: Response)
    ensures code == PaymentRequired ==> resp.statusCode == NotFound && Message(resp) == Some(Str(CurrencyNotFoundMessage))
    ensures code != PaymentRequired ==> resp.statusCode == InternalServerError && Message(resp) == Some(Str(ExternalProblemMessage))
    ensures |resp.content| == 1 && resp.headers == map[]
  {
    if code == PaymentRequired then JSONResponse(NotFound, [("message", Str(CurrencyNotFoundMessage))], map[])
    else JSONResponse(InternalServerError, [("message", Str(ExternalProblemMessage))], map[])
  }

  /** The provider's text never reaches the client: the response does not depend on it. */
  lemma ExternalApiErrorHidesDetail(code: int, text1: string, text2: string)
    ensures ExternalApiErrorHandler(code, text1) == ExternalApiErrorHandler(code, text2)
  {
  }

  // ------------------------------------------------------------- the table

  datatype ExceptionClass =
    | StarletteHTTPExceptionClass
    | RequestValidationErrorClass
    | ValidationErrorClass
    | ExternalAPIErrorClass

  datatype HandlerName =
    | HttpExceptionHandlerName
    | RequestValidationErrorHandlerName
    | ValidationErrorHandlerName
    | ExternalApiErrorHandlerName

  /** `handlers`. */
  const HandlerTable: map<ExceptionClass, HandlerName> := map[
    StarletteHTTPExceptionClass := HttpExceptionHandlerName,
    RequestValidationErrorClass := RequestValidationErrorHandlerName,
    ValidationErrorClass := ValidationErrorHandlerName,
    ExternalAPIErrorClass := ExternalApiErrorHandlerName
  ]

  /** Each of the four classes has an entry, and no two share a handler. */
  lemma HandlerTableIsOneToOne()
    ensures forall c: ExceptionClass :: c in HandlerTable
    ensures forall c1, c2 :: c1 in HandlerTable && c2 in HandlerTable && c1 != c2 ==> HandlerTable[c1] != HandlerTable[c2]
    ensures |HandlerTable.Values| == 4
  {
    forall c: ExceptionClass ensures c in HandlerTable {
      match c
      case StarletteHTTPExceptionClass =>
      case RequestValidationErrorClass =>
      case ValidationErrorClass =>
      case ExternalAPIErrorClass =>
    }
    var all := {HttpExceptionHandlerName, RequestValidationErrorHandlerName, ValidationErrorHandlerName, ExternalApiErrorHandlerName};
    assert HandlerTable[StarletteHTTPExceptionClass] == HttpExceptionHandlerName;
    assert HandlerTable[RequestValidationErrorClass] == RequestValidationErrorHandlerName;
    assert HandlerTable[ValidationErrorClass] == ValidationErrorHandlerName;
    assert HandlerTable[ExternalAPIErrorClass] == ExternalApiErrorHandlerName;
    assert HandlerTable.Values == all;
    assert |all| == 4;
  }

  /**
   * The nearest registered ancestor of each exception as the classes are
   * written: the HTTPException subclasses fall under StarletteHTTPException
   * (ExternalAPIHTTPError derives from HTTPException only). KeyError,
   * UniqueFieldException, the store's errors and a TypeError have none.
   */
  function RegisteredClass(e: AppError): (r: Option<ExceptionClass>)
    ensures AsHTTPException(e).Some? ==> r == Some(StarletteHTTPExceptionClass)
    ensures r.Some? <==>
      AsHTTPException(e).Some? || e.RequestValidationError? || e.ValidationError? || e.ExternalAPIError?
    ensures r.Some? ==> r.value in HandlerTable
  {
    match e
    case InvalidUsernameException(_) => Some(StarletteHTTPExceptionClass)
    case UserUnauthorisedException(_) => Some(StarletteHTTPExceptionClass)
    case InvalidTokenException(_) => Some(StarletteHTTPExceptionClass)
    case ExternalAPIHTTPError(_, _) => Some(StarletteHTTPExceptionClass)
    case RequestValidationError(_, _) => Some(RequestValidationErrorClass)
    case ValidationError(_) => Some(ValidationErrorClass)
    case ExternalAPIError(_, _) => Some(ExternalAPIErrorClass)
    case _ => None
  }

  function Apply(handler: HandlerName, e: AppError): Option<Response>
  {
    match handler
    case HttpExceptionHandlerName =>
      (match AsHTTPException(e) case Some(exc) => Some(HttpExceptionHandler(exc)) case None => None)
    case RequestValidationErrorHandlerName =>
      if e.RequestValidationError? then Some(RequestValidationErrorHandler(e.errors, e.body)) else None
    case ValidationErrorHandlerName =>
      if e.ValidationError? then Some(ValidationErrorHandler(e.validationErrors)) else None
    case ExternalApiErrorHandlerName =>
      if e.ExternalAPIError? then Some(ExternalApiErrorHandler(e.code, e.text))
      else if e.ExternalAPIHTTPError? then Some(ExternalApiErrorHandler(e.statusCode, e.responseText))
      else None
  }

  /** The response the app sends for `e` as the classes are written; None when no entry handles it. */
  function Handle(e: AppError): (r: Option<Response>)
    ensures r.Some? <==> RegisteredClass(e).Some?
    ensures AsHTTPException(e).Some? ==> r == Some(HttpExceptionHandler(AsHTTPException(e).value))
    ensures e.RequestValidationError? ==> r == Some(RequestValidationErrorHandler(e.errors, e.body))
    ensures e.ValidationError? ==> r == Some(ValidationErrorHandler(e.validationErrors))
    ensures e.ExternalAPIError? ==> r == Some(ExternalApiErrorHandler(e.code, e.text))
    ensures e.UserUnauthorisedException? || e.InvalidTokenException? ==>
      r.Some? && r.value.statusCode == Unauthorized && r.value.headers == BearerChallenge
    ensures e.InvalidUsernameException? ==> r.Some? && r.value.statusCode == BadRequest
    ensures e.ExternalAPIHTTPError? ==> r.Some? && r.value.statusCode == e.statusCode
  {
    match RegisteredClass(e)
    case None => None
    case Some(c) => Apply(HandlerTable[c], e)
  }

  /** The intended routing: provider status errors go to the external-API handler, everything else as written. */
  function HandleIntended(e: AppError): (r: Option<Response>)
    ensures e.ExternalAPIHTTPError? ==> r == Some(ExternalApiErrorHandler(e.statusCode, e.responseText))
    ensures !e.ExternalAPIHTTPError? ==> r == Handle(e)
  {
    if e.ExternalAPIHTTPError? then Apply(ExternalApiErrorHandlerName, e)
    else Handle(e)
  }

  /**
   * As written, a provider 402 reaching the client through ext_api_request's
   * ExternalAPIHTTPError is answered 402 with the provider's own text in the
   * message, not 404 "currency code not found".
   */
  lemma ProviderStatusAsWrittenLeaksDetail(text: string)
    ensures var r := Handle(ExternalAPIHTTPError(PaymentRequired, text));
      && r.Some? && r.value.statusCode == PaymentRequired
      && r.value.content == [("message", Str(HttpMessage(PaymentRequired, text)))]
  {
  }

  /** Intended: a provider status error is answered 404 for 402 and 500 otherwise, whatever the provider's text. */
  lemma ProviderStatusIntended(code: int, text1: string, text2: string)
    ensures var r := HandleIntended(ExternalAPIHTTPError(code, text1));
      && r.Some?
      && r.value.statusCode == (if code == PaymentRequired then NotFound else InternalServerError)
      && r == HandleIntended(ExternalAPIHTTPError(code, text2))
  {
  }

  /**
   * End to end: an exchange whose provider answers 402 fails with the
   * provider's status; as written the client gets 402 and the provider's
   * text, with the intended routing 404 and the currency-not-found message.
   */
  lemma {:induction false} ExchangeWithUnknownCurrency(req: CurrencyRequest, settings: CurrencySettings, net: Call -> Transport, text: string, json: Dict)
    requires net(Call(settings.urlExchange, ModelDump(req), settings.apiKey)) == Responded(HttpResponse(PaymentRequired, text, json))
    ensures var r := ExtApiGetExchange(req, settings, net);
      && r == Failure(ExternalAPIHTTPError(PaymentRequired, text))
      && Handle(r.error).value.statusCode == PaymentRequired
      && HandleIntended(r.error).value.statusCode == NotFound
      && Message(HandleIntended(r.error).value) == Some(Str(CurrencyNotFoundMessage))
  {
    ProviderStatusAsWrittenLeaksDetail(text);
  }

  /**
   * As written, a transport failure becomes a TypeError (the exception
   * cannot be built without its status code), which no entry of the table
   * covers.
   */
  lemma TransportFailureUnhandled(url: string, params: Dict, settings: CurrencySettings, net: Call -> Transport)
    requires net(Call(url, params, settings.apiKey)).RequestError?
    ensures var r := ExtApiRequest(url, params, settings, net);
      && r == Failure(TransportTypeError(net(Call(url, params, settings.apiKey)).cause))
      && Handle(r.error).None?
  {
  }

  /**
   * Intended: a transport failure is an ExternalAPIHTTPError of status 500,
   * answered 500 with the provider-problem message, whatever the error's text.
   */
  lemma TransportFailureIntended(url: string, params: Dict, settings: CurrencySettings, net: Call -> Transport)
    requires net(Call(url, params, settings.apiKey)).RequestError?
    ensures var r := ExtApiRequestIntended(url, params, settings, net);
      && r == Failure(ExternalAPIHTTPError(TransportFailureStatus, net(Call(url, params, settings.apiKey)).cause))
      && HandleIntended(r.error).Some?
      && HandleIntended(r.error).value.statusCode == InternalServerError
      && Message(HandleIntended(r.error).value) == Some(Str(ExternalProblemMessage))
  {
  }
}
