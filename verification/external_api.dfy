/**
 * The exchange-rate provider gateway (app/api/utils/external_api.py). The
 * HTTP client is a function from the request sent to what came back: a
 * transport error, or a status code with the response text and its JSON
 * object. A request is identified by the URL template with the keyword
 * arguments `str.format` fills into it and the `apikey` header.
 */
module ExternalApi {
  import opened Values
  import opened Exceptions

  datatype HttpResponse = HttpResponse(statusCode: int, text: string, json: Dict)

  /** What `client.get` gives: an `httpx.RequestError` with its text, or a response. */
  datatype Transport = RequestError(cause: string) | Responded(response: HttpResponse)

  /** The GET the client sends. */
  datatype Call = Call(urlTemplate: string, params: Dict, apiKey: string)

  /** The provider settings: API key and the two URL templates. */
  datatype CurrencySettings = CurrencySettings(apiKey: string, urlList: string, urlExchange: string)

  datatype CurrencyRequest = CurrencyRequest(currency1: string, currency2: string, amount: Json)
  datatype CurrencyResponse = CurrencyResponse(currency1: string, currency2: string, amount: Json, result: Json)
  datatype CurrencyAll = CurrencyAll(currencies: Json)

  const Ok := 200

  /**
   * `ext_api_request` as written: the JSON body on 200, ExternalAPIHTTPError
   * for any other status. On a transport error it builds ExternalAPIHTTPError
   * without a status code, which raises TypeError instead.
   */
  function ExtApiRequest(url: string, params: Dict, settings: CurrencySettings, net: Call -> Transport): (r: Result<Dict, AppError>)
    ensures var t := net(Call(url, params, settings.apiKey));
      && (r.Success? <==> t.Responded? && t.response.statusCode == Ok)
      && (r.Success? ==> r.value == t.response.json)
      && (t.Responded? && t.response.statusCode != Ok ==>
            r == Failure(ExternalAPIHTTPError(t.response.statusCode, t.response.text)))
      && (t.RequestError? ==> r == Failure(TransportTypeError(t.cause)))
  {
    match net(Call(url, params, settings.apiKey))
    case RequestError(cause) => Failure(TransportTypeError(cause))
    case Responded(response) =>
      if response.statusCode == Ok then Success(response.json)
      else Failure(ExternalAPIHTTPError(response.statusCode, response.text))
  }

  /** The status a transport failure is reported with once the error can be built. */
  const TransportFailureStatus := 500

  /**
   * `ext_api_request` with the transport error reported as an
   * ExternalAPIHTTPError of status 500 carrying the error's text. It agrees
   * with the request as written whenever the provider was reached.
   */
  function ExtApiRequestIntended(url: string, params: Dict, settings: CurrencySettings, net: Call -> Transport): (r: Result<Dict, AppError>)
    ensures var t := net(Call(url, params, settings.apiKey));
      && (t.Responded? ==> r == ExtApiRequest(url, params, settings, net))
      && (t.RequestError? ==> r == Failure(ExternalAPIHTTPError(TransportFailureStatus, t.cause)))
    ensures r.Failure? ==> r.error.ExternalAPIHTTPError?
  {
    match net(Call(url, params, settings.apiKey))
    case RequestError(cause) => Failure(ExternalAPIHTTPError(TransportFailureStatus, cause))
    case Responded(_) => ExtApiRequest(url, params, settings, net)
  }

  /** `ext_api_get_data`: `data_dict[key]`, or the data error carrying the key and the whole dict. */
  function ExtApiGetData(dataDict: Dict, key: string): (r: Result<Json, AppError>)
    ensures r.Success? <==> exists i :: 0 <= i < |dataDict| && dataDict[i].0 == key
    ensures r.Success? ==> exists i :: 0 <= i < |dataDict| && dataDict[i] == (key, r.value)
    ensures r.Failure? ==> r.error == ExternalAPIKeyError(key, dataDict)
  {
    match Lookup(dataDict, key)
    case Some(value) => Success(value)
    case None => Failure(ExternalAPIKeyError(key, dataDict))
  }

  /** `currency.model_dump()`: the request's fields as keyword arguments, under the schema's field names. */
  function ModelDump(req: CurrencyRequest): (d: Dict)
    ensures Lookup(d, "currency_1") == Some(Str(req.currency1))
    ensures Lookup(d, "currency_2") == Some(Str(req.currency2))
    ensures Lookup(d, "amount") == Some(req.amount)
    ensures |d| == 3
  {
    var d := [("currency_1", Str(req.currency1)), ("currency_2", Str(req.currency2)), ("amount", req.amount)];
    assert d[1..][1..] == [("amount", req.amount)];
    assert "amount" != "currency_1" && "amount" != "currency_2" by {
      assert |"amount"| != |"currency_1"|;
      assert "amount"[0] != "currency_2"[0];
    }
    assert Lookup(d[1..][1..], "amount") == Some(req.amount);
    assert Lookup(d[1..], "amount") == Some(req.amount);
    d
  }

  /** `ext_api_get_currencies`: the `currencies` entry of the list endpoint's body. */
  function ExtApiGetCurrencies(settings: CurrencySettings, net: Call -> Transport): (r: Result<CurrencyAll, AppError>)
    ensures var body := ExtApiRequest(settings.urlList, [], settings, net);
      && (body.Failure? ==> r == Failure(body.error))
      && (body.Success? ==> r.Success? == (Lookup(body.value, "currencies").Some?))
      && (body.Success? && r.Success? ==> exists i :: 0 <= i < |body.value| && body.value[i] == ("currencies", r.value.currencies))
      && (body.Success? && r.Failure? ==> r.error == ExternalAPIKeyError("currencies", body.value))
  {
    match ExtApiRequest(settings.urlList, [], settings, net)
    case Failure(e) => Failure(e)
    case Success(dataDict) =>
      match ExtApiGetData(dataDict, "currencies")
      case Failure(e) => Failure(e)
      case Success(currencies) => Success(CurrencyAll(currencies))
  }

  /** `ext_api_get_exchange`: the request's fields go out, and come back with the provider's `result`. */
  function ExtApiGetExchange(req: CurrencyRequest, settings: CurrencySettings, net: Call -> Transport): (r: Result<CurrencyResponse, AppError>)
    ensures var body := ExtApiRequest(settings.urlExchange, ModelDump(req), settings, net);
      && (body.Failure? ==> r == Failure(body.error))
      && (body.Success? ==> r.Success? == (Lookup(body.value, "result").Some?))
      && (r.Success? ==>
            && r.value.currency1 == req.currency1 && r.value.currency2 == req.currency2
            && r.value.amount == req.amount
            && exists i :: 0 <= i < |body.value| && body.value[i] == ("result", r.value.result))
      && (body.Success? && r.Failure? ==> r.error == ExternalAPIKeyError("result", body.value))
  {
    var params := ModelDump(req);
    match ExtApiRequest(settings.urlExchange, params, settings, net)
    case Failure(e) => Failure(e)
    case Success(dataDict) =>
      match ExtApiGetData(dataDict, "result")
      case Failure(e) => Failure(e)
      case Success(result) => Success(CurrencyResponse(req.currency1, req.currency2, req.amount, result))
  }

  /**
   * The exchange asks for exactly the request's fields at the exchange URL:
   * two providers that answer that one call alike give the same outcome.
   */
  lemma ExchangeDependsOnlyOnItsCall(req: CurrencyRequest, settings: CurrencySettings, net1: Call -> Transport, net2: Call -> Transport)
    requires net1(Call(settings.urlExchange, ModelDump(req), settings.apiKey)) == net2(Call(settings.urlExchange, ModelDump(req), settings.apiKey))
    ensures ExtApiGetExchange(req, settings, net1) == ExtApiGetExchange(req, settings, net2)
  {
  }

  /** USD to EUR for 100, the provider answering {"result": 93}, gives back USD, EUR, 100 and 93. */
  lemma ExchangeScenario(settings: CurrencySettings, net: Call -> Transport)
    requires net(Call(settings.urlExchange, ModelDump(CurrencyRequest("USD", "EUR", Num("100"))), settings.apiKey))
          == Responded(HttpResponse(200, "{\"result\": 93}", [("result", Num("93"))]))
    ensures ExtApiGetExchange(CurrencyRequest("USD", "EUR", Num("100")), settings, net)
         == Success(CurrencyResponse("USD", "EUR", Num("100"), Num("93")))
  {
  }
}
