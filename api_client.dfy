/**
 * The data client: the uniform classification of every response into data or
 * one error, and the reshaping of the portfolio, quotes, account-status and
 * instrument-detail payloads.
 */
module ApiClient {
  import opened Wrappers
  import opened Json
  import opened Numerals
  import opened Exceptions
  import opened Http

  /** The delay assumed when a 429 response carries no `Retry-After` header. */
  const RetryAfterHeaderDefault := 60

  /**
   * `int(response.headers.get("Retry-After", 60))`: only the delay-seconds
   * form of the header (section 10.2.3 of RFC 9110) is read; None where
   * `int()` raises ValueError, as it does for the HTTP-date form.
   */
  function RetryAfterDelay(header: Option<string>): (r: Option<int>)
    ensures header.None? ==> r == Some(60)
    ensures forall n :: header == Some(IntToString(n)) ==> r == Some(n)
    ensures header.Some? && r.Some? ==>
      forall i :: 0 <= i < |header.value| ==> IsNumeralChar(header.value[i])
    ensures header.Some? ==> (r.Some? <==> IsIntText(Trim(header.value)))
    ensures header.Some? && r.Some? ==> r.value == IntTextValue(Trim(header.value))
    ensures header.Some? && |header.value| > 0 && AllDigits(header.value) ==>
      r == Some(DecimalValue(header.value))
  {
    match header
    case None => Some(RetryAfterHeaderDefault)
    case Some(text) =>
      ParseIntOfDecimalText(text);
      ParseIntExactly(text);
      if |text| > 0 && AllDigits(text) then
        DelaySecondsValue(text);
        ParseInt(text)
      else
      if ParseInt(text).Some? then
        ParsedTextIsNumeral(text);
        ParseInt(text)
      else
        None
  }

  /** `"error" in data`: a key test on a dict, an element test on a list, a substring test on a string. */
  function HasErrorMarker(data: Json): (r: Outcome<bool>)
    ensures r.Ok? <==> data.JObj? || data.JArr? || data.JStr?
    ensures r.Raise? ==> r.exc == Runtime(TypeError)
    ensures data.JObj? ==> r == Ok("error" in data.fields)
    ensures data.JArr? ==> r == Ok(JStr("error") in data.items)
    ensures data.JStr? ==> (r == Ok(true) <==> exists i :: 0 <= i <= |data.s| && "error" <= data.s[i..])
  {
    match data
    case JObj(fields) => Ok("error" in fields)
    case JArr(items) => Ok(JStr("error") in items)
    case JStr(s) => Ok(IsSubstring("error", s))
    case _ => Raise(Runtime(TypeError))
  }

  /**
   * `_check_response`: 401 and 429 first, then any other client or server
   * error status, then the API's errors disguised as a successful response
   * (a body holding an "error" entry), and otherwise the body as it came.
   */
  function CheckResponse(resp: Response): (r: Outcome<Json>)
    ensures resp.status == 401 ==> r == Raise(Iol(TokenExpired))
    ensures IsErrorStatus(resp.status) && resp.status != 401 && resp.status != 429 ==> r == Raise(HttpError(resp.status))
    ensures r.Ok? ==> !IsErrorStatus(resp.status) && resp.body == Some(r.value)
    ensures r.Raise? && r.exc.Iol? ==> r.exc.error.TokenExpired? || r.exc.error.RateLimited? || r.exc.error.ApiError?
  {
    if resp.status == 401 then Raise(Iol(TokenExpired))
    else if resp.status == 429 then
      (match RetryAfterDelay(resp.retryAfter)
       case Some(n) => Raise(Iol(RateLimited(n)))
       case None => Raise(Runtime(ValueError)))
    else if IsErrorStatus(resp.status) then Raise(HttpError(resp.status))
    else
      match DecodeBody(resp)
      case Raise(x) => Raise(x)
      case Ok(data) =>
        match HasErrorMarker(data)
        case Raise(x) => Raise(x)
        case Ok(marked) =>
          if !marked then Ok(data)
          else if !data.JObj? then Raise(Runtime(AttributeError))
          else if EqualsInt(Get(data.fields, "code", JNull), 401) then Raise(Iol(TokenExpired))
          else Raise(Iol(ApiError(Get(data.fields, "message", data.fields["error"]))))
  }

  /** `_check_response(_request(...))`: a transport failure is a NetworkError and no check runs. */
  function Fetch(reply: Transport): (r: Outcome<Json>)
    ensures reply.TransportFailed? ==> r == Raise(Iol(Network(reply.cause)))
    ensures r.Raise? && r.exc.Iol? && r.exc.error.Network? ==> reply.TransportFailed?
    ensures r.Ok? ==> reply.Got? && reply.response.body == Some(r.value)
  {
    match reply
    case TransportFailed(c) => Raise(Iol(Network(c)))
    case Got(resp) => CheckResponse(resp)
  }

  const PortfolioKeys: set<string> := {"activos", "total", "total_usd"}

  /** The reshaping in `get_portfolio`. */
  function NormalizePortfolio(data: Json): (r: Outcome<Json>)
    ensures r.Ok? <==> data.JObj?
    ensures r.Ok? ==> r.value.JObj? && r.value.fields.Keys == PortfolioKeys
    ensures r.Raise? ==> r.exc == Runtime(AttributeError)
  {
    match data
    case JObj(f) =>
      Ok(JObj(map[
        "activos" := Get(f, "activos", JArr([])),
        "total" := Get(f, "totalEnPesos", JInt(0)),
        "total_usd" := Get(f, "totalEnDolares", JInt(0))]))
    case _ => Raise(Runtime(AttributeError))
  }

  /** The reshaping in `get_quotes`: a list as it is, else the `titulos` entry. */
  function NormalizeQuotes(data: Json): (r: Outcome<Json>)
    ensures r.Ok? <==> data.JArr? || data.JObj?
    ensures r.Raise? ==> r.exc == Runtime(AttributeError)
  {
    match data
    case JArr(_) => Ok(data)
    case JObj(f) => Ok(Get(f, "titulos", JArr([])))
    case _ => Raise(Runtime(AttributeError))
  }

  /** The reshaping in `get_account_status`. */
  function NormalizeAccountStatus(data: Json): (r: Outcome<Json>)
    ensures r.Ok? <==> data.JObj?
    ensures r.Ok? ==> r.value.JObj? && r.value.fields.Keys == {"cuentas"}
    ensures r.Raise? ==> r.exc == Runtime(AttributeError)
  {
    match data
    case JObj(f) => Ok(JObj(map["cuentas" := Get(f, "cuentas", JArr([]))]))
    case _ => Raise(Runtime(AttributeError))
  }

  /**
   * The client object. It keeps the bearer token it was built with for its
   * whole life; each getter is given the transport outcome of the GET request
   * it issues.
   */
  class IolClient {
    const token: string
    const headers: map<string, string>

    constructor(token: string)
      ensures this.token == token
      ensures headers == map["Authorization" := "Bearer " + token, "Content-Type" := "application/json"]
    {
      this.token := token;
      this.headers := map["Authorization" := "Bearer " + token, "Content-Type" := "application/json"];
    }

    function GetPortfolio(reply: Transport): (r: Outcome<Json>)
      ensures reply.TransportFailed? ==> r == Raise(Iol(Network(reply.cause)))
      ensures Fetch(reply).Raise? ==> r == Fetch(reply)
      ensures r.Ok? ==> Fetch(reply).Ok? && Fetch(reply).value.JObj?
      ensures r.Ok? ==> r.value.JObj? && r.value.fields.Keys == PortfolioKeys
    {
      match Fetch(reply)
      case Raise(x) => Raise(x)
      case Ok(data) => NormalizePortfolio(data)
    }

    function GetQuotes(reply: Transport): (r: Outcome<Json>)
      ensures reply.TransportFailed? ==> r == Raise(Iol(Network(reply.cause)))
      ensures Fetch(reply).Raise? ==> r == Fetch(reply)
      ensures Fetch(reply).Ok? && Fetch(reply).value.JArr? ==> r == Fetch(reply)
    {
      match Fetch(reply)
      case Raise(x) => Raise(x)
      case Ok(data) => NormalizeQuotes(data)
    }

    function GetAccountStatus(reply: Transport): (r: Outcome<Json>)
      ensures reply.TransportFailed? ==> r == Raise(Iol(Network(reply.cause)))
      ensures Fetch(reply).Raise? ==> r == Fetch(reply)
      ensures r.Ok? ==> r.value.JObj? && r.value.fields.Keys == {"cuentas"}
    {
      match Fetch(reply)
      case Raise(x) => Raise(x)
      case Ok(data) => NormalizeAccountStatus(data)
    }

    function GetInstrumentDetail(reply: Transport): (r: Outcome<Json>)
      ensures r == Fetch(reply)
    {
      Fetch(reply)
    }
  }

  // ---------------------------------------------------------------- classification

  /** A transport failure is a NetworkError wrapping its cause, whatever getter ran. */
  lemma TransportFailureIsNetworkError(c: IolClient, cause: Cause)
    ensures Fetch(TransportFailed(cause)) == Raise(Iol(Network(cause)))
    ensures c.GetPortfolio(TransportFailed(cause)) == Raise(Iol(Network(cause)))
    ensures c.GetQuotes(TransportFailed(cause)) == Raise(Iol(Network(cause)))
    ensures c.GetAccountStatus(TransportFailed(cause)) == Raise(Iol(Network(cause)))
    ensures c.GetInstrumentDetail(TransportFailed(cause)) == Raise(Iol(Network(cause)))
  {
  }

  /** Classifying a received response never yields a NetworkError or an InvalidCredentialsError. */
  lemma CheckResponseErrorKinds(resp: Response)
    ensures CheckResponse(resp).Raise? && CheckResponse(resp).exc.Iol? ==>
      var e := CheckResponse(resp).exc.error;
      e.TokenExpired? || e.RateLimited? || e.ApiError?
  {
  }

  /** TokenExpired comes from status 401, whatever the body, or from a disguised error with code 401. */
  lemma TokenExpiredExactly(resp: Response)
    ensures CheckResponse(resp) == Raise(Iol(TokenExpired)) <==>
      || resp.status == 401
      || (&& !IsErrorStatus(resp.status)
          && resp.body.Some? && resp.body.value.JObj?
          && "error" in resp.body.value.fields
          && EqualsInt(Get(resp.body.value.fields, "code", JNull), 401))
  {
  }

  /** RateLimited(n) comes exactly from status 429 with a header that reads as n, or no header and n = 60. */
  lemma RateLimitedExactly(resp: Response, n: int)
    ensures CheckResponse(resp) == Raise(Iol(RateLimited(n))) <==>
      resp.status == 429 && RetryAfterDelay(resp.retryAfter) == Some(n)
  {
  }

  /** The delay of a 429: the header's integer, 60 without a header, and an error (not 60) for other text. */
  lemma RateLimitDelay(resp: Response)
    requires resp.status == 429
    ensures resp.retryAfter.None? ==> CheckResponse(resp) == Raise(Iol(RateLimited(60)))
    ensures forall n :: resp.retryAfter == Some(IntToString(n)) ==>
      CheckResponse(resp) == Raise(Iol(RateLimited(n)))
    ensures resp.retryAfter.Some? && (exists i :: 0 <= i < |resp.retryAfter.value| && !IsNumeralChar(resp.retryAfter.value[i])) ==>
      CheckResponse(resp) == Raise(Runtime(ValueError))
    ensures resp.retryAfter.Some? && !IsIntText(Trim(resp.retryAfter.value)) ==>
      CheckResponse(resp) == Raise(Runtime(ValueError))
    ensures resp.retryAfter.Some? && IsIntText(Trim(resp.retryAfter.value)) ==>
      CheckResponse(resp) == Raise(Iol(RateLimited(IntTextValue(Trim(resp.retryAfter.value)))))
    ensures resp.retryAfter.Some? && |resp.retryAfter.value| > 0 && AllDigits(resp.retryAfter.value) ==>
      CheckResponse(resp) == Raise(Iol(RateLimited(DecimalValue(resp.retryAfter.value))))
  {
    forall n | resp.retryAfter == Some(IntToString(n))
      ensures CheckResponse(resp) == Raise(Iol(RateLimited(n)))
    {
      ParseIntOfString(n);
    }
    if resp.retryAfter.Some? && ParseInt(resp.retryAfter.value).Some? {
      ParsedTextIsNumeral(resp.retryAfter.value);
    }
  }

  /** `Retry-After: 120` asks the caller to wait 120 seconds. */
  lemma RetryAfter120(body: Option<Json>)
    ensures CheckResponse(Response(429, Some("120"), body)) == Raise(Iol(RateLimited(120)))
  {
    var h := "120";
    assert AllDigits(h);
    DecimalValueAppend([], '1');
    DecimalValueAppend(['1'], '2');
    DecimalValueAppend(['1', '2'], '0');
    assert h == [] + ['1'] + ['2'] + ['0'];
    assert RetryAfterDelay(Some(h)) == Some(120);
  }

  /** Blank text, a doubled underscore or a doubled sign make the classification raise ValueError, never 60. */
  lemma MalformedRetryAfterRaises(body: Option<Json>)
    ensures CheckResponse(Response(429, Some(""), body)) == Raise(Runtime(ValueError))
    ensures CheckResponse(Response(429, Some("1__0"), body)) == Raise(Runtime(ValueError))
    ensures CheckResponse(Response(429, Some("--5"), body)) == Raise(Runtime(ValueError))
  {
    assert !SeparatesDigits("1__0", 1);
    assert !IsDigitGroups("--5"[1..]) by {
      assert "--5"[1..][0] == '-';
    }
    RateLimitDelay(Response(429, Some(""), body));
    RateLimitDelay(Response(429, Some("1__0"), body));
    RateLimitDelay(Response(429, Some("--5"), body));
  }

  /** An HTTP-date `Retry-After` makes the classification raise ValueError. */
  lemma HttpDateRetryAfterRaises(body: Option<Json>)
    ensures CheckResponse(Response(429, Some("Wed, 21 Oct 2015 07:28:00 GMT"), body)) == Raise(Runtime(ValueError))
  {
    var resp := Response(429, Some("Wed, 21 Oct 2015 07:28:00 GMT"), body);
    assert !IsNumeralChar(resp.retryAfter.value[0]);
    RateLimitDelay(resp);
  }

  /** Every other client or server error status is requests' HTTPError. */
  lemma HttpErrorExactly(resp: Response, s: int)
    ensures CheckResponse(resp) == Raise(HttpError(s)) <==>
      s == resp.status && IsErrorStatus(s) && s != 401 && s != 429
  {
  }

  /** Under an error status the body is never read. */
  lemma ErrorStatusIgnoresBody(resp: Response, body: Option<Json>)
    requires IsErrorStatus(resp.status)
    ensures CheckResponse(resp.(body := body)) == CheckResponse(resp)
  {
  }

  /**
   * IOLAPIError(m) comes exactly from a dict body with an "error" key and no
   * code 401 under a non-error status; m is the "message" entry whenever that
   * key is present (even when it holds null), else the "error" entry.
   */
  lemma ApiErrorExactly(resp: Response, m: Json)
    ensures CheckResponse(resp) == Raise(Iol(ApiError(m))) <==>
      && !IsErrorStatus(resp.status)
      && resp.body.Some? && resp.body.value.JObj?
      && "error" in resp.body.value.fields
      && !EqualsInt(Get(resp.body.value.fields, "code", JNull), 401)
      && m == (if "message" in resp.body.value.fields then resp.body.value.fields["message"]
               else resp.body.value.fields["error"])
  {
  }

  /** Data comes back exactly when the status is not an error and the body has no "error" entry; it is the body unchanged. */
  lemma SuccessExactly(resp: Response, d: Json)
    ensures CheckResponse(resp) == Ok(d) <==>
      !IsErrorStatus(resp.status) && resp.body == Some(d) && HasErrorMarker(d) == Ok(false)
    ensures CheckResponse(resp) == Ok(d) ==> d.JObj? || d.JArr? || d.JStr?
  {
  }

  /** `"error" in data` on a list is an element test: ["error"] is rejected, other lists pass. */
  lemma ListBodyMarker(items: seq<Json>)
    ensures CheckResponse(Response(200, None, Some(JArr(items)))) ==
      if JStr("error") in items then Raise(Runtime(AttributeError)) else Ok(JArr(items))
  {
  }

  // ---------------------------------------------------------------- getters

  /** `get_portfolio` copies `activos`, `totalEnPesos` and `totalEnDolares`, defaulting to [], 0 and 0. */
  lemma PortfolioFields(c: IolClient, reply: Transport, f: map<string, Json>)
    requires Fetch(reply) == Ok(JObj(f))
    ensures c.GetPortfolio(reply).Ok?
    ensures c.GetPortfolio(reply).value.fields["activos"] == (if "activos" in f then f["activos"] else JArr([]))
    ensures c.GetPortfolio(reply).value.fields["total"] == (if "totalEnPesos" in f then f["totalEnPesos"] else JInt(0))
    ensures c.GetPortfolio(reply).value.fields["total_usd"] == (if "totalEnDolares" in f then f["totalEnDolares"] else JInt(0))
  {
  }

  /** Data that is not a dict makes `get_portfolio` and `get_account_status` raise AttributeError. */
  lemma NonDictPayloadRaises(c: IolClient, reply: Transport)
    requires Fetch(reply).Ok? && !Fetch(reply).value.JObj?
    ensures c.GetPortfolio(reply) == Raise(Runtime(AttributeError))
    ensures c.GetAccountStatus(reply) == Raise(Runtime(AttributeError))
  {
  }

  /** A list result of `get_quotes` is the list body itself, the `titulos` entry, or [] without one. */
  lemma QuotesComeFromPayload(c: IolClient, reply: Transport, xs: seq<Json>)
    requires c.GetQuotes(reply) == Ok(JArr(xs))
    ensures Fetch(reply).Ok?
    ensures var d := Fetch(reply).value;
      || d == JArr(xs)
      || (d.JObj? && "titulos" in d.fields && d.fields["titulos"] == JArr(xs))
      || (d.JObj? && "titulos" !in d.fields && xs == [])
  {
  }

  /** A dict payload gives its `titulos` entry, or [] without one. */
  lemma QuotesUnwrapTitulos(c: IolClient, reply: Transport, f: map<string, Json>)
    requires Fetch(reply) == Ok(JObj(f))
    ensures c.GetQuotes(reply) == Ok(if "titulos" in f then f["titulos"] else JArr([]))
  {
  }

  /** `get_account_status` keeps only `cuentas`, defaulting to []. */
  lemma AccountStatusFields(c: IolClient, reply: Transport, f: map<string, Json>)
    requires Fetch(reply) == Ok(JObj(f))
    ensures c.GetAccountStatus(reply) == Ok(JObj(map["cuentas" := if "cuentas" in f then f["cuentas"] else JArr([])]))
  {
  }
}
