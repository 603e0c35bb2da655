/**
 * The authenticator: the password grant (section 4.3 of RFC 6749) and the
 * refresh grant (section 6 of RFC 6749) against the token endpoint, the
 * token data they produce, the one slot that holds the latest token data,
 * and the validity check with its 30-second buffer. Instants are whole
 * seconds and the clock reading `now` is a parameter.
 */
module Auth {
  import opened Wrappers
  import opened Json
  import opened Exceptions
  import opened Http

  /** Lifetime assumed when the token response has no `expires_in`. */
  const DefaultExpiresIn := 900

  /** A token is treated as expired this many seconds before its expiry instant. */
  const ValidityBuffer := 30

  /** The parsed token data: both tokens as the server sent them, `expires_in` as sent (or the default), and the expiry instant. */
  datatype TokenData = TokenData(accessToken: Json, refreshToken: Json, expiresIn: Json, expiresAt: int)

  /** `timedelta(seconds=v)` in whole seconds: ints, bools as 0 or 1, floats rounded down; None where Python raises TypeError. */
  function Seconds(v: Json): (r: Option<int>)
    ensures r.Some? <==> v.JInt? || v.JBool? || v.JFloat?
    ensures v.JInt? ==> r == Some(v.i)
    ensures v.JFloat? ==> r.value as real <= v.r < r.value as real + 1.0
  {
    match v
    case JInt(i) => Some(i)
    case JBool(b) => Some(if b then 1 else 0)
    case JFloat(r) => Some(r.Floor)
    case _ => None
  }

  /** `_parse_token_response(body)` with the clock read as `now`. */
  function ParseTokenResponse(body: Json, now: int): (r: Outcome<TokenData>)
    ensures r.Ok? ==> body.JObj? && "access_token" in body.fields && "refresh_token" in body.fields
    ensures r.Ok? ==> r.value.accessToken == body.fields["access_token"]
    ensures r.Ok? ==> r.value.refreshToken == body.fields["refresh_token"]
    ensures r.Ok? ==> r.value.expiresIn == Get(body.fields, "expires_in", JInt(DefaultExpiresIn))
    ensures r.Ok? ==> Seconds(r.value.expiresIn) == Some(r.value.expiresAt - now)
  {
    match body
    case JObj(f) =>
      var expiresIn := Get(f, "expires_in", JInt(DefaultExpiresIn));
      (match Seconds(expiresIn)
       case None => Raise(Runtime(TypeError))
       case Some(secs) =>
         if "access_token" !in f then Raise(Runtime(KeyError("access_token")))
         else if "refresh_token" !in f then Raise(Runtime(KeyError("refresh_token")))
         else Ok(TokenData(f["access_token"], f["refresh_token"], expiresIn, now + secs)))
    case _ => Raise(Runtime(AttributeError))
  }

  /**
   * What `is_token_valid` finds under `expires_at`: no entry, a value Python
   * treats as false (None, ""), an instant (a timezone-aware datetime or ISO
   * text naming one), ISO text that does not parse, or a value that cannot be
   * compared with an aware datetime.
   */
  datatype ExpiryField = Absent | Falsy | Instant(at: int) | Unparseable | Incomparable

  /** The `expires_at` entry of token data this model produced. */
  function ExpiryOf(t: TokenData): (r: ExpiryField)
    ensures r.Instant? && r.at == t.expiresAt
  {
    Instant(t.expiresAt)
  }

  /** `is_token_valid`: a function of its argument and the clock only. */
  function IsTokenValid(expiresAt: ExpiryField, now: int): (r: Outcome<bool>)
    ensures r == Ok(true) <==> expiresAt.Instant? && expiresAt.at > now + ValidityBuffer
    ensures r.Raise? <==> expiresAt.Unparseable? || expiresAt.Incomparable?
  {
    match expiresAt
    case Absent => Ok(false)
    case Falsy => Ok(false)
    case Instant(at) => Ok(at > now + ValidityBuffer)
    case Unparseable => Raise(Runtime(ValueError))
    case Incomparable => Raise(Runtime(TypeError))
  }

  /** `raise_for_status()`, then `json()`, then the parse: the success path both grants share. */
  function AcceptTokenResponse(resp: Response, now: int): (r: Outcome<TokenData>)
    ensures IsErrorStatus(resp.status) ==> r == Raise(HttpError(resp.status))
    ensures r.Ok? ==> resp.body.Some? && ParseTokenResponse(resp.body.value, now) == r
    ensures r.Raise? ==> !r.exc.Iol?
  {
    if IsErrorStatus(resp.status) then Raise(HttpError(resp.status))
    else
      match DecodeBody(resp)
      case Raise(x) => Raise(x)
      case Ok(data) => ParseTokenResponse(data, now)
  }

  /** `login`, given the transport outcome of its POST. */
  function LoginOutcome(reply: Transport, now: int): (r: Outcome<TokenData>)
    ensures reply.TransportFailed? ==> r == Raise(Iol(Network(reply.cause)))
    ensures reply.Got? && reply.response.status == 401 ==> r == Raise(Iol(InvalidCredentials))
    ensures r.Ok? ==> reply.Got? && !IsErrorStatus(reply.response.status)
    ensures r.Raise? && r.exc.Iol? ==> r.exc.error.InvalidCredentials? || r.exc.error.Network?
  {
    match reply
    case TransportFailed(c) => Raise(Iol(Network(c)))
    case Got(resp) =>
      if resp.status == 401 then Raise(Iol(InvalidCredentials))
      else if resp.status == 400 then
        (match DecodeBody(resp)
         case Raise(x) => Raise(x)
         case Ok(data) =>
           if !data.JObj? then Raise(Runtime(AttributeError))
           else if Get(data.fields, "error", JNull) == JStr("invalid_grant") then Raise(Iol(InvalidCredentials))
           else AcceptTokenResponse(resp, now))
      else AcceptTokenResponse(resp, now)
  }

  /** `refresh_token`, given the transport outcome of its POST. */
  function RefreshOutcome(reply: Transport, now: int): (r: Outcome<TokenData>)
    ensures reply.TransportFailed? ==> r == Raise(Iol(Network(reply.cause)))
    ensures reply.Got? && (reply.response.status == 400 || reply.response.status == 401) ==> r == Raise(Iol(TokenExpired))
    ensures r.Ok? ==> reply.Got? && !IsErrorStatus(reply.response.status)
    ensures r.Raise? && r.exc.Iol? ==> r.exc.error.TokenExpired? || r.exc.error.Network?
  {
    match reply
    case TransportFailed(c) => Raise(Iol(Network(c)))
    case Got(resp) =>
      if resp.status == 400 || resp.status == 401 then Raise(Iol(TokenExpired))
      else AcceptTokenResponse(resp, now)
  }

  /** The authenticator object and its one piece of state, the latest token data. */
  class IolAuth {
    var tokenData: Option<TokenData>

    constructor()
      ensures tokenData == None
    {
      tokenData := None;
    }

    /** `login`: the slot is overwritten with the returned token data on success only. */
    method Login(reply: Transport, now: int) returns (r: Outcome<TokenData>)
      modifies this
      ensures r == LoginOutcome(reply, now)
      ensures tokenData == (if r.Ok? then Some(r.value) else old(tokenData))
    {
      r := LoginOutcome(reply, now);
      if r.Ok? {
        tokenData := Some(r.value);
      }
    }

    /** `refresh_token`: the slot is overwritten with the returned token data on success only. */
    method Refresh(reply: Transport, now: int) returns (r: Outcome<TokenData>)
      modifies this
      ensures r == RefreshOutcome(reply, now)
      ensures tokenData == (if r.Ok? then Some(r.value) else old(tokenData))
    {
      r := RefreshOutcome(reply, now);
      if r.Ok? {
        tokenData := Some(r.value);
      }
    }
  }

  // ---------------------------------------------------------------- token data

  /** Without `expires_in` the lifetime is 900 seconds, so the expiry lies after the parse instant. */
  lemma ParseDefaultExpiresIn(f: map<string, Json>, now: int)
    requires "access_token" in f && "refresh_token" in f && "expires_in" !in f
    ensures ParseTokenResponse(JObj(f), now).Ok?
    ensures ParseTokenResponse(JObj(f), now).value.expiresIn == JInt(900)
    ensures ParseTokenResponse(JObj(f), now).value.expiresAt == now + 900 > now
  {
  }

  /** A positive lifetime puts the expiry strictly after the parse instant. */
  lemma ParsedExpiryAfterNow(body: Json, now: int)
    requires ParseTokenResponse(body, now).Ok?
    requires Seconds(ParseTokenResponse(body, now).value.expiresIn).value > 0
    ensures ParseTokenResponse(body, now).value.expiresAt > now
  {
  }

  /** The parse fails exactly on a non-dict body, an `expires_in` of the wrong type, or a missing token. */
  lemma ParseFailures(body: Json, now: int)
    ensures ParseTokenResponse(body, now).Raise? <==>
      || !body.JObj?
      || Seconds(Get(body.fields, "expires_in", JInt(900))).None?
      || "access_token" !in body.fields
      || "refresh_token" !in body.fields
  {
  }

  // ---------------------------------------------------------------- validity

  /** Missing or empty `expires_at` is invalid; an instant is valid iff it lies more than 30 seconds ahead. */
  lemma ValidityRule(expiresAt: ExpiryField, now: int)
    ensures expiresAt.Absent? || expiresAt.Falsy? ==> IsTokenValid(expiresAt, now) == Ok(false)
    ensures expiresAt.Instant? ==>
      (IsTokenValid(expiresAt, now) == Ok(true) <==> expiresAt.at > now + 30)
    ensures expiresAt.Instant? && expiresAt.at <= now + 30 ==> IsTokenValid(expiresAt, now) == Ok(false)
  {
  }

  /** Validity is monotone: a later expiry, or an earlier clock reading, keeps a valid token valid. */
  lemma ValidityMonotone(a: int, b: int, now: int, earlier: int)
    requires IsTokenValid(Instant(a), now) == Ok(true)
    requires a <= b && earlier <= now
    ensures IsTokenValid(Instant(b), now) == Ok(true)
    ensures IsTokenValid(Instant(a), earlier) == Ok(true)
  {
  }

  /** Freshly parsed token data stays valid until 30 seconds before its lifetime runs out. */
  lemma FreshTokenValidity(body: Json, issued: int, now: int)
    requires ParseTokenResponse(body, issued).Ok?
    ensures var t := ParseTokenResponse(body, issued).value;
      IsTokenValid(ExpiryOf(t), now) == Ok(true) <==> now < issued + Seconds(t.expiresIn).value - 30
  {
  }

  /** With the default lifetime, the token is valid for the first 870 seconds after issue. */
  lemma DefaultTokenValidFor870(f: map<string, Json>, issued: int, now: int)
    requires "access_token" in f && "refresh_token" in f && "expires_in" !in f
    ensures ParseTokenResponse(JObj(f), issued).Ok?
    ensures IsTokenValid(ExpiryOf(ParseTokenResponse(JObj(f), issued).value), now) == Ok(true) <==> now < issued + 870
  {
    ParseDefaultExpiresIn(f, issued);
  }

  // ---------------------------------------------------------------- grants

  /** Both grants turn a transport failure into a NetworkError wrapping its cause, before any status check. */
  lemma GrantTransportFailure(cause: Cause, now: int)
    ensures LoginOutcome(TransportFailed(cause), now) == Raise(Iol(Network(cause)))
    ensures RefreshOutcome(TransportFailed(cause), now) == Raise(Iol(Network(cause)))
  {
  }

  /** The lifetime is the body's `expires_in` when present: a token issued with 60 seconds expires 60 seconds later. */
  lemma ParseUsesBodyExpiresIn(f: map<string, Json>, secs: int, now: int)
    requires "access_token" in f && "refresh_token" in f && "expires_in" in f && f["expires_in"] == JInt(secs)
    ensures ParseTokenResponse(JObj(f), now) == Ok(TokenData(f["access_token"], f["refresh_token"], JInt(secs), now + secs))
  {
  }

  /** Login: 401 is InvalidCredentials whatever the body. */
  lemma Login401(resp: Response, now: int)
    requires resp.status == 401
    ensures LoginOutcome(Got(resp), now) == Raise(Iol(InvalidCredentials))
  {
  }

  /** Login: a 400 dict body is InvalidCredentials for `invalid_grant` and requests' HTTPError otherwise. */
  lemma Login400(resp: Response, f: map<string, Json>, now: int)
    requires resp.status == 400 && resp.body == Some(JObj(f))
    ensures Get(f, "error", JNull) == JStr("invalid_grant") ==> LoginOutcome(Got(resp), now) == Raise(Iol(InvalidCredentials))
    ensures Get(f, "error", JNull) != JStr("invalid_grant") ==> LoginOutcome(Got(resp), now) == Raise(HttpError(400))
  {
  }

  /** Login raises only InvalidCredentials or NetworkError among the library's errors: never TokenExpired. */
  lemma LoginErrorKinds(reply: Transport, now: int)
    ensures LoginOutcome(reply, now).Raise? && LoginOutcome(reply, now).exc.Iol? ==>
      LoginOutcome(reply, now).exc.error.InvalidCredentials? || LoginOutcome(reply, now).exc.error.Network?
  {
  }

  /** Refresh: 400 and 401 are TokenExpired whatever the body. */
  lemma Refresh400Or401(resp: Response, now: int)
    requires resp.status == 400 || resp.status == 401
    ensures RefreshOutcome(Got(resp), now) == Raise(Iol(TokenExpired))
  {
  }

  /** Refresh raises only TokenExpired or NetworkError among the library's errors: never InvalidCredentials. */
  lemma RefreshErrorKinds(reply: Transport, now: int)
    ensures RefreshOutcome(reply, now).Raise? && RefreshOutcome(reply, now).exc.Iol? ==>
      RefreshOutcome(reply, now).exc.error.TokenExpired? || RefreshOutcome(reply, now).exc.error.Network?
  {
  }

  /** The two grants classify a reply identically unless its status is 400 or 401. */
  lemma GrantsAgreeOutside400And401(reply: Transport, now: int)
    requires reply.Got? ==> reply.response.status != 400 && reply.response.status != 401
    ensures LoginOutcome(reply, now) == RefreshOutcome(reply, now)
  {
  }

  /** Either grant succeeds exactly on a non-error status with a body that parses, and returns that parse. */
  lemma GrantSuccessExactly(reply: Transport, now: int, t: TokenData)
    ensures LoginOutcome(reply, now) == Ok(t) <==>
      reply.Got? && !IsErrorStatus(reply.response.status) && reply.response.body.Some?
      && ParseTokenResponse(reply.response.body.value, now) == Ok(t)
    ensures RefreshOutcome(reply, now) == Ok(t) <==>
      reply.Got? && !IsErrorStatus(reply.response.status) && reply.response.body.Some?
      && ParseTokenResponse(reply.response.body.value, now) == Ok(t)
  {
  }

  /** A failed refresh after a login leaves the login's token data in place. */
  method LoginThenFailedRefresh(loginReply: Transport, refreshReply: Transport, now: int, later: int)
    returns (held: Option<TokenData>)
    requires LoginOutcome(loginReply, now).Ok?
    requires RefreshOutcome(refreshReply, later).Raise?
    ensures held == Some(LoginOutcome(loginReply, now).value)
  {
    var auth := new IolAuth();
    var first := auth.Login(loginReply, now);
    var second := auth.Refresh(refreshReply, later);
    held := auth.tokenData;
  }
}
