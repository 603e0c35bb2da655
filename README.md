# IOL client: response classification and normalisation

A Dafny model of the logic in the thin Python client for the IOL brokerage
REST API. It covers three parts:

- the error taxonomy (`src/exceptions.py`);
- the authenticator (`src/auth.py`). It classifies the replies of the token
  endpoint for the password grant (section 4.3 of RFC 6749) and the refresh
  grant (section 6 of RFC 6749). It holds the latest token data in its one
  slot, and it checks whether token data is still valid, with a 30-second
  buffer;
- the data client (`src/api_client.py`). It classifies every response into
  data or exactly one error. That includes the API's errors disguised as
  successful responses. It also reshapes the portfolio, quotes,
  account-status and instrument-detail payloads.

Modules, one per concern:

| file | module | contents |
|---|---|---|
| wrappers.dfy | `Wrappers` | `Option` |
| json.dfy | `Json` | the decoded JSON value; Python's `dict.get`, `== n` and substring `in` on it |
| numerals.dfy | `Numerals` | Python's `int(text)` (reads `Retry-After`) and `str(n)` (writes the rate-limit message), with the round trip between them |
| exceptions.dfy | `Exceptions` | the exception classes and their is-a relation, the raised errors with their payloads, and their messages |
| http.dfy | `Http` | a response as the code reads it, the transport outcome, the exceptions a call can end in, and `raise_for_status` |
| api_client.dfy | `ApiClient` | `_check_response`, the transport step, the four getters, and the `IolClient` class |
| auth.dfy | `Auth` | token data, `_parse_token_response`, `is_token_valid`, the two grants, and the `IolAuth` class |

How the model represents things:

- A call ends in `Outcome<T>`: either `Ok(value)` or `Raise(exception)`.
- The exception is one of three kinds:
  - one of the library's own errors;
  - requests' `HTTPError`, raised by `raise_for_status` for statuses 400-599;
  - a Python runtime error the code runs into on unexpected input. These are
    `AttributeError` and `KeyError` from a body of an unexpected shape,
    `TypeError` from such a body or, in `is_token_valid`, from an `expires_at`
    value that cannot be compared with an aware datetime, a JSON decoding error from a body that is not JSON, and
    `ValueError` from a `Retry-After` header that is not an integer or from
    `expires_at` text that is not ISO-8601.
- The transport step is a parameter: a failed transport (with its cause) or a
  received response.
- Time is whole seconds, and the clock reading `now` is a parameter.

Three behaviours of the code are easy to misread:

- A 4xx/5xx status other than 401 and 429 raises requests' `HTTPError`. That
  is not an `IOLAPIError`, so an `except IOLError` handler does not catch it.
- A `Retry-After` header that is not an integer raises `ValueError`. It does
  not fall back to 60.
- Any status outside 400-599 reaches the body checks, not only 2xx.

## Model

| member | source | states |
|---|---|---|
| `Exceptions.SubclassIsPartialOrder` | src/exceptions.py:4-49 | the class hierarchy's is-a relation is reflexive, transitive and antisymmetric |
| `Exceptions.IsSubclass` | src/exceptions.py:4-49 | `issubclass`: every class is a subclass of itself, of its declared base and of IOLError |
| `Exceptions.Catches` | src/exceptions.py:4-49 | an `except` clause catches an error of its own class, `except IOLError` catches every error, and a handler for any of the four leaf classes (InvalidCredentialsError, TokenExpiredError, RateLimitError, NetworkError) catches only its own class, so the two siblings under IOLAPIError never catch each other |
| `Exceptions.Message` | src/exceptions.py:16-49 | every error except a bare IOLAPIError has a message; the two fixed texts differ; the rate-limit text holds `str(retry_after)` after its prefix; the connection text ends with `str(original_error)` |
| `Exceptions.AuthErrorsExactly` | src/exceptions.py:9-27 | an `IOLAuthError` handler catches exactly InvalidCredentialsError and TokenExpiredError |
| `Exceptions.ApiErrorsExactly` | src/exceptions.py:30-49 | an `IOLAPIError` handler catches exactly IOLAPIError, RateLimitError and NetworkError |
| `Exceptions.EveryErrorIsIolError` | src/exceptions.py:4-49 | every error is an `IOLError`, and each is either an auth error or an API error, never both |
| `Exceptions.NewRateLimitError` | src/exceptions.py:36-41 | `RateLimitError` stores its `retry_after` argument, and 60 when none is given |
| `Exceptions.RateLimitMessageDeterminesDelay` | src/exceptions.py:39-41 | the rate-limit message embeds the delay: equal messages mean equal delays |
| `Exceptions.MessageInitial` | src/exceptions.py:16-49 | each fixed message (credentials, expiry, rate limit, connection) starts with a letter that names its kind |
| `Exceptions.MessageDeterminesKind` | src/exceptions.py:16-49 | messages of errors not raised as a bare IOLAPIError are distinct per kind |
| `Numerals.NatToDigits` | src/exceptions.py:40 | `str()` of a non-negative int n is a non-empty run of digits whose positional decimal value is n, with a leading zero only for 0 |
| `Numerals.IntToString` | src/exceptions.py:40 | `str()` of an int n is a minus sign for negatives only, then digits whose decimal value is the magnitude of n |
| `Numerals.TrimLeft` | src/api_client.py:89 | stripping leading whitespace drops only whitespace, and keeps a suffix that starts with a non-space |
| `Numerals.TrimRight` | src/api_client.py:89 | stripping trailing whitespace drops only whitespace, and keeps a prefix that ends with a non-space |
| `Numerals.DigitsRoundTrip` | src/api_client.py:89 | the digit-group reader gives back n from the digits of n |
| `Numerals.IsSpace` | src/api_client.py:89 | on ASCII, the whitespace `int()` strips is exactly space, tab, line feed, vertical tab, form feed and carriage return (not U+001C-U+001F); no whitespace is a digit, underscore or sign |
| `Numerals.DigitGroupsValue` | src/api_client.py:89 | accepted digit text starts and ends with a digit; any non-empty run of digits is accepted; its value is stated by `Numerals.DigitGroupsValueIsDecimal` |
| `Numerals.ParseInt` | src/api_client.py:89 | `int()` of blank text raises ValueError, and a negative result comes only from text whose sign is `-` |
| `Numerals.ParseStripped` | src/api_client.py:89 | `int()` after stripping: empty text raises, accepted text starts with a digit or a sign, and a negative result comes only from a leading `-` |
| `Numerals.ParseIntExactly` | src/api_client.py:89 | `int()` succeeds exactly when the stripped text is an optional sign followed by `digit ('_'? digit)*`, and then gives the decimal value of the digits with underscores dropped, negated under `-` |
| `Numerals.DigitGroupsExactly` | src/api_client.py:89 | the digit-group reader accepts exactly `digit ('_'? digit)*`: no leading, trailing or doubled underscore |
| `Numerals.DigitGroupsValueIsDecimal` | src/api_client.py:89 | accepted digit groups have the positional decimal value of their digits, underscores dropped |
| `Numerals.DelaySecondsValue` | src/api_client.py:89 | unpadded decimal digits, leading zeros included, read as their decimal value |
| `Numerals.SignedGroupedText` | src/api_client.py:89 | `int("+1_0") == 10`: a `+` sign is accepted and the underscore is dropped |
| `Numerals.AsciiSeparatorsAreNotStripped` | src/api_client.py:89 | `int()` of text starting with one of U+001C-U+001F raises ValueError, though `str.isspace` accepts those characters |
| `Numerals.ParseIntOfString` | src/api_client.py:89 | `int(str(n)) == n` for every int n, up to Python's digit limit (see Left out) |
| `Numerals.ParseIntOfDecimalText` | src/api_client.py:89 | text that spells an int in decimal reads back as that int |
| `Numerals.IntToStringInjective` | src/exceptions.py:40 | distinct ints have distinct decimal text |
| `Numerals.DigitGroupsChars` | src/api_client.py:89 | accepted digit groups hold only digits and underscores |
| `Numerals.ParsedTextIsNumeral` | src/api_client.py:89 | text `int()` accepts holds only whitespace, digits, underscores and signs; any other character makes it raise |
| `Json.EqualsInt` | src/api_client.py:99 | `error_code == 401` under Python's equality: an int compares by value, a bool as 0 or 1, and null, strings, lists and dicts never equal an int |
| `Json.IsSubstring` | src/api_client.py:97 | `"error" in s` on a string holds exactly when "error" occurs in s at some position |
| `Http.IsErrorStatus` | src/api_client.py:92 | `raise_for_status` rejects 401, 429 and 500 and accepts every 2xx and 3xx status |
| `Http.DecodeBody` | src/api_client.py:94 | `response.json()` gives the decoded body, and raises the JSON decoding error exactly when the body is not JSON |
| `Http.OnlyIolErrorsAreHandled` | src/api_client.py:92 | an `HTTPError` from `raise_for_status`, and Python's own errors, escape every handler of the library's classes |
| `ApiClient.IolClient.constructor` | src/api_client.py:24-38 | the client keeps its token, and its session sends `Authorization: Bearer <token>` and the JSON content type |
| `ApiClient.RetryAfterDelay` | src/api_client.py:89 | no header gives 60; a header is read exactly when its stripped text is an optional sign and digit groups, and then gives that text's decimal value; plain digits give their decimal value; a header that reads as an int holds only numeral characters |
| `ApiClient.HasErrorMarker` | src/api_client.py:97 | `"error" in data` is a key test on a dict, an element test on a list and a substring test on a string (true exactly when "error" occurs at some position); on any other value it raises TypeError |
| `ApiClient.CheckResponse` | src/api_client.py:67-103 | 401 is TokenExpired; another 400-599 status other than 429 is HTTPError; data returned is the body of a non-error response; the only library errors are TokenExpired, RateLimit and IOLAPIError |
| `ApiClient.Fetch` | src/api_client.py:40-65 | a transport failure is a NetworkError wrapping its cause, the only source of NetworkError; data returned is the received body |
| `ApiClient.NormalizePortfolio` | src/api_client.py:119-123 | a dict payload becomes a dict with exactly the keys activos, total and total_usd; any other payload raises AttributeError |
| `ApiClient.NormalizeQuotes` | src/api_client.py:145-149 | a list or dict payload is accepted; any other payload raises AttributeError |
| `ApiClient.NormalizeAccountStatus` | src/api_client.py:161-163 | a dict payload becomes a dict with exactly the key cuentas; any other payload raises AttributeError |
| `ApiClient.IolClient.GetPortfolio` | src/api_client.py:105-123 | a transport failure is a NetworkError; classification errors pass through unchanged; data is a dict with exactly the three portfolio keys, built from a dict payload |
| `ApiClient.IolClient.GetQuotes` | src/api_client.py:125-149 | a transport failure is a NetworkError; classification errors pass through unchanged; a list payload is returned unchanged |
| `ApiClient.IolClient.GetAccountStatus` | src/api_client.py:151-163 | a transport failure is a NetworkError; classification errors pass through unchanged; data is a dict with exactly the key cuentas |
| `ApiClient.IolClient.GetInstrumentDetail` | src/api_client.py:165-177 | the result is the classified response with no reshaping |
| `ApiClient.TransportFailureIsNetworkError` | src/api_client.py:57-65 | a transport exception becomes a NetworkError wrapping it, in every getter, and no status or body check runs |
| `ApiClient.CheckResponseErrorKinds` | src/api_client.py:67-103 | classifying a received response never yields NetworkError or InvalidCredentialsError |
| `ApiClient.TokenExpiredExactly` | src/api_client.py:85-100 | TokenExpired iff status 401 (whatever the body), or a non-error status with a dict body holding "error" and code equal to 401 |
| `ApiClient.RateLimitedExactly` | src/api_client.py:88-90 | RateLimit(n) iff status 429 and the header reads as n, or the header is absent and n is 60 |
| `ApiClient.RateLimitDelay` | src/api_client.py:88-90 | under 429: no header gives 60; a header whose stripped text is an optional sign and digit groups gives RateLimit with that text's decimal value; any other header (blank, a doubled underscore or sign, inner space, any non-numeral character) raises ValueError, never 60 |
| `ApiClient.RetryAfter120` | src/api_client.py:88-90 | a 429 with `Retry-After: 120` raises RateLimit(120) |
| `ApiClient.MalformedRetryAfterRaises` | src/api_client.py:89 | a 429 whose `Retry-After` is blank, "1__0" or "--5" raises ValueError instead of falling back to 60 |
| `ApiClient.HttpDateRetryAfterRaises` | src/api_client.py:89 | an HTTP-date `Retry-After` (section 10.2.3 of RFC 9110) raises ValueError |
| `ApiClient.HttpErrorExactly` | src/api_client.py:85-92 | requests' HTTPError(s) iff s is the status, in 400-599, and neither 401 nor 429 |
| `ApiClient.ErrorStatusIgnoresBody` | src/api_client.py:85-94 | under a 400-599 status, the body never affects the outcome |
| `ApiClient.ApiErrorExactly` | src/api_client.py:96-101 | IOLAPIError(m) iff a non-error status, a dict body with "error" and a code other than 401; m is "message" whenever that key is present (even holding null), else "error" |
| `ApiClient.SuccessExactly` | src/api_client.py:92-103 | data d is returned iff the status is not 400-599, the body is d and d has no "error" entry; d is then a dict, list or string |
| `ApiClient.ListBodyMarker` | src/api_client.py:97-98 | on a list body, `"error" in data` is an element test: a list holding "error" raises AttributeError, and any other list is returned |
| `ApiClient.PortfolioFields` | src/api_client.py:119-123 | activos, total and total_usd are copied from activos, totalEnPesos and totalEnDolares, with defaults [], 0 and 0 |
| `ApiClient.NonDictPayloadRaises` | src/api_client.py:116-163 | data that is not a dict makes the portfolio and account-status getters raise AttributeError |
| `ApiClient.QuotesComeFromPayload` | src/api_client.py:145-149 | a list result of get_quotes is the list body itself, the titulos entry of a dict body, or [] when there is none |
| `ApiClient.QuotesUnwrapTitulos` | src/api_client.py:148-149 | a dict payload gives its titulos entry, or [] without one |
| `ApiClient.AccountStatusFields` | src/api_client.py:161-163 | account status is exactly `{cuentas: body.get("cuentas", [])}`: the stored value whatever it is (null included), and `[]` only when the key is absent |
| `Auth.Seconds` | src/auth.py:138 | `timedelta(seconds=v)` accepts ints, bools and floats only; an int gives itself, a float its value rounded down (so -1.5 gives -2) |
| `Auth.ParseTokenResponse` | src/auth.py:127-145 | parsed token data copies access_token and refresh_token unchanged, keeps the body's expires_in (900 when absent), and its expiry is now plus that lifetime; the parse succeeds only on a dict with both tokens |
| `Auth.ParseUsesBodyExpiresIn` | src/auth.py:137-145 | a body with `expires_in` n gives a lifetime of n and an expiry of now + n |
| `Auth.ExpiryOf` | src/auth.py:144 | the stored `expires_at` names, once read back at line 121, the instant it was made from |
| `Auth.IsTokenValid` | src/auth.py:106-125 | valid iff expires_at is an instant more than 30 seconds after now; it raises only for unparseable or incomparable values; it reads nothing but its arguments |
| `Auth.AcceptTokenResponse` | src/auth.py:62-66 | a 400-599 status raises HTTPError; success is the parse of the body; no library error arises here |
| `Auth.LoginOutcome` | src/auth.py:44-66 | transport failure is NetworkError, 401 is InvalidCredentials, success needs a non-error status, and only InvalidCredentials or NetworkError are raised among the library's errors |
| `Auth.RefreshOutcome` | src/auth.py:87-104 | transport failure is NetworkError, 400 and 401 are TokenExpired, success needs a non-error status, and only TokenExpired or NetworkError are raised among the library's errors |
| `Auth.GrantTransportFailure` | src/auth.py:51-52 | both grants turn a transport failure into a NetworkError wrapping its cause |
| `Auth.ParseDefaultExpiresIn` | src/auth.py:137-145 | without expires_in, the lifetime is 900 and the expiry is now + 900, after now |
| `Auth.ParsedExpiryAfterNow` | src/auth.py:137-138 | a positive lifetime puts the expiry strictly after the parse instant |
| `Auth.ParseFailures` | src/auth.py:127-145 | the parse fails exactly on a non-dict body, an expires_in of the wrong type, or a missing token |
| `Auth.ValidityRule` | src/auth.py:106-125 | a missing or empty expires_at is invalid; an instant is valid iff it lies more than 30 seconds after now |
| `Auth.ValidityMonotone` | src/auth.py:123-125 | a later expiry, or an earlier clock reading, keeps a valid token valid |
| `Auth.FreshTokenValidity` | src/auth.py:106-145 | freshly parsed token data is valid exactly until 30 seconds before its lifetime ends |
| `Auth.DefaultTokenValidFor870` | src/auth.py:106-145 | with the default lifetime, the token is valid exactly for the first 870 seconds after issue |
| `Auth.IolAuth.constructor` | src/auth.py:20-21 | a new authenticator holds no token data |
| `Auth.IolAuth.Login` | src/auth.py:23-66 | login classifies the reply; token_data becomes the returned value on success and is unchanged on any failure |
| `Auth.IolAuth.Refresh` | src/auth.py:68-104 | refresh classifies the reply; token_data becomes the returned value on success and is unchanged on any failure |
| `Auth.Login401` | src/auth.py:54-55 | login with status 401 raises InvalidCredentials, whatever the body |
| `Auth.Login400` | src/auth.py:57-62 | login with status 400 and a dict body: `invalid_grant` (section 5.2 of RFC 6749) raises InvalidCredentials; any other body raises HTTPError(400), never TokenExpired |
| `Auth.LoginErrorKinds` | src/auth.py:23-66 | of the library's errors, login raises only InvalidCredentials or NetworkError |
| `Auth.Refresh400Or401` | src/auth.py:97-98 | refresh with status 400 or 401 raises TokenExpired, whatever the body |
| `Auth.RefreshErrorKinds` | src/auth.py:68-104 | of the library's errors, refresh raises only TokenExpired or NetworkError |
| `Auth.GrantsAgreeOutside400And401` | src/auth.py:54-104 | the two grants classify every reply alike, except those with status 400 or 401 |
| `Auth.GrantSuccessExactly` | src/auth.py:60-104 | a grant succeeds iff the status is not 400-599 and the body parses; it returns that parse |
| `Auth.LoginThenFailedRefresh` | src/auth.py:64-104 | after a successful login, a failed refresh leaves the login's token data in the slot |

## Left out

- HTTP transport is replaced by a transport-outcome parameter. This covers sessions, `requests.post`, the 10-second timeouts, redirects and URL building from the base URL. The getters' `country`, `instrument`, `market` and `symbol` arguments only shape the URL, so they are not parameters.
- The form payloads of the two grants (username, password, refresh token, grant type) are request data only. `Auth.IolAuth.Login` and `Auth.IolAuth.Refresh` therefore take the reply instead of these arguments.
- The session's default library headers are not modelled; only the two headers the client sets are.
- JSON decoding is not modelled. A body is either an already-decoded value or "does not decode".
- Non-finite floats (NaN, infinities) are not modelled.
- `Retry-After` is given as already looked up. The case-insensitive header lookup is the library's.
- Numerals.ParseInt: Python 3.11 and later (and patched 3.7-3.10) raise ValueError for `int()` of text with more than 4300 digits. `str()` of such an int raises too. The model has no such limit, so a 429 with a longer `Retry-After` gives RateLimit in the model and ValueError in Python. The limit is configurable at run time, and earlier releases lack it.
- Numerals.ParseInt: non-ASCII decimal digits, which Python's `int()` also accepts, are not modelled.
- Auth.ParseTokenResponse: a fractional `expires_in` is rounded down to whole seconds, while Python keeps microseconds. An `expires_in` too large for `timedelta` or `datetime` would raise OverflowError; the model's integers are unbounded.
- ISO-8601 text is not modelled. This covers `isoformat`, `fromisoformat` and the `Z` to `+00:00` rewrite. `Auth.ExpiryOf` takes the stored text to name the instant it was made from. `Auth.IsTokenValid` receives `expires_at` already sorted into absent, falsy, an instant, unparseable text, or an incomparable value (for example a naive datetime).
- `datetime.now` is replaced by the `now` parameter.
- Exceptions.Message: `str()` of an IOLAPIError whose argument is not a string (null, a number, a dict) is not modelled, and the message is `None` there.
- Token rotation is the caller's job, so it is not modelled. That covers rebuilding a client after TokenExpired and choosing between refresh and login.
