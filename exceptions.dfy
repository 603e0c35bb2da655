/**
 * The error taxonomy of the client: the exception classes with their "is-a"
 * relation (which `except` clause catches what), the errors the client raises
 * with their payloads, and the messages their constructors format.
 */
module Exceptions {
  import opened Wrappers
  import opened Json
  import opened Numerals

  /** The exception classes, named as the library names them. */
  datatype ErrorClass =
    | IOLError
    | IOLAuthError
    | InvalidCredentialsError
    | TokenExpiredError
    | IOLAPIError
    | RateLimitError
    | NetworkError

  /** The declared base class; IOLError derives from Python's Exception, which is outside the model. */
  function Parent(c: ErrorClass): Option<ErrorClass>
  {
    match c
    case IOLError => None
    case IOLAuthError => Some(IOLError)
    case InvalidCredentialsError => Some(IOLAuthError)
    case TokenExpiredError => Some(IOLAuthError)
    case IOLAPIError => Some(IOLError)
    case RateLimitError => Some(IOLAPIError)
    case NetworkError => Some(IOLAPIError)
  }

  /** Number of steps from c up to the root of the hierarchy. */
  function Depth(c: ErrorClass): nat
  {
    match c
    case IOLError => 0
    case IOLAuthError | IOLAPIError => 1
    case _ => 2
  }

  /** `issubclass(c, d)`: d is c or one of its ancestors. */
  predicate IsSubclass(c: ErrorClass, d: ErrorClass): (b: bool)
    ensures c == d ==> b
    ensures d == IOLError ==> b
    ensures Parent(c) == Some(d) ==> b
    decreases Depth(c)
  {
    c == d || (Parent(c).Some? && IsSubclass(Parent(c).value, d))
  }

  /** The payload a connection failure carries: the transport exception's class name and `str()`. */
  datatype Cause = Cause(name: string, text: string)

  /** An error the client raises, with the payload its constructor stores. */
  datatype IolError =
    | InvalidCredentials
    | TokenExpired
    | ApiError(message: Json)            // IOLAPIError raised directly with one argument
    | RateLimited(retryAfter: int)       // RateLimitError.retry_after
    | Network(originalError: Cause)      // NetworkError.original_error

  function ClassOf(e: IolError): ErrorClass
  {
    match e
    case InvalidCredentials => InvalidCredentialsError
    case TokenExpired => TokenExpiredError
    case ApiError(_) => IOLAPIError
    case RateLimited(_) => RateLimitError
    case Network(_) => NetworkError
  }

  /** `except handler:` catches e. */
  predicate Catches(handler: ErrorClass, e: IolError): (b: bool)
    ensures handler == ClassOf(e) || handler == IOLError ==> b
    ensures handler in {InvalidCredentialsError, TokenExpiredError, RateLimitError, NetworkError} ==> (b <==> ClassOf(e) == handler)
  {
    IsSubclass(ClassOf(e), handler)
  }

  predicate IsAuthError(e: IolError) { Catches(IOLAuthError, e) }

  predicate IsApiError(e: IolError) { Catches(IOLAPIError, e) }

  const DefaultRetryAfter := 60

  /** `RateLimitError(retry_after)`, with the argument optional. */
  function NewRateLimitError(retryAfter: Option<int>): (e: IolError)
    ensures e.RateLimited?
    ensures retryAfter.Some? ==> e.retryAfter == retryAfter.value
    ensures retryAfter.None? ==> e.retryAfter == DefaultRetryAfter
  {
    match retryAfter
    case Some(n) => RateLimited(n)
    case None => RateLimited(DefaultRetryAfter)
  }

  const InvalidCredentialsText := "Credenciales inválidas. " + "Verificá usuario y contraseña."
  const TokenExpiredText := "Sesión expirada. Volvé a iniciar sesión."
  const RateLimitPrefix := "Límite de requests alcanzado. Reintentá en "
  const RateLimitSuffix := "s."
  const NetworkPrefix := "Error de conexión: "

  /** `str(e)`; None for an IOLAPIError whose argument is not a string (Python's
      rendering of other values is not modelled). */
  function Message(e: IolError): (r: Option<string>)
    ensures !e.ApiError? ==> r.Some?
    ensures e.InvalidCredentials? || e.TokenExpired? ==> r.Some? && (r.value == TokenExpiredText <==> e.TokenExpired?)
    ensures e.RateLimited? ==>
      var digits := IntToString(e.retryAfter);
      |r.value| == |RateLimitPrefix| + |digits| + |RateLimitSuffix|
      && r.value[|RateLimitPrefix|..|RateLimitPrefix| + |digits|] == digits
    ensures e.Network? ==> NetworkPrefix <= r.value && r.value[|NetworkPrefix|..] == e.originalError.text
  {
    match e
    case InvalidCredentials => Some(InvalidCredentialsText)
    case TokenExpired => Some(TokenExpiredText)
    case ApiError(m) => if m.JStr? then Some(m.s) else None
    case RateLimited(n) => Some(RateLimitPrefix + IntToString(n) + RateLimitSuffix)
    case Network(c) => Some(NetworkPrefix + c.text)
  }

  // ---------------------------------------------------------------- lemmas

  /** The is-a relation is a partial order. */
  lemma SubclassIsPartialOrder(a: ErrorClass, b: ErrorClass, c: ErrorClass)
    ensures IsSubclass(a, a)
    ensures IsSubclass(a, b) && IsSubclass(b, c) ==> IsSubclass(a, c)
    ensures IsSubclass(a, b) && IsSubclass(b, a) ==> a == b
  {
  }

  /** An `except IOLAuthError` handler catches exactly the two credential errors. */
  lemma AuthErrorsExactly(e: IolError)
    ensures IsAuthError(e) <==> e.InvalidCredentials? || e.TokenExpired?
  {
  }

  /** An `except IOLAPIError` handler catches the API, rate-limit and network errors. */
  lemma ApiErrorsExactly(e: IolError)
    ensures IsApiError(e) <==> e.ApiError? || e.RateLimited? || e.Network?
  {
  }

  /** `except IOLError` catches every error, and no error is both an auth and an API error. */
  lemma EveryErrorIsIolError(e: IolError)
    ensures Catches(IOLError, e)
    ensures IsAuthError(e) != IsApiError(e)
  {
  }

  /** The rate-limit message embeds the delay, so two such messages agree only for equal delays. */
  lemma RateLimitMessageDeterminesDelay(a: int, b: int)
    requires Message(RateLimited(a)) == Message(RateLimited(b))
    ensures a == b
  {
    var sa, sb := IntToString(a), IntToString(b);
    var ma := RateLimitPrefix + sa + RateLimitSuffix;
    var mb := RateLimitPrefix + sb + RateLimitSuffix;
    assert ma == mb;
    assert |sa| == |sb|;
    assert sa == ma[|RateLimitPrefix|..|RateLimitPrefix| + |sa|];
    assert sb == mb[|RateLimitPrefix|..|RateLimitPrefix| + |sb|];
    IntToStringInjective(a, b);
  }

  /** The fixed messages are distinct per kind: a message not from an IOLAPIError names its kind. */
  lemma MessageDeterminesKind(e1: IolError, e2: IolError)
    requires !e1.ApiError? && !e2.ApiError?
    requires Message(e1) == Message(e2)
    ensures ClassOf(e1) == ClassOf(e2)
  {
    MessageInitial(e1);
    MessageInitial(e2);
  }

  /** The first letter of each fixed message differs by kind. */
  lemma MessageInitial(e: IolError)
    requires !e.ApiError?
    ensures |Message(e).value| > 0
    ensures Message(e).value[0] == match ClassOf(e)
      case InvalidCredentialsError => 'C'
      case TokenExpiredError => 'S'
      case RateLimitError => 'L'
      case _ => 'E'
  {
    match e
    case RateLimited(n) =>
      assert Message(e).value == RateLimitPrefix + (IntToString(n) + RateLimitSuffix);
      assert RateLimitPrefix[0] == 'L';
    case Network(c) =>
      assert Message(e).value == NetworkPrefix + c.text;
    case InvalidCredentials =>
      assert InvalidCredentialsText[0] == 'C';
    case TokenExpired =>
      assert TokenExpiredText[0] == 'S';
  }
}
