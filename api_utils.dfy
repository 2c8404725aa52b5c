/** Response shaping and the wrapper that turns a raised exception into an `ApiError` value. */
module ApiUtils {
  import opened Common
  import opened PyValues
  import opened Errors
  import opened Scripts

  /** The dictionary `format_response` builds: an optional 'count' and the 'data'. */
  datatype Response = Response(count: Option<nat>, data: Value)

  /** The number of entries of a list or dict. */
  function Size(v: Value): nat
  {
    match v
    case VList(items) => |items|
    case VDict(entries) => |entries|
    case _ => 0
  }

  /** Primitives and unrecognised values are wrapped as data alone; lists and
      dicts get their length as count, and an iterator is first drained into a list. */
  function FormatResponse(v: Value): (r: Response)
    ensures r.count.Some? <==> v.VList? || v.VIter? || v.VDict?
    ensures r.count.Some? ==> (r.data.VList? || r.data.VDict?) && r.count.value == Size(r.data)
    ensures v.VIter? ==> r.data == VList(v.pending)
    ensures !v.VIter? ==> r.data == v
  {
    if IsPrimitive(v) then Response(None, v)
    else match v
      case VList(items) => Response(Some(|items|), v)
      case VIter(pending) => Response(Some(|pending|), VList(pending))
      case VDict(entries) => Response(Some(|entries|), v)
      case _ => Response(None, v)
  }

  /** `str(e)`. For an ApiException this model uses its message. */
  function ExceptionText(e: Raised): string
  {
    match e
    case ApiException(_, message, _) => message
    case PyException(_, text) => text
    case BaseOnly(_, text) => text
  }

  /** `getattr(e, "status_code", "Unknown")`, rendered with `str`. */
  function ErrorCode(e: Raised): string
  {
    if e.ApiException? then IntToString(e.statusCode) else "Unknown"
  }

  /** `getattr(e, "response_text", str(e))`, rendered in an f-string: a missing
      response text on an ApiException prints as "None". */
  function ResponseText(e: Raised): string
  {
    if e.ApiException? then (if e.responseText.Some? then e.responseText.value else "None")
    else ExceptionText(e)
  }

  /** The wrapper: a success passes through unchanged, an `Exception` becomes an
      `ApiError` carrying the status code (or "Unknown"), the text of the
      exception and of the response, and the `url` keyword argument (or
      "Unknown"). A `BaseException` outside `Exception` still propagates. */
  function ExceptionHandler<T>(outcome: Result<T, Raised>, url: Option<string>): (r: Result<Result<T, ApiError>, Raised>)
    ensures outcome.Ok? ==> r == Ok(Ok(outcome.value))
    ensures outcome.Err? && IsException(outcome.error) ==>
      r.Ok? && r.value.Err? &&
      r.value.error.errorCode == ErrorCode(outcome.error) &&
      r.value.error.message == ExceptionText(outcome.error) + "\n" + ResponseText(outcome.error) &&
      r.value.error.url == Some(if url.Some? then url.value else "Unknown")
    ensures outcome.Err? && !IsException(outcome.error) ==> r == Err(outcome.error)
  {
    match outcome
    case Ok(v) => Ok(Ok(v))
    case Err(e) =>
      if !IsException(e) then Err(e)
      else
        var link := if url.Some? then url.value else "Unknown";
        Ok(Err(ApiError(ErrorCode(e), ExceptionText(e) + "\n" + ResponseText(e), Some(link))))
  }

  /** The error code of a handled ApiException reads back as its status code. */
  lemma HandledStatusCode<T>(outcome: Result<T, Raised>, url: Option<string>)
    requires outcome.Err? && outcome.error.ApiException?
    ensures ExceptionHandler(outcome, url).Ok?
    ensures ParseInt(ExceptionHandler(outcome, url).value.error.errorCode) == outcome.error.statusCode
  {
    IntToStringRoundTrip(outcome.error.statusCode);
  }
}
