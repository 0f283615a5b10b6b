/** useErrorHandling: one GET of a post whose outcome is sorted into a
    result object by an ordered chain of status checks (404, then 5xx, then
    any other status that is not ok, then success) and, for a thrown error,
    into a network error or an unknown error. */
module ErrorHandling {
  import opened Js
  import opened ApiTypes

  /** `number | 'NETWORK_ERROR' | 'UNKNOWN_ERROR'`. */
  datatype ErrorStatus = Code(code: int) | NetworkError | UnknownError

  /** `{ success, message, status, data? }`; the success object carries no
      status, so `status` is optional here. */
  datatype ErrorHandlingResult = ErrorHandlingResult(
    success: bool, message: string, status: Option<ErrorStatus>, data: Option<Post>)

  /** A value a `try` block can throw: a TypeError, another Error (such as
      the SyntaxError of a body that is not JSON), or something else. */
  datatype Exception = TypeErrorThrown(message: string) | OtherErrorThrown(message: string) | NonErrorThrown

  /** What `response.json()` does: resolve with the post, or throw. */
  datatype Body = Parsed(post: Post) | Unparsable(exception: Exception)

  /** What the call to `fetch` does: answer with a status and a body, or
      throw. */
  datatype FetchOutcome = Responded(status: int, body: Body) | Threw(exception: Exception)

  const NotFoundMessage: string := "リソースが見つかりませんでした（404）"
  const ServerErrorMessage: string := "サーバーエラーが発生しました（500番台）"
  const HttpErrorPrefix: string := "HTTP エラー: "
  const SuccessMessage: string := "データの取得に成功しました"
  const NetworkErrorMessage: string := "ネットワークエラー: インターネット接続を確認してください"
  const UnknownErrorMessage: string := "不明なエラー"

  /** `response.ok`: the status is in the range 200 to 299. */
  predicate IsOk(status: int) {
    200 <= status <= 299
  }

  /** The result of the catch block for a thrown value. */
  function ClassifyException(e: Exception): (r: ErrorHandlingResult)
    ensures !r.success && r.data.None?
    ensures r.status == Some(NetworkError) <==> e.TypeErrorThrown? && Includes(e.message, "fetch")
    ensures r.status != Some(NetworkError) ==> r.status == Some(UnknownError)
    ensures r.status == Some(UnknownError) && !e.NonErrorThrown? ==> r.message == e.message
    ensures e.NonErrorThrown? ==> r.message == UnknownErrorMessage
  {
    if e.TypeErrorThrown? && Includes(e.message, "fetch") then
      ErrorHandlingResult(false, NetworkErrorMessage, Some(NetworkError), None)
    else
      ErrorHandlingResult(false, if e.NonErrorThrown? then UnknownErrorMessage else e.message, Some(UnknownError), None)
  }

  /** The result for an answered request, by the ordered status checks. */
  function ClassifyResponse(status: int, body: Body): (r: ErrorHandlingResult)
    ensures r.success <==> IsOk(status) && body.Parsed?
    ensures r.success ==> r.data == Some(body.post) && r.status.None? && r.message == SuccessMessage
    ensures !r.success ==> r.data.None? && r.status.Some?
    ensures !IsOk(status) ==> r.status == Some(Code(status))
    ensures status == 404 ==> r.message == NotFoundMessage
    ensures status != 404 && status >= 500 ==> r.message == ServerErrorMessage
    ensures status != 404 && status < 500 && !IsOk(status) ==> r.message == HttpErrorPrefix + IntToString(status)
    ensures IsOk(status) && body.Unparsable? ==> r == ClassifyException(body.exception)
  {
    if status == 404 then ErrorHandlingResult(false, NotFoundMessage, Some(Code(404)), None)
    else if status >= 500 then ErrorHandlingResult(false, ServerErrorMessage, Some(Code(status)), None)
    else if !IsOk(status) then ErrorHandlingResult(false, HttpErrorPrefix + IntToString(status), Some(Code(status)), None)
    else
      match body
      case Parsed(post) => ErrorHandlingResult(true, SuccessMessage, None, Some(post))
      case Unparsable(e) => ClassifyException(e)
  }

  /** The result the whole call leaves behind: a success carries the post
      and no status, a failure a status and no post. */
  function Classify(outcome: FetchOutcome): (r: ErrorHandlingResult)
    ensures r.success ==> r.message == SuccessMessage && r.status.None? && r.data.Some?
    ensures !r.success ==> r.status.Some? && r.data.None?
  {
    match outcome
    case Responded(status, body) => ClassifyResponse(status, body)
    case Threw(e) => ClassifyException(e)
  }

  /** Success exactly for an ok status whose body parses, and then the post
      is the parsed one; every failure carries a status. */
  lemma ClassifySuccessIffOk(outcome: FetchOutcome)
    ensures Classify(outcome).success <==> outcome.Responded? && IsOk(outcome.status) && outcome.body.Parsed?
    ensures Classify(outcome).success ==> Classify(outcome).data == Some(outcome.body.post)
    ensures !Classify(outcome).success <==> Classify(outcome).status.Some?
  {
  }

  /** A failure with a numeric status comes from an answered request with
      that status, and never from an ok one. */
  lemma NumericStatusIsTheResponseStatus(outcome: FetchOutcome, code: int)
    requires Classify(outcome).status == Some(Code(code))
    ensures outcome.Responded? && outcome.status == code && !IsOk(code)
  {
  }

  /** The message of the generic HTTP error spells out the status in
      decimal after its prefix. */
  lemma HttpErrorMessageNamesStatus(status: int, body: Body)
    requires status != 404 && 0 <= status < 500 && !IsOk(status)
    ensures var m := ClassifyResponse(status, body).message;
            |m| > |HttpErrorPrefix| && m[..|HttpErrorPrefix|] == HttpErrorPrefix &&
            (forall k :: |HttpErrorPrefix| <= k < |m| ==> IsDigit(m[k])) &&
            DecimalValue(m[|HttpErrorPrefix|..]) == status
  {
    var m := ClassifyResponse(status, body).message;
    var digits := IntToString(status);
    assert m == HttpErrorPrefix + digits;
    assert m[|HttpErrorPrefix|..] == digits;
  }

  class ErrorHandling {
    var loading: bool
    var result: Option<ErrorHandlingResult>

    constructor ()
      ensures !loading && result.None?
    {
      loading := false;
      result := None;
    }

    /** `fetchWithDetailedErrorHandling(postId)`: the post id only selects
        the URL, whose outcome is given. Every exit, early or not, leaves a
        result and clears the loading flag. */
    method FetchWithDetailedErrorHandling(postId: int, outcome: FetchOutcome)
      modifies this
      ensures !loading
      ensures result == Some(Classify(outcome))
    {
      result := None;
      loading := true;
      match outcome {
        case Threw(e) =>
          result := Some(ClassifyException(e));
        case Responded(status, body) =>
          if status == 404 {
            result := Some(ErrorHandlingResult(false, NotFoundMessage, Some(Code(404)), None));
            loading := false;
            return;
          }
          if status >= 500 {
            result := Some(ErrorHandlingResult(false, ServerErrorMessage, Some(Code(status)), None));
            loading := false;
            return;
          }
          if !IsOk(status) {
            result := Some(ErrorHandlingResult(false, HttpErrorPrefix + IntToString(status), Some(Code(status)), None));
            loading := false;
            return;
          }
          match body {
            case Parsed(post) =>
              result := Some(ErrorHandlingResult(true, SuccessMessage, None, Some(post)));
            case Unparsable(e) =>
              result := Some(ClassifyException(e));
          }
      }
      loading := false;
    }
  }
}
