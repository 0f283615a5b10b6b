/** The records exchanged with the posts endpoint and the shapes of the
    values the composables return. */
module ApiTypes {

  /** A post: server-assigned id, title, body and owning user. */
  datatype Post = Post(id: int, title: string, body: string, userId: int)

  /** The body of a create request: a post without its id. */
  datatype CreatePostRequest = CreatePostRequest(title: string, body: string, userId: int)

  /** The body of a full-replacement update request. */
  datatype UpdatePostRequest = UpdatePostRequest(id: int, title: string, body: string, userId: int)

  /** A JavaScript Error object, reduced to its message. */
  datatype Error = Error(message: string)

  /** What a failed call throws: an Error object, or any other value. */
  datatype Thrown = ThrownError(error: Error) | ThrownValue

  /** What a remote call does: resolve with the decoded response, or throw. */
  datatype Reply<+T> = Resolved(value: T) | Rejected(thrown: Thrown)

  /** The result objects the operations return:
      `{ success: true, data }` or `{ success: false, error }`. */
  datatype CallResult<+T> = Success(data: T) | Failure(error: Error)

  /** The messages both CRUD composables fall back on when the thrown value
      is not an Error: fetch, create, update and delete failed. */
  const FetchFailed: string := "投稿の取得に失敗しました"
  const CreateFailed: string := "投稿の作成に失敗しました"
  const UpdateFailed: string := "投稿の更新に失敗しました"
  const DeleteFailed: string := "投稿の削除に失敗しました"

  /** What the operations store and return for a thrown value: the value
      itself when it is an Error, otherwise a new Error with the fallback
      message. */
  function AsError(t: Thrown, fallback: string): Error {
    match t
    case ThrownError(e) => e
    case ThrownValue => Error(fallback)
  }
}
