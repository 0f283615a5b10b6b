/** useHttpPosts: a post list kept in step with the server by GET, POST,
    PUT and DELETE, with a loading flag and the last error. Each remote
    call is given as its outcome. */
module HttpPosts {
  import opened Js
  import opened ApiTypes
  import opened PostList

  /** The fallback message of a failed single-post GET, with the id written
      as JavaScript writes a whole number into a template literal. */
  function FetchByIdFailed(id: int): string {
    "投稿ID " + IntToString(id) + " の取得に失敗しました"
  }

  class HttpPosts {
    var posts: seq<Post>
    var loading: bool
    var error: Option<Error>

    constructor ()
      ensures posts == [] && !loading && error == None
    {
      posts := [];
      loading := false;
      error := None;
    }

    /** GET the list: the reply replaces it. */
    method FetchPosts(reply: Reply<seq<Post>>) returns (r: CallResult<seq<Post>>)
      modifies this
      ensures !loading
      ensures error.Some? <==> r.Failure?
      ensures match reply
        case Resolved(data) => posts == data && error == None && r == Success(data)
        case Rejected(t) =>
          posts == old(posts) && r == Failure(AsError(t, FetchFailed)) && error == Some(r.error)
    {
      loading := true;
      error := None;
      match reply {
        case Resolved(data) =>
          posts := data;
          r := Success(data);
        case Rejected(t) =>
          var e := AsError(t, FetchFailed);
          error := Some(e);
          r := Failure(e);
      }
      loading := false;
    }

    /** GET one post: the list is never touched. */
    method FetchPostById(id: int, reply: Reply<Post>) returns (r: CallResult<Post>)
      modifies this
      ensures posts == old(posts) && !loading
      ensures error.Some? <==> r.Failure?
      ensures match reply
        case Resolved(data) => error == None && r == Success(data)
        case Rejected(t) => r == Failure(AsError(t, FetchByIdFailed(id))) && error == Some(r.error)
    {
      loading := true;
      error := None;
      match reply {
        case Resolved(data) =>
          r := Success(data);
        case Rejected(t) =>
          var e := AsError(t, FetchByIdFailed(id));
          error := Some(e);
          r := Failure(e);
      }
      loading := false;
    }

    /** POST a new post: the post the server returns goes first. */
    method CreatePost(request: CreatePostRequest, reply: Reply<Post>) returns (r: CallResult<Post>)
      modifies this
      ensures !loading
      ensures error.Some? <==> r.Failure?
      ensures match reply
        case Resolved(data) => posts == [data] + old(posts) && error == None && r == Success(data)
        case Rejected(t) =>
          posts == old(posts) && r == Failure(AsError(t, CreateFailed)) && error == Some(r.error)
    {
      loading := true;
      error := None;
      match reply {
        case Resolved(data) =>
          posts := [data] + posts;
          r := Success(data);
        case Rejected(t) =>
          var e := AsError(t, CreateFailed);
          error := Some(e);
          r := Failure(e);
      }
      loading := false;
    }

    /** PUT a full post: the first entry with the request's id becomes the
        server's copy; success is reported even when there is none. */
    method UpdatePost(request: UpdatePostRequest, reply: Reply<Post>) returns (r: CallResult<Post>)
      modifies this
      ensures !loading
      ensures error.Some? <==> r.Failure?
      ensures match reply
        case Resolved(data) =>
          posts == ReplaceFirstById(old(posts), request.id, data) && error == None && r == Success(data)
        case Rejected(t) =>
          posts == old(posts) && r == Failure(AsError(t, UpdateFailed)) && error == Some(r.error)
    {
      loading := true;
      error := None;
      match reply {
        case Resolved(data) =>
          var index := IndexOfId(posts, request.id);
          if index.Some? {
            posts := posts[index.value := data];
          }
          r := Success(data);
        case Rejected(t) =>
          var e := AsError(t, UpdateFailed);
          error := Some(e);
          r := Failure(e);
      }
      loading := false;
    }

    /** DELETE a post: every entry with that id leaves the list. */
    method DeletePost(id: int, reply: Reply<()>) returns (r: CallResult<()>)
      modifies this
      ensures !loading
      ensures error.Some? <==> r.Failure?
      ensures match reply
        case Resolved(_) => posts == RemoveById(old(posts), id) && error == None && r == Success(())
        case Rejected(t) =>
          posts == old(posts) && r == Failure(AsError(t, DeleteFailed)) && error == Some(r.error)
    {
      loading := true;
      error := None;
      match reply {
        case Resolved(_) =>
          posts := RemoveById(posts, id);
          r := Success(());
        case Rejected(t) =>
          var e := AsError(t, DeleteFailed);
          error := Some(e);
          r := Failure(e);
      }
      loading := false;
    }
  }
}
