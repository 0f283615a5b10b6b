/** usePosts: lookups over a post list that may not have been loaded yet
    (None while the request is pending or after it failed). */
module PostLookup {
  import opened Js
  import opened ApiTypes
  import opened PostList

  /** The first loaded post whose id is `id`; nothing when there is none or
      nothing is loaded. */
  function GetPostById(posts: Option<seq<Post>>, id: int): (r: Option<Post>)
    ensures posts.None? ==> r.None?
    ensures r.Some? ==> posts.Some? && r.value in posts.value && r.value.id == id
    ensures r.Some? ==> exists i :: 0 <= i < |posts.value| && posts.value[i] == r.value &&
                                    forall j :: 0 <= j < i ==> posts.value[j].id != id
    ensures posts.Some? ==> (r.None? <==> forall p :: p in posts.value ==> p.id != id)
  {
    match posts
    case None => None
    case Some(list) => FindById(list, id)
  }

  /** The loaded posts of one user in list order, and the empty list when
      nothing is loaded (an empty filter result is an array, which is truthy,
      so the fallback to an empty list only replaces a missing list). */
  function GetPostsByUserId(posts: Option<seq<Post>>, userId: int): (r: seq<Post>)
    ensures posts.None? ==> r == []
    ensures posts.Some? ==> forall p :: p in r <==> p in posts.value && p.userId == userId
    ensures posts.Some? ==> forall p :: multiset(r)[p] == if p.userId == userId then multiset(posts.value)[p] else 0
    ensures posts.Some? ==> IsSubsequence(r, posts.value)
  {
    match posts
    case None => []
    case Some(list) => PostsOfUser(list, userId)
  }
}
