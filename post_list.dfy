/** Lookups over a post list shared by several composables, the edits both
    CRUD composables apply to their in-memory list once the server has
    answered, and the single-element removal of the local array toolkit. */
module PostList {
  import opened Js
  import opened ApiTypes

  /** The index of the first post whose id is `id`, if any. */
  function IndexOfId(posts: seq<Post>, id: int): (r: Option<nat>)
    ensures r.Some? ==> r.value < |posts| && posts[r.value].id == id
    ensures r.Some? ==> forall j :: 0 <= j < r.value ==> posts[j].id != id
    ensures r.None? <==> forall j :: 0 <= j < |posts| ==> posts[j].id != id
  {
    FindIndex(posts, (p: Post) => p.id == id)
  }

  /** The first post whose id is `id`, if any. */
  function FindById(posts: seq<Post>, id: int): (r: Option<Post>)
    ensures r.Some? ==> r.value.id == id && exists i :: 0 <= i < |posts| && posts[i] == r.value &&
                                                   forall j :: 0 <= j < i ==> posts[j].id != id
    ensures r.None? <==> forall p :: p in posts ==> p.id != id
  {
    match IndexOfId(posts, id)
    case None => None
    case Some(i) => Some(posts[i])
  }

  /** The test that a post belongs to user `userId`. */
  function UserMatches(userId: int): Post -> bool {
    (p: Post) => p.userId == userId
  }

  /** Filtering the list down to one user: exactly the posts of that user,
      each as often as in `posts`, in list order. */
  function PostsOfUser(posts: seq<Post>, userId: int): (r: seq<Post>)
    ensures forall p: Post :: p in r <==> p in posts && p.userId == userId
    ensures forall p: Post :: multiset(r)[p] == if p.userId == userId then multiset(posts)[p] else 0
    ensures IsSubsequence(r, posts)
  {
    FilterSpec(posts, UserMatches(userId));
    Filter(posts, UserMatches(userId))
  }

  /** `posts[i] = data` for the first `i` whose post has id `id`; no change
      when there is none. */
  function ReplaceFirstById(posts: seq<Post>, id: int, data: Post): (r: seq<Post>)
    ensures |r| == |posts|
    ensures (forall j :: 0 <= j < |posts| ==> posts[j].id != id) ==> r == posts
    ensures forall i :: 0 <= i < |posts| && posts[i].id == id && (forall j :: 0 <= j < i ==> posts[j].id != id)
                        ==> r == posts[i := data]
  {
    match IndexOfId(posts, id)
    case None => posts
    case Some(i) => posts[i := data]
  }

  /** Replacing an entry by the server's copy of itself changes nothing. */
  lemma ReplaceBySameIsIdentity(posts: seq<Post>, i: nat, data: Post)
    requires i < |posts| && posts[i] == data
    requires forall j :: 0 <= j < i ==> posts[j].id != data.id
    ensures ReplaceFirstById(posts, data.id, data) == posts
  {
  }

  /** The test that a post's id differs from `id`. */
  function NotId(id: int): Post -> bool {
    (p: Post) => p.id != id
  }

  /** Filtering out an id: every entry with that id goes, the others stay,
      in order. */
  function RemoveById(posts: seq<Post>, id: int): (r: seq<Post>)
    ensures forall p: Post :: p in r <==> p in posts && p.id != id
    ensures IsSubsequence(r, posts)
    ensures forall p: Post :: p.id != id ==> multiset(r)[p] == multiset(posts)[p]
  {
    FilterSpec(posts, NotId(id));
    Filter(posts, NotId(id))
  }

  /** `posts.splice(i, 1)`: drops the element at `i`, keeping the others
      in order. */
  function RemoveAt(posts: seq<Post>, i: nat): (r: seq<Post>)
    requires i < |posts|
    ensures |r| == |posts| - 1
    ensures forall j :: 0 <= j < i ==> r[j] == posts[j]
    ensures forall j :: i <= j < |r| ==> r[j] == posts[j + 1]
  {
    posts[..i] + posts[i + 1..]
  }

  ghost predicate UniqueIds(posts: seq<Post>) {
    forall i, j :: 0 <= i < j < |posts| ==> posts[i].id != posts[j].id
  }

  /** When ids are unique, removing every entry with an id (the CRUD
      composables) and splicing out the first one (the array toolkit) agree. */
  lemma {:induction false} RemoveByIdIsRemoveAt(posts: seq<Post>, id: int, i: nat)
    requires UniqueIds(posts)
    requires i < |posts| && posts[i].id == id
    ensures RemoveById(posts, id) == RemoveAt(posts, i)
  {
    var keep := NotId(id);
    var a, x, b := posts[..i], posts[i], posts[i + 1..];
    var ax := a + [x];
    assert posts == ax + b;
    OnlyOneHasId(posts, id, i);
    FilterAll(a, keep);
    FilterAll(b, keep);
    assert Filter([x], keep) == [];
    FilterConcat(a, [x], keep);
    assert Filter(ax, keep) == a;
    FilterConcat(ax, b, keep);
    assert Filter(posts, keep) == a + b;
  }

  /** With unique ids, no entry before or after the one with `id` has it. */
  lemma OnlyOneHasId(posts: seq<Post>, id: int, i: nat)
    requires UniqueIds(posts)
    requires i < |posts| && posts[i].id == id
    ensures forall y :: y in posts[..i] ==> NotId(id)(y)
    ensures forall y :: y in posts[i + 1..] ==> NotId(id)(y)
  {
    forall y | y in posts[..i] ensures NotId(id)(y) {
      var j :| 0 <= j < i && posts[..i][j] == y;
      assert posts[j] == y;
    }
    forall y | y in posts[i + 1..] ensures NotId(id)(y) {
      var j :| 0 <= j < |posts| - i - 1 && posts[i + 1..][j] == y;
      assert posts[i + 1 + j] == y;
    }
  }
}
