/** useArrayOperations: a local post list with the standard array queries
    (filter, a count-by-user fold, find, sort, page, page count) and three
    in-place edits (push a new post, retitle one, splice one out). */
module ArrayOperations {
  import opened Js
  import opened ApiTypes
  import opened PostSort
  import opened PostList
  import opened Pagination

  //////////////////////////////////////////////////////////////////////
  // getUserPostCounts: the reduce fold
  //////////////////////////////////////////////////////////////////////

  /** The number of posts in `posts` whose userId is `u`. */
  function CountOfUser(posts: seq<Post>, u: int): nat {
    if posts == [] then 0 else (if posts[0].userId == u then 1 else 0) + CountOfUser(posts[1..], u)
  }

  /** The userIds that occur in `posts`. */
  function UserIds(posts: seq<Post>): set<int> {
    set p | p in posts :: p.userId
  }

  /** Supports the choice of a key in SumOfCounts: a non-empty tally has one. */
  lemma NonEmptyTallyHasKey(m: map<int, nat>)
    requires m != map[]
    ensures exists k :: k in m
  {
    if forall k :: k !in m {
    }
  }

  /** The sum of all counts of a tally. */
  ghost function SumOfCounts(m: map<int, nat>): nat
    decreases |m.Keys|
  {
    if m == map[] then 0
    else
      NonEmptyTallyHasKey(m);
      var k :| k in m;
      m[k] + SumOfCounts(m - {k})
  }

  /** The sum may be split at any key, not only the one the definition picks. */
  lemma {:induction false} SumOfCountsRemove(m: map<int, nat>, k: int)
    requires k in m
    ensures SumOfCounts(m) == m[k] + SumOfCounts(m - {k})
    decreases |m.Keys|
  {
    var k' :| k' in m && SumOfCounts(m) == m[k'] + SumOfCounts(m - {k'});
    if k' != k {
      assert |(m - {k'}).Keys| < |m.Keys| by {
        assert (m - {k'}).Keys < m.Keys;
      }
      assert |(m - {k}).Keys| < |m.Keys| by {
        assert (m - {k}).Keys < m.Keys;
      }
      SumOfCountsRemove(m - {k'}, k);
      SumOfCountsRemove(m - {k}, k');
      assert m - {k'} - {k} == m - {k} - {k'};
    }
  }

  /** One more post for user `u` raises the sum by one. */
  lemma SumOfCountsBump(m: map<int, nat>, u: int)
    ensures SumOfCounts(m[u := (if u in m then m[u] else 0) + 1]) == SumOfCounts(m) + 1
  {
    var m' := m[u := (if u in m then m[u] else 0) + 1];
    SumOfCountsRemove(m', u);
    if u in m {
      SumOfCountsRemove(m, u);
      assert m' - {u} == m - {u};
    } else {
      assert m' - {u} == m;
    }
  }

  /** The tally fold: for each post in turn, the count of its user goes up
      by one, starting from 0 for a user not yet in the tally. No count
      goes down, and every user of the list ends up with one. */
  function CountFold(posts: seq<Post>, acc: map<int, nat>): (r: map<int, nat>)
    ensures forall u :: u in acc ==> u in r && acc[u] <= r[u]
    ensures forall p :: p in posts ==> p.userId in r
  {
    if posts == [] then acc
    else
      var u := posts[0].userId;
      CountFold(posts[1..], acc[u := (if u in acc then acc[u] else 0) + 1])
  }

  /** The userIds of a non-empty list: the first post's and the rest's. */
  lemma UserIdsCons(posts: seq<Post>)
    requires posts != []
    ensures UserIds(posts) == {posts[0].userId} + UserIds(posts[1..])
  {
    assert posts == [posts[0]] + posts[1..];
    forall v | v in UserIds(posts) ensures v in {posts[0].userId} + UserIds(posts[1..]) {
      var p :| p in posts && p.userId == v;
      if p != posts[0] {
        assert p in posts[1..];
      }
    }
  }

  /** The fold creates entries exactly for the users it meets. */
  lemma {:induction false} CountFoldKeys(posts: seq<Post>, acc: map<int, nat>)
    ensures CountFold(posts, acc).Keys == acc.Keys + UserIds(posts)
  {
    if posts != [] {
      var u := posts[0].userId;
      var next := acc[u := (if u in acc then acc[u] else 0) + 1];
      assert next.Keys == acc.Keys + {u};
      CountFoldKeys(posts[1..], next);
      UserIdsCons(posts);
    }
  }

  /** The fold adds, to every entry of the accumulator, the number of posts
      of that user. */
  lemma {:induction false} CountFoldCounts(posts: seq<Post>, acc: map<int, nat>, v: int)
    requires v in CountFold(posts, acc)
    ensures CountFold(posts, acc)[v] == (if v in acc then acc[v] else 0) + CountOfUser(posts, v)
  {
    if posts != [] {
      var u := posts[0].userId;
      CountFoldCounts(posts[1..], acc[u := (if u in acc then acc[u] else 0) + 1], v);
    }
  }

  /** The fold adds the number of posts to the total of the tally. */
  lemma {:induction false} CountFoldSum(posts: seq<Post>, acc: map<int, nat>)
    ensures SumOfCounts(CountFold(posts, acc)) == SumOfCounts(acc) + |posts|
  {
    if posts != [] {
      var u := posts[0].userId;
      CountFoldSum(posts[1..], acc[u := (if u in acc then acc[u] else 0) + 1]);
      SumOfCountsBump(acc, u);
    }
  }

  /** A user that occurs has at least one post. */
  lemma {:induction false} CountOfPresentUser(posts: seq<Post>, u: int)
    ensures u in UserIds(posts) <==> CountOfUser(posts, u) >= 1
  {
    if posts != [] {
      CountOfPresentUser(posts[1..], u);
      UserIdsCons(posts);
    }
  }

  //////////////////////////////////////////////////////////////////////
  // addPost: the next id
  //////////////////////////////////////////////////////////////////////

  /** The largest id in a non-empty list. */
  function MaxId(posts: seq<Post>): (r: int)
    requires posts != []
    ensures forall p :: p in posts ==> p.id <= r
    ensures exists p :: p in posts && p.id == r
  {
    if |posts| == 1 then posts[0].id
    else
      var rest := MaxId(posts[1..]);
      assert forall p :: p in posts ==> p == posts[0] || p in posts[1..];
      if posts[0].id >= rest then posts[0].id else rest
  }

  /** `maxId + 1`, where maxId is 0 for an empty list. The result is above
      every id in the list. */
  function NextId(posts: seq<Post>): (r: int)
    ensures forall p :: p in posts ==> p.id < r
    ensures posts == [] ==> r == 1
    ensures posts != [] ==> r == MaxId(posts) + 1
  {
    (if |posts| > 0 then MaxId(posts) else 0) + 1
  }

  //////////////////////////////////////////////////////////////////////
  // getTotalPages over any divisor
  //////////////////////////////////////////////////////////////////////

  /** What `Math.ceil(length / itemsPerPage)` evaluates to for a whole
      divisor: a whole number, Infinity (a non-empty list over 0) or NaN
      (0 / 0). */
  datatype PageTotal = Pages(count: int) | Infinite | NotANumber

  function TotalPagesOf(length: nat, itemsPerPage: int): (r: PageTotal)
    ensures itemsPerPage >= 1 ==> r == Pages(PageCount(length, itemsPerPage))
    ensures itemsPerPage == 0 ==> (r == if length == 0 then NotANumber else Infinite)
    ensures itemsPerPage < 0 ==>
      (r.Pages? && r.count <= 0 && r.count * itemsPerPage <= length < (r.count - 1) * itemsPerPage)
  {
    if itemsPerPage >= 1 then Pages(PageCount(length, itemsPerPage))
    else if itemsPerPage == 0 then (if length == 0 then NotANumber else Infinite)
    else
      var d := -itemsPerPage;
      var q := length / d;
      assert q * d <= length < q * d + d;
      assert (-q) * itemsPerPage == q * d;
      assert (-q - 1) * itemsPerPage == q * d + d;
      Pages(-q)
  }

  //////////////////////////////////////////////////////////////////////
  // The composable's state
  //////////////////////////////////////////////////////////////////////

  class ArrayOperations {
    var posts: seq<Post>
    var loading: bool

    constructor ()
      ensures posts == [] && !loading
    {
      posts := [];
      loading := false;
    }

    /** GET the list: a reply replaces it, a failure is only logged. */
    method FetchPosts(reply: Reply<seq<Post>>)
      modifies this
      ensures !loading
      ensures posts == if reply.Resolved? then reply.value else old(posts)
    {
      loading := true;
      if reply.Resolved? {
        posts := reply.value;
      }
      loading := false;
    }

    /** `getFilteredPosts(userId)`: the list itself for null, otherwise
        exactly the posts of that user in list order. */
    function GetFilteredPosts(userId: Option<int>): (r: seq<Post>)
      reads this
      ensures userId.None? ==> r == posts
      ensures userId.Some? ==> forall p :: p in r <==> p in posts && p.userId == userId.value
      ensures userId.Some? ==> forall p :: multiset(r)[p] == if p.userId == userId.value then multiset(posts)[p] else 0
      ensures IsSubsequence(r, posts)
    {
      IsSubsequenceReflexive(posts);
      match userId
      case None => posts
      case Some(u) => PostsOfUser(posts, u)
    }

    /** `getUserPostCounts`: one entry per userId in the list, holding its
        number of posts; the counts add up to the length of the list. */
    function GetUserPostCounts(): (r: map<int, nat>)
      reads this
      ensures r.Keys == UserIds(posts)
      ensures forall u :: u in r ==> r[u] == CountOfUser(posts, u) && r[u] >= 1
      ensures SumOfCounts(r) == |posts|
    {
      CountFoldKeys(posts, map[]);
      CountFoldSum(posts, map[]);
      assert SumOfCounts(map[]) == 0;
      forall u | u in CountFold(posts, map[]) ensures CountFold(posts, map[])[u] == CountOfUser(posts, u) >= 1 {
        CountFoldCounts(posts, map[], u);
        CountOfPresentUser(posts, u);
      }
      CountFold(posts, map[])
    }

    /** `findPostById(id)`: null for a null id, otherwise the first post
        with that id, or null when there is none. */
    function FindPostById(id: Option<int>): (r: Option<Post>)
      reads this
      ensures id.None? ==> r.None?
      ensures id.Some? ==> r == FindById(posts, id.value)
    {
      match id
      case None => None
      case Some(i) => FindById(posts, i)
    }

    /** `getSortedPosts(key, order)`: a sorted, stable permutation of a copy
        of the list; the list itself is only read. */
    function GetSortedPosts(key: SortKey, order: SortOrder): (r: seq<Post>)
      reads this
      ensures multiset(r) == multiset(posts)
      ensures Sorted(r, key, order)
      ensures Stable(posts, r, key)
    {
      SortSortedAndStable(posts, key, order);
      Sort(posts, key, order)
    }

    /** The slice of the whole list from `(currentPage - 1) * itemsPerPage`,
        `itemsPerPage` long, for any whole numbers. Page 0 and a page size
        of 0 give nothing; on page 1 a negative size counts from the end. */
    function GetPaginatedPosts(currentPage: int, itemsPerPage: int): (r: seq<Post>)
      reads this
      ensures currentPage >= 1 && itemsPerPage >= 1 ==> r == Paginate(posts, currentPage, itemsPerPage)
      ensures currentPage == 0 || itemsPerPage == 0 ==> r == []
      ensures currentPage == 1 && itemsPerPage < 0 ==>
        r == posts[..if |posts| + itemsPerPage < 0 then 0 else |posts| + itemsPerPage]
    {
      var start := PageStart(currentPage, itemsPerPage);
      if currentPage >= 1 && itemsPerPage >= 1 then
        assert start >= 0 by {
          MulMonotone(0, currentPage - 1, itemsPerPage);
        }
        Slice(posts, start, start + itemsPerPage)
      else
        assert currentPage == 0 ==> start + itemsPerPage == 0;
        assert itemsPerPage == 0 ==> start == 0;
        Slice(posts, start, start + itemsPerPage)
    }

    /** `getTotalPages(itemsPerPage)` over the whole list. */
    function GetTotalPages(itemsPerPage: int): (r: PageTotal)
      reads this
      ensures itemsPerPage >= 1 ==> r == Pages(PageCount(|posts|, itemsPerPage))
      ensures itemsPerPage == 0 ==> (r == if posts == [] then NotANumber else Infinite)
    {
      TotalPagesOf(|posts|, itemsPerPage)
    }

    /** `addPost(title, userId)`: refused for an empty title or userId 0;
        otherwise a post with the next id and an empty body goes last. */
    method AddPost(title: string, userId: int) returns (ok: bool)
      modifies this
      ensures loading == old(loading)
      ensures ok <==> title != [] && userId != 0
      ensures !ok ==> posts == old(posts)
      ensures ok ==> posts == old(posts) + [Post(NextId(old(posts)), title, [], userId)]
      ensures ok ==> forall p :: p in old(posts) ==> p.id != posts[|posts| - 1].id
    {
      if title == [] || userId == 0 {
        return false;
      }
      var newId := NextId(posts);
      posts := posts + [Post(newId, title, [], userId)];
      return true;
    }

    /** `updatePost(id, title)`: refused for id 0 or an empty title;
        otherwise the title of the first post with that id is overwritten,
        and false is returned when there is none. */
    method UpdatePost(id: int, title: string) returns (ok: bool)
      modifies this
      ensures loading == old(loading)
      ensures ok <==> id != 0 && title != [] && IndexOfId(old(posts), id).Some?
      ensures !ok ==> posts == old(posts)
      ensures ok ==> var i := IndexOfId(old(posts), id).value;
                     posts == old(posts)[i := old(posts)[i].(title := title)]
    {
      if id == 0 || title == [] {
        return false;
      }
      var index := IndexOfId(posts, id);
      if index.Some? {
        posts := posts[index.value := posts[index.value].(title := title)];
        return true;
      }
      return false;
    }

    /** `deletePostById(id)`: refused for id 0; otherwise the first post
        with that id is spliced out, and false is returned when there is
        none. */
    method DeletePostById(id: int) returns (ok: bool)
      modifies this
      ensures loading == old(loading)
      ensures ok <==> id != 0 && IndexOfId(old(posts), id).Some?
      ensures !ok ==> posts == old(posts)
      ensures ok ==> posts == RemoveAt(old(posts), IndexOfId(old(posts), id).value)
      ensures ok ==> |posts| == |old(posts)| - 1
    {
      if id == 0 {
        return false;
      }
      var index := IndexOfId(posts, id);
      if index.Some? {
        posts := RemoveAt(posts, index.value);
        return true;
      }
      return false;
    }
  }

  //////////////////////////////////////////////////////////////////////
  // What the edits promise, stated on values
  //////////////////////////////////////////////////////////////////////

  /** After a retitle, the first post with the id is found with the new
      title and everything else about it kept. */
  lemma {:induction false} RetitleThenFind(posts: seq<Post>, id: int, title: string)
    requires IndexOfId(posts, id).Some?
    ensures var i := IndexOfId(posts, id).value;
            FindById(posts[i := posts[i].(title := title)], id) == Some(posts[i].(title := title))
  {
    var i := IndexOfId(posts, id).value;
    var edited := posts[i := posts[i].(title := title)];
    assert forall j :: 0 <= j < i ==> edited[j] == posts[j];
    assert IndexOfId(edited, id) == Some(i) by {
      var k := IndexOfId(edited, id);
      assert edited[i].id == id;
    }
  }

  /** A post added with the next id is the one found by that id. */
  lemma {:induction false} AddThenFind(posts: seq<Post>, title: string, userId: int)
    ensures var p := Post(NextId(posts), title, [], userId);
            FindById(posts + [p], p.id) == Some(p)
  {
    var p := Post(NextId(posts), title, [], userId);
    var s := posts + [p];
    var k := IndexOfId(s, p.id);
    assert s[|posts|].id == p.id;
    assert forall j :: 0 <= j < |posts| ==> s[j] in posts;
  }
}
