/** useCrudWithArrayOperations: a post list kept in step with the server by
    fetch, create, update and delete, and a view over it that searches by
    title, filters by user, sorts and paginates, with the rules that move
    currentPage when the list or the view parameters change. */
module CrudOperations {
  import opened Js
  import opened ApiTypes
  import opened PostSort
  import opened PostList
  import opened Pagination

  //////////////////////////////////////////////////////////////////////
  // The query pipeline: search, then filter, then sort, then paginate
  //////////////////////////////////////////////////////////////////////

  /** The search test: the lower-cased title contains the lower-cased query
      (the query as typed, not trimmed). */
  function TitleMatches(query: string): Post -> bool {
    (p: Post) => Includes(ToLowerCase(p.title), ToLowerCase(query))
  }

  /** Stage 1: search is skipped when the trimmed query is empty. */
  function SearchStage(posts: seq<Post>, query: string): seq<Post> {
    if Trim(query) == [] then posts else Filter(posts, TitleMatches(query))
  }

  lemma SearchStageSpec(posts: seq<Post>, query: string)
    ensures AllSpace(query) ==> SearchStage(posts, query) == posts
    ensures !AllSpace(query) ==>
      forall p :: p in SearchStage(posts, query) <==> p in posts && Includes(ToLowerCase(p.title), ToLowerCase(query))
    ensures !AllSpace(query) ==> forall p :: (multiset(SearchStage(posts, query))[p] ==
      if Includes(ToLowerCase(p.title), ToLowerCase(query)) then multiset(posts)[p] else 0)
    ensures IsSubsequence(SearchStage(posts, query), posts)
  {
    TrimEmptyIffBlank(query);
    FilterSpec(posts, TitleMatches(query));
    IsSubsequenceReflexive(posts);
  }

  /** The query is matched as typed, untrimmed: a post whose title has no
      blank and matches a non-blank word is found by that word, but not by
      the same word typed after a blank. */
  lemma SearchUsesUntrimmedQuery(p: Post, word: string)
    requires forall k :: 0 <= k < |p.title| ==> p.title[k] != ' '
    requires !AllSpace(word) && Includes(ToLowerCase(p.title), ToLowerCase(word))
    ensures SearchStage([p], word) == [p]
    ensures SearchStage([p], [' '] + word) == []
  {
    var query := [' '] + word;
    assert !AllSpace(query) by {
      var k :| 0 <= k < |word| && !IsSpace(word[k]);
      assert query[k + 1] == word[k];
    }
    TrimEmptyIffBlank(word);
    TrimEmptyIffBlank(query);
    FilterSingleton(p, TitleMatches(word));
    PaddedQueryMisses(p.title, word);
    FilterSingleton(p, TitleMatches(query));
  }

  /** A query that starts with a blank is not found in a title without one. */
  lemma PaddedQueryMisses(title: string, word: string)
    requires forall k :: 0 <= k < |title| ==> title[k] != ' '
    ensures !Includes(ToLowerCase(title), ToLowerCase([' '] + word))
  {
    var lowered, q := ToLowerCase(title), ToLowerCase([' '] + word);
    assert q[0] == ' ';
    forall i
      ensures !OccursAt(lowered, q, i)
    {
      if 0 <= i <= |lowered| - |q| {
        assert lowered[i..i + |q|][0] == lowered[i];
        assert lowered[i] == LowerChar(title[i]) != ' ';
      }
    }
  }

  /** Stage 2: a null filter lets every post through. */
  function FilterStage(posts: seq<Post>, filterUserId: Option<int>): seq<Post> {
    match filterUserId
    case None => posts
    case Some(u) => PostsOfUser(posts, u)
  }

  lemma FilterStageSpec(posts: seq<Post>, filterUserId: Option<int>)
    ensures filterUserId.None? ==> FilterStage(posts, filterUserId) == posts
    ensures filterUserId.Some? ==>
      forall p :: p in FilterStage(posts, filterUserId) <==> p in posts && p.userId == filterUserId.value
    ensures filterUserId.Some? ==> forall p :: (multiset(FilterStage(posts, filterUserId))[p] ==
      if p.userId == filterUserId.value then multiset(posts)[p] else 0)
    ensures IsSubsequence(FilterStage(posts, filterUserId), posts)
  {
    IsSubsequenceReflexive(posts);
  }

  /** Stages 1 and 2: the posts the view is made of, in list order. */
  function Selected(posts: seq<Post>, query: string, filterUserId: Option<int>): seq<Post> {
    FilterStage(SearchStage(posts, query), filterUserId)
  }

  /** Stage 3, applied to a copy of the list: the selected posts, sorted
      stably by the chosen key and direction. */
  function FilteredAndSorted(posts: seq<Post>, query: string, filterUserId: Option<int>,
                             sortBy: SortKey, sortOrder: SortOrder): (r: seq<Post>)
    ensures multiset(r) == multiset(Selected(posts, query, filterUserId))
    ensures |r| == |Selected(posts, query, filterUserId)|
  {
    assert |multiset(Sort(Selected(posts, query, filterUserId), sortBy, sortOrder))| == |multiset(Selected(posts, query, filterUserId))|;
    Sort(Selected(posts, query, filterUserId), sortBy, sortOrder)
  }

  /** The view is sorted, and posts with equal keys keep their list order. */
  lemma FilteredAndSortedSpec(posts: seq<Post>, query: string, filterUserId: Option<int>,
                              sortBy: SortKey, sortOrder: SortOrder)
    ensures Sorted(FilteredAndSorted(posts, query, filterUserId, sortBy, sortOrder), sortBy, sortOrder)
    ensures Stable(Selected(posts, query, filterUserId), FilteredAndSorted(posts, query, filterUserId, sortBy, sortOrder), sortBy)
  {
    SortSortedAndStable(Selected(posts, query, filterUserId), sortBy, sortOrder);
  }

  /** Which posts the view shows, whatever the sort settings. */
  lemma ViewMembership(posts: seq<Post>, query: string, filterUserId: Option<int>,
                       sortBy: SortKey, sortOrder: SortOrder, p: Post)
    ensures p in FilteredAndSorted(posts, query, filterUserId, sortBy, sortOrder) <==>
      && p in posts
      && (AllSpace(query) || Includes(ToLowerCase(p.title), ToLowerCase(query)))
      && (filterUserId.None? || p.userId == filterUserId.value)
  {
    var v := FilteredAndSorted(posts, query, filterUserId, sortBy, sortOrder);
    SearchStageSpec(posts, query);
    FilterStageSpec(SearchStage(posts, query), filterUserId);
    assert p in v <==> p in multiset(v);
  }

  /** What the view does after a delete on its last page. With 11 posts, 10
      to a page, page 2 holds the 11th post; once it is deleted the view is
      not empty, so currentPage stays 2 and that page is empty. */
  lemma DeleteOnLastPageKeepsEmptyPage()
    ensures var before := seq(11, (i: int) => Post(i + 1, "", "", 1));
            var after := RemoveById(before, 11);
            var viewBefore := FilteredAndSorted(before, "", None, ById, Asc);
            var viewAfter := FilteredAndSorted(after, "", None, ById, Asc);
            && Paginate(viewBefore, 2, 10) != []
            && viewAfter != []
            && PageCount(|viewAfter|, 10) == 1
            && Paginate(viewAfter, 2, 10) == []
  {
    var before := seq(11, (i: int) => Post(i + 1, "", "", 1));
    var after := RemoveById(before, 11);
    RemoveByIdIsRemoveAt(before, 11, 10);
    assert |after| == 10;
    assert Trim("") == [];
    var viewBefore := FilteredAndSorted(before, "", None, ById, Asc);
    var viewAfter := FilteredAndSorted(after, "", None, ById, Asc);
    assert |viewBefore| == |multiset(before)| == 11;
    assert |viewAfter| == |multiset(after)| == 10;
    PageNonEmptyIffInRange(viewBefore, 2, 10);
    PageNonEmptyIffInRange(viewAfter, 2, 10);
  }

  /** With no query, no user filter and the default sort, the view is the
      whole list sorted by id, ascending. */
  lemma ClearedViewIsSortedList(posts: seq<Post>)
    ensures FilteredAndSorted(posts, "", None, ById, Asc) == Sort(posts, ById, Asc)
  {
    assert Trim("") == [];
    assert Selected(posts, "", None) == posts;
  }

  //////////////////////////////////////////////////////////////////////
  // The composable's state
  //////////////////////////////////////////////////////////////////////

  class CrudWithArrayOperations {
    var posts: seq<Post>
    var loading: bool
    var error: Option<Error>
    var searchQuery: string
    var filterUserId: Option<int>
    var sortBy: SortKey
    var sortOrder: SortOrder
    var currentPage: int
    var itemsPerPage: int

    ghost predicate Valid()
      reads this
    {
      itemsPerPage >= 1
    }

    /** The view parameters other than the page are as before. */
    twostate predicate QueryUnchanged()
      reads this
    {
      searchQuery == old(searchQuery) && filterUserId == old(filterUserId) &&
      sortBy == old(sortBy) && sortOrder == old(sortOrder) && itemsPerPage == old(itemsPerPage)
    }

    /** The list and its status are as before. */
    twostate predicate StoreUnchanged()
      reads this
    {
      posts == old(posts) && loading == old(loading) && error == old(error)
    }

    constructor ()
      ensures Valid()
      ensures posts == [] && !loading && error == None
      ensures searchQuery == "" && filterUserId == None && sortBy == ById && sortOrder == Asc
      ensures currentPage == 1 && itemsPerPage == 10
    {
      posts := [];
      loading := false;
      error := None;
      searchQuery := "";
      filterUserId := None;
      sortBy := ById;
      sortOrder := Asc;
      currentPage := 1;
      itemsPerPage := 10;
    }

    //////////////////////////////////////////////////////////////////
    // Derived values
    //////////////////////////////////////////////////////////////////

    /** The view: never longer than the list it is drawn from. */
    function FilteredAndSortedPosts(): (r: seq<Post>)
      reads this
      ensures |r| <= |posts|
    {
      FilteredAndSorted(posts, searchQuery, filterUserId, sortBy, sortOrder)
    }

    /** The number of pages: none exactly for an empty view, and never more
        than the view has posts. */
    function TotalPages(): (r: nat)
      reads this
      requires Valid()
      ensures r == 0 <==> FilteredAndSortedPosts() == []
      ensures r <= |FilteredAndSortedPosts()|
    {
      PageCountAtMostLength(|FilteredAndSortedPosts()|, itemsPerPage);
      PageCount(|FilteredAndSortedPosts()|, itemsPerPage)
    }

    /** The index of the page's first post: it lies inside the view exactly
        when the page, from 1 on, is one of the first TotalPages(). */
    function StartIndex(): (r: int)
      reads this
      requires Valid()
      ensures currentPage >= 1 ==> 0 <= r
      ensures currentPage >= 1 ==> (r < |FilteredAndSortedPosts()| <==> currentPage <= TotalPages())
    {
      PageStartInView(|FilteredAndSortedPosts()|, currentPage, itemsPerPage);
      PageStart(currentPage, itemsPerPage)
    }

    /** The index just past the page's last post: within the view, and for
        an in-range page at most one page after StartIndex(). */
    function EndIndex(): (r: int)
      reads this
      requires Valid()
      ensures r <= |FilteredAndSortedPosts()|
      ensures currentPage >= 1 && StartIndex() < |FilteredAndSortedPosts()| ==>
        StartIndex() < r <= StartIndex() + itemsPerPage
    {
      PageEnd(currentPage, itemsPerPage, |FilteredAndSortedPosts()|)
    }

    function PaginatedPosts(): (r: seq<Post>)
      reads this
      requires Valid()
      ensures currentPage >= 1 ==> |r| <= itemsPerPage
      ensures currentPage >= 1 ==> (r == [] <==> currentPage > TotalPages())
      ensures currentPage >= 1 ==> PageOf(r, FilteredAndSortedPosts(), StartIndex())
    {
      var view := FilteredAndSortedPosts();
      if currentPage >= 1 then
        PageNonEmptyIffInRange(view, currentPage, itemsPerPage);
        Paginate(view, currentPage, itemsPerPage)
      else
        Paginate(view, currentPage, itemsPerPage)
    }

    //////////////////////////////////////////////////////////////////
    // Server calls and their reconciliation into `posts`
    //////////////////////////////////////////////////////////////////

    /** GET the list: on success it replaces `posts` and returns to page 1. */
    method FetchPosts(reply: Reply<seq<Post>>) returns (r: CallResult<seq<Post>>)
      requires Valid()
      modifies this
      ensures Valid() && QueryUnchanged() && !loading
      ensures error.Some? <==> r.Failure?
      ensures match reply
        case Resolved(data) =>
          posts == data && currentPage == 1 && error == None && r == Success(data)
        case Rejected(t) =>
          posts == old(posts) && currentPage == old(currentPage) &&
          r == Failure(AsError(t, FetchFailed)) && error == Some(r.error)
    {
      loading := true;
      error := None;
      match reply {
        case Resolved(data) =>
          posts := data;
          currentPage := 1;
          r := Success(data);
        case Rejected(t) =>
          var e := AsError(t, FetchFailed);
          error := Some(e);
          r := Failure(e);
      }
      loading := false;
    }

    /** POST a new post: the post the server returns goes first in the list,
        and the view returns to page 1. */
    method CreatePost(request: CreatePostRequest, reply: Reply<Post>) returns (r: CallResult<Post>)
      requires Valid()
      modifies this
      ensures Valid() && QueryUnchanged() && !loading
      ensures error.Some? <==> r.Failure?
      ensures match reply
        case Resolved(data) =>
          posts == [data] + old(posts) && currentPage == 1 && error == None && r == Success(data)
        case Rejected(t) =>
          posts == old(posts) && currentPage == old(currentPage) &&
          r == Failure(AsError(t, CreateFailed)) && error == Some(r.error)
    {
      loading := true;
      error := None;
      match reply {
        case Resolved(data) =>
          posts := [data] + posts;
          currentPage := 1;
          r := Success(data);
        case Rejected(t) =>
          var e := AsError(t, CreateFailed);
          error := Some(e);
          r := Failure(e);
      }
      loading := false;
    }

    /** PUT a full post: the first entry with the request's id is replaced
        by what the server returns; success is reported even when no entry
        has that id. */
    method UpdatePost(request: UpdatePostRequest, reply: Reply<Post>) returns (r: CallResult<Post>)
      requires Valid()
      modifies this
      ensures Valid() && QueryUnchanged() && !loading
      ensures currentPage == old(currentPage)
      ensures error.Some? <==> r.Failure?
      ensures match reply
        case Resolved(data) =>
          posts == ReplaceFirstById(old(posts), request.id, data) && error == None && r == Success(data)
        case Rejected(t) =>
          posts == old(posts) && r == Failure(AsError(t, UpdateFailed)) && error == Some(r.error)
    {
      loading := true;
      error := None;
      match reply {
        case Resolved(data) =>
          var index := IndexOfId(posts, request.id);
          if index.Some? {
            posts := posts[index.value := data];
          }
          r := Success(data);
        case Rejected(t) =>
          var e := AsError(t, UpdateFailed);
          error := Some(e);
          r := Failure(e);
      }
      loading := false;
    }

    /** DELETE a post: every entry with that id leaves the list; when the
        whole view is then empty and the page is past the first, the page
        steps back by one. */
    method DeletePost(id: int, reply: Reply<()>) returns (r: CallResult<()>)
      requires Valid()
      modifies this
      ensures Valid() && QueryUnchanged() && !loading
      ensures error.Some? <==> r.Failure?
      ensures match reply
        case Resolved(_) =>
          && posts == RemoveById(old(posts), id) && error == None && r == Success(())
          && currentPage == if FilteredAndSortedPosts() == [] && old(currentPage) > 1
                            then old(currentPage) - 1 else old(currentPage)
        case Rejected(t) =>
          posts == old(posts) && currentPage == old(currentPage) &&
          r == Failure(AsError(t, DeleteFailed)) && error == Some(r.error)
    {
      loading := true;
      error := None;
      match reply {
        case Resolved(_) =>
          posts := RemoveById(posts, id);
          if |FilteredAndSortedPosts()| == 0 && currentPage > 1 {
            currentPage := currentPage - 1;
          }
          r := Success(());
        case Rejected(t) =>
          var e := AsError(t, DeleteFailed);
          error := Some(e);
          r := Failure(e);
      }
      loading := false;
    }

    //////////////////////////////////////////////////////////////////
    // View parameters, with the watchers' corrections
    //////////////////////////////////////////////////////////////////

    /** Writing searchQuery; the watcher returns to page 1 when it changed. */
    method SetSearchQuery(query: string)
      requires Valid()
      modifies this
      ensures Valid() && StoreUnchanged() && searchQuery == query
      ensures filterUserId == old(filterUserId) && sortBy == old(sortBy) && sortOrder == old(sortOrder)
      ensures itemsPerPage == old(itemsPerPage)
      ensures currentPage == if query != old(searchQuery) then 1 else old(currentPage)
    {
      if query != searchQuery {
        searchQuery := query;
        currentPage := 1;
      }
    }

    /** Writing filterUserId; the watcher returns to page 1 when it changed. */
    method SetFilterUserId(userId: Option<int>)
      requires Valid()
      modifies this
      ensures Valid() && StoreUnchanged() && filterUserId == userId
      ensures searchQuery == old(searchQuery) && sortBy == old(sortBy) && sortOrder == old(sortOrder)
      ensures itemsPerPage == old(itemsPerPage)
      ensures currentPage == if userId != old(filterUserId) then 1 else old(currentPage)
    {
      if userId != filterUserId {
        filterUserId := userId;
        currentPage := 1;
      }
    }

    /** Writing itemsPerPage; when it changed and the page is past the new
        page count, the watcher moves to the last page, or to page 1 when
        the view is empty. */
    method SetItemsPerPage(n: int)
      requires Valid() && n >= 1
      modifies this
      ensures Valid() && StoreUnchanged() && itemsPerPage == n
      ensures searchQuery == old(searchQuery) && filterUserId == old(filterUserId)
      ensures sortBy == old(sortBy) && sortOrder == old(sortOrder)
      ensures currentPage ==
        if n != old(itemsPerPage) && old(currentPage) > TotalPages()
        then (if TotalPages() == 0 then 1 else TotalPages())
        else old(currentPage)
      ensures n != old(itemsPerPage) ==> currentPage <= if TotalPages() == 0 then 1 else TotalPages()
    {
      if n != itemsPerPage {
        itemsPerPage := n;
        var total := TotalPages();
        if currentPage > total {
          currentPage := if total == 0 then 1 else total;
        }
      }
    }

    /** Writing sortBy: no correction, and the page count is unaffected. */
    method SetSortBy(key: SortKey)
      requires Valid()
      modifies this
      ensures Valid() && StoreUnchanged() && sortBy == key
      ensures searchQuery == old(searchQuery) && filterUserId == old(filterUserId) && sortOrder == old(sortOrder)
      ensures itemsPerPage == old(itemsPerPage) && currentPage == old(currentPage)
      ensures TotalPages() == old(TotalPages())
    {
      sortBy := key;
    }

    /** Writing sortOrder: no correction, and the page count is unaffected. */
    method SetSortOrder(order: SortOrder)
      requires Valid()
      modifies this
      ensures Valid() && StoreUnchanged() && sortOrder == order
      ensures searchQuery == old(searchQuery) && filterUserId == old(filterUserId) && sortBy == old(sortBy)
      ensures itemsPerPage == old(itemsPerPage) && currentPage == old(currentPage)
      ensures TotalPages() == old(TotalPages())
    {
      sortOrder := order;
    }

    /** Writing currentPage directly: nothing watches it. */
    method SetCurrentPage(page: int)
      requires Valid()
      modifies this
      ensures Valid() && StoreUnchanged() && QueryUnchanged() && currentPage == page
    {
      currentPage := page;
    }

    method ClearSearch()
      requires Valid()
      modifies this
      ensures Valid() && StoreUnchanged() && searchQuery == "" && currentPage == 1
      ensures filterUserId == old(filterUserId) && sortBy == old(sortBy) && sortOrder == old(sortOrder)
      ensures itemsPerPage == old(itemsPerPage)
    {
      searchQuery := "";
      currentPage := 1;
    }

    method ClearFilter()
      requires Valid()
      modifies this
      ensures Valid() && StoreUnchanged() && filterUserId == None && currentPage == 1
      ensures searchQuery == old(searchQuery) && sortBy == old(sortBy) && sortOrder == old(sortOrder)
      ensures itemsPerPage == old(itemsPerPage)
    {
      filterUserId := None;
      currentPage := 1;
    }

    /** Back to the initial view parameters, keeping the page size. */
    method ClearAllFilters()
      requires Valid()
      modifies this
      ensures Valid() && StoreUnchanged()
      ensures searchQuery == "" && filterUserId == None && sortBy == ById && sortOrder == Asc && currentPage == 1
      ensures itemsPerPage == old(itemsPerPage)
      ensures FilteredAndSortedPosts() == Sort(posts, ById, Asc)
      ensures PaginatedPosts() == Paginate(Sort(posts, ById, Asc), 1, itemsPerPage)
    {
      searchQuery := "";
      filterUserId := None;
      sortBy := ById;
      sortOrder := Asc;
      currentPage := 1;
      ClearedViewIsSortedList(posts);
    }
  }
}
