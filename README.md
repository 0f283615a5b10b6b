# Post list, view and form composables, modelled in Dafny

This project models the logic of a Nuxt practice repository's composables.

- **A post list synchronised with a posts endpoint.** Posts are fetched, created, updated and deleted. A derived view over the list searches by title, filters by user, sorts stably and paginates. Rules move the current page when the list or the view parameters change.
- **A local array toolkit over the same kind of list.** It offers filter, a count-by-user fold, find, sort, page and page count, plus three in-place edits.
- **An HTTP post store** with the same loading and error discipline.
- **A contact form.** It has per-field rules, an e-mail pattern, an error list that follows field edits, full validation, reset and submit.
- **A classifier** that turns the outcome of one GET into a result object.
- **Two lookups** over a list that may not be loaded yet.

Each remote call is an input to the operation that makes it: the decoded response, or the value it throws. The project therefore states what each operation does with every possible outcome.

Modules, by source file:

| module | file(s) | models |
|---|---|---|
| `Js` | `js.dfy` | the JavaScript built-ins the code relies on: `trim`, `toLowerCase`, `includes`, `<` on strings, `slice`, `Math.ceil` of a quotient, `filter`/`find`/`findIndex`, number to string |
| `ApiTypes` | `api_types.dfy` | `Post`, the request bodies, the `{success, data}` / `{success, error}` results, the `err instanceof Error ? err : new Error(msg)` wrapping |
| `PostSort` | `post_sort.dfy` | the comparator both composables give to `Array.prototype.sort`, and a stable sort (section 23.1.3.30 of ECMA-262 requires stability), proved sorted, a permutation and stable |
| `PostList` | `post_list.dfy` | find by id, filter by user, replace-first-by-id, remove-all-by-id, splice-at |
| `Pagination` | `pagination.dfy` | page count, page bounds and the page slice |
| `CrudOperations` | `crud_operations.dfy` | `useCrudWithArrayOperations`: the four-stage view, and a class with the composable's nine state fields, its server calls, the watcher rules and the clear helpers |
| `ArrayOperations` | `array_operations.dfy` | `useArrayOperations`: the queries as functions of a class's state, and the edits as methods |
| `HttpPosts` | `http_posts.dfy` | `useHttpPosts` as a class |
| `EmailPattern` | `email_pattern.dfy` | `EMAIL_REGEX`: the language it denotes, a scanner, and a proof that the two accept the same strings |
| `ContactForm` | `contact_form.dfy` | `useContactForm`: the rules as functions; the form state and its operations as a class |
| `ErrorHandling` | `error_handling.dfy` | `useErrorHandling`: the ordered status decision as a function, and the early-returning method that stores its result |
| `PostLookup` | `post_lookup.dfy` | `usePosts`: `getPostById` and `getPostsByUserId` |

The derived values `filteredAndSortedPosts`, `totalPages`, `startIndex`, `endIndex` and `paginatedPosts` are the class functions `FilteredAndSortedPosts`, `TotalPages`, `StartIndex`, `EndIndex` and `PaginatedPosts`. Each watcher is folded into the setter of the value it watches. It fires only when the value actually changes.

## Behaviour worth knowing

- **The page count of an empty view.** `totalPages` is `Math.ceil(length / itemsPerPage)`, which is 0 for an empty view (`useCrudWithArrayOperations.ts:171-173`). Only the page-size watcher substitutes 1 (`:217`). `Pagination.PageCount` states `r == 0 <==> length == 0`.
- **The back-step after a delete.** The page steps back only when the whole filtered view is empty (`:110`). So deleting the one post on page 2 of 11 posts, 10 to a page, leaves page 2 selected and empty: the view still holds 10 posts (`CrudOperations.DeleteOnLastPageKeepsEmptyPage`).
- **A filter set to the value it already has.** The watchers reset the page only when a watched value changes (`:221-224`), so writing back the current value leaves the page as it is (`CrudWithArrayOperations.SetFilterUserId`).
- **Where a new post appears.** A created post is prepended to the list (`:59`). The view always sorts, so the post's place in the view depends on the sort key and direction (`CrudOperations.FilteredAndSorted`).

## Model

| member | source | states |
|---|---|---|
| Js.TrimStartSpec | composables/crud-operations/p1/useCrudWithArrayOperations.ts:130 | the result is the longest suffix that does not start with white space; everything dropped is white space |
| Js.TrimEndSpec | composables/crud-operations/p1/useCrudWithArrayOperations.ts:130 | the result is the longest prefix that does not end with white space; everything dropped is white space |
| Js.TrimEmptyIffBlank | composables/crud-operations/p1/useCrudWithArrayOperations.ts:130 | `trim()` is empty exactly when every character is white space, so the search test `searchQuery.trim()` is falsy exactly for a blank query |
| Js.TrimSpec | composables/crud-operations/p1/useCrudWithArrayOperations.ts:130 | `trim()` leaves the run between the leading and the trailing white space: all that is dropped on either side is white space, and the run neither starts nor ends with white space |
| Js.ToLowerCase | composables/crud-operations/p1/useCrudWithArrayOperations.ts:131-132 | the length is kept and each character is lower-cased in place (A-Z to a-z) |
| Js.Includes | composables/crud-operations/p1/useCrudWithArrayOperations.ts:132 | `hay.includes(needle)` holds exactly when `needle` occurs in `hay` at some position |
| Js.StringLessIrreflexive | composables/crud-operations/p1/useCrudWithArrayOperations.ts:156 | no title is less than itself |
| Js.StringLessTransitive | composables/crud-operations/p1/useCrudWithArrayOperations.ts:156-161 | `<` on titles is transitive |
| Js.StringLessTotal | composables/crud-operations/p1/useCrudWithArrayOperations.ts:156-162 | of two different titles, one is less than the other |
| Js.SliceIndex | composables/crud-operations/p1/useCrudWithArrayOperations.ts:184 | a `slice` argument that is not negative is clamped to the length; a negative one counts back from the end, and is clamped at 0 |
| Js.Slice | composables/array-operations/p1/useArrayOperations.ts:93 | the result is the run of the input from `start` on, with length `min(end, len) - start`; it is empty when `start` is past the end, when `end` is 0, or when `end <= start` and both are negative, or both are not |
| Js.CeilDiv | composables/crud-operations/p1/useCrudWithArrayOperations.ts:172 | `Math.ceil(n / d)` is the least number of blocks of `d` that cover `n`: `n <= r*d < n + d`, and it is 0 only for `n == 0` |
| Js.FilterSpec | composables/crud-operations/p1/useCrudWithArrayOperations.ts:132 | `filter` keeps exactly the elements that pass, each as often as in the input, in input order |
| Js.Filter | composables/crud-operations/p1/useCrudWithArrayOperations.ts:132 | `filter` never returns more elements than it is given |
| Js.FindIndex | composables/crud-operations/p1/useCrudWithArrayOperations.ts:83 | the first position whose element passes the test; None (the -1) exactly when no element passes |
| Js.Find | composables/array-operations/p1/useArrayOperations.ts:54 | the element at the first passing position; None exactly when no element passes |
| Js.NatToString | composables/async-await/p1/useErrorHandling.ts:38 | a whole number is written as decimal digits, with no leading zero, that denote it |
| Js.IntToString | composables/async-await/p1/useErrorHandling.ts:38 | an integer inside a template literal: a '-' exactly for a negative one, then the digits of its absolute value |
| PostSort.KeyLessTrichotomy | composables/crud-operations/p1/useCrudWithArrayOperations.ts:156-162 | for every key, two posts either have the same key or exactly one of them is less |
| PostSort.CompareMeaning | composables/crud-operations/p1/useCrudWithArrayOperations.ts:141-163 | the comparator returns 0 exactly for equal keys, is at most 0 exactly when the first post may come first in the chosen direction, and is antisymmetric |
| PostSort.InOrderTransitive | composables/crud-operations/p1/useCrudWithArrayOperations.ts:141-163 | "may come before" in the chosen direction is transitive |
| PostSort.InsertSorted | composables/crud-operations/p1/useCrudWithArrayOperations.ts:141 | inserting one post into a sorted list leaves it sorted |
| PostSort.InsertKeyClass | composables/crud-operations/p1/useCrudWithArrayOperations.ts:141 | insertion keeps the new post in front of the posts whose key equals its own |
| PostSort.Sort | composables/crud-operations/p1/useCrudWithArrayOperations.ts:141 | the sort returns a permutation of its input |
| PostSort.SortSortedAndStable | composables/crud-operations/p1/useCrudWithArrayOperations.ts:141-163 | the sort's result is ordered by the key in the chosen direction, and posts with equal keys keep their input order |
| PostList.IndexOfId | composables/crud-operations/p1/useCrudWithArrayOperations.ts:83 | the first index whose post has the id; None exactly when no post has it |
| PostList.FindById | composables/array-operations/p1/useArrayOperations.ts:54 | the first post with the id; None exactly when no post has it |
| PostList.PostsOfUser | composables/array-operations/p1/useArrayOperations.ts:37 | exactly the posts of that user, each as often as in the list, in list order |
| PostList.ReplaceFirstById | composables/crud-operations/p1/useCrudWithArrayOperations.ts:83-86 | the length is kept; only the first post with the id is replaced by the given data; nothing changes when no post has the id |
| PostList.ReplaceBySameIsIdentity | composables/crud-operations/p1/useCrudWithArrayOperations.ts:83-86 | an update whose server data equals the stored post leaves the list as it was |
| PostList.RemoveById | composables/crud-operations/p1/useCrudWithArrayOperations.ts:108 | every post with the id is gone; every other post keeps its multiplicity and its order |
| PostList.RemoveAt | composables/array-operations/p1/useArrayOperations.ts:134 | `splice(i, 1)` drops the element at `i`, keeps the others in order, and shortens the list by one |
| PostList.RemoveByIdIsRemoveAt | composables/array-operations/p1/useArrayOperations.ts:132-134 | when ids are unique, removing every post with an id is the same as splicing out the first one |
| Pagination.PageCount | composables/crud-operations/p1/useCrudWithArrayOperations.ts:171-173 | `totalPages` is the least number of pages that hold the view, and it is 0 exactly for an empty view |
| Pagination.Paginate | composables/crud-operations/p1/useCrudWithArrayOperations.ts:175-185 | from page 1 on: at most `itemsPerPage` posts; the run of the view from `startIndex`, of length `endIndex - startIndex`; empty when `startIndex` is past the end |
| Pagination.PageNonEmptyIffInRange | composables/crud-operations/p1/useCrudWithArrayOperations.ts:171-185 | a page from 1 on holds posts exactly when it is at most `totalPages` |
| Pagination.EveryPostHasAPage | composables/crud-operations/p1/useCrudWithArrayOperations.ts:171-185 | the post at index `i` of the view is found on page `i / itemsPerPage + 1`, which is in range, at position `i % itemsPerPage` |
| Pagination.PageCountAtMostLength | composables/crud-operations/p1/useCrudWithArrayOperations.ts:171-173 | there are never more pages than posts in the view |
| Pagination.PageStartInView | composables/crud-operations/p1/useCrudWithArrayOperations.ts:175-177 | from page 1 on, `startIndex` is not negative, and it lies inside the view exactly when the page is at most `totalPages` |
| CrudOperations.SearchStageSpec | composables/crud-operations/p1/useCrudWithArrayOperations.ts:129-133 | a blank query passes the list through; otherwise exactly the posts whose lower-cased title contains the lower-cased query, with their multiplicities, in list order |
| CrudOperations.SearchUsesUntrimmedQuery | composables/crud-operations/p1/useCrudWithArrayOperations.ts:130-132 | the query is matched untrimmed: a post found by a word is not found by the same word typed after a blank |
| CrudOperations.FilterStageSpec | composables/crud-operations/p1/useCrudWithArrayOperations.ts:135-138 | a null filter passes the list through; otherwise exactly the posts of that user, with their multiplicities, in list order |
| CrudOperations.FilteredAndSorted | composables/crud-operations/p1/useCrudWithArrayOperations.ts:126-166 | the view is a permutation of the searched and filtered posts |
| CrudOperations.FilteredAndSortedSpec | composables/crud-operations/p1/useCrudWithArrayOperations.ts:140-163 | the view is sorted by `sortBy` in `sortOrder`, and posts with equal keys keep their list order |
| CrudOperations.ViewMembership | composables/crud-operations/p1/useCrudWithArrayOperations.ts:126-138 | a post is in the view exactly when it is in the list, matches the query (or the query is blank), and belongs to the filtered user (or there is no filter) |
| CrudOperations.DeleteOnLastPageKeepsEmptyPage | composables/crud-operations/p1/useCrudWithArrayOperations.ts:108-112 | with 11 posts, 10 to a page, deleting the post of page 2 leaves a non-empty view of one page, so the page stays 2 and shows nothing |
| CrudOperations.CrudWithArrayOperations.constructor | composables/crud-operations/p1/useCrudWithArrayOperations.ts:15-25 | the initial state: no posts, not loading, no error, empty query, no filter, by id ascending, page 1, 10 to a page |
| CrudOperations.CrudWithArrayOperations.FilteredAndSortedPosts | composables/crud-operations/p1/useCrudWithArrayOperations.ts:126-166 | the view, drawn from a copy of the list, is never longer than the list |
| CrudOperations.CrudWithArrayOperations.TotalPages | composables/crud-operations/p1/useCrudWithArrayOperations.ts:171-173 | `totalPages` is 0 exactly for an empty view, and never more than the number of posts in the view |
| CrudOperations.CrudWithArrayOperations.StartIndex | composables/crud-operations/p1/useCrudWithArrayOperations.ts:175-177 | from page 1 on, `startIndex` is not negative, and it is inside the view exactly when the page is at most `totalPages` |
| CrudOperations.CrudWithArrayOperations.EndIndex | composables/crud-operations/p1/useCrudWithArrayOperations.ts:179-181 | `endIndex` never passes the end of the view; for a page whose start is inside the view, it lies after `startIndex` and at most one page size beyond it |
| CrudOperations.CrudWithArrayOperations.PaginatedPosts | composables/crud-operations/p1/useCrudWithArrayOperations.ts:175-185 | from page 1 on: at most `itemsPerPage` posts, the run of the view from `startIndex`, and empty exactly when the page is past `totalPages` |
| CrudOperations.CrudWithArrayOperations.FetchPosts | composables/crud-operations/p1/useCrudWithArrayOperations.ts:30-45 | on success the list is the reply and the page is 1; on failure the list and the page are kept and the error is stored and returned; never left loading; an error is stored exactly when failure is returned; the view parameters are kept |
| CrudOperations.CrudWithArrayOperations.CreatePost | composables/crud-operations/p1/useCrudWithArrayOperations.ts:50-69 | on success the server's post is prepended and the page is 1; on failure the list and the page are kept and the error is stored; never left loading |
| CrudOperations.CrudWithArrayOperations.UpdatePost | composables/crud-operations/p1/useCrudWithArrayOperations.ts:74-95 | on success only the first post with the request's id becomes the server's post, and success is reported even when there is none; on failure the list is kept; the page never moves |
| CrudOperations.CrudWithArrayOperations.DeletePost | composables/crud-operations/p1/useCrudWithArrayOperations.ts:100-121 | on success every post with the id is removed, and the page steps back by one exactly when the whole filtered view is then empty and the page was past 1; on failure nothing but the error changes |
| CrudOperations.CrudWithArrayOperations.SetSearchQuery | composables/crud-operations/p1/useCrudWithArrayOperations.ts:221-224 | the query is written; the page becomes 1 exactly when the query changed |
| CrudOperations.CrudWithArrayOperations.SetFilterUserId | composables/crud-operations/p1/useCrudWithArrayOperations.ts:221-224 | the filter is written; the page becomes 1 exactly when the filter changed |
| CrudOperations.CrudWithArrayOperations.SetItemsPerPage | composables/crud-operations/p1/useCrudWithArrayOperations.ts:214-219 | the size is written; when it changed and the page is past the new `totalPages`, the page becomes `totalPages`, or 1 for an empty view; the page is then never past the last page |
| CrudOperations.CrudWithArrayOperations.SetSortBy | composables/crud-operations/p1/useCrudWithArrayOperations.ts:171-173 | the key is written; nothing corrects the page, and `totalPages` is unchanged |
| CrudOperations.CrudWithArrayOperations.SetSortOrder | composables/crud-operations/p1/useCrudWithArrayOperations.ts:171-173 | the direction is written; nothing corrects the page, and `totalPages` is unchanged |
| CrudOperations.CrudWithArrayOperations.SetCurrentPage | composables/crud-operations/p1/useCrudWithArrayOperations.ts:24 | the page is written as given, and nothing else changes |
| CrudOperations.CrudWithArrayOperations.ClearSearch | composables/crud-operations/p1/useCrudWithArrayOperations.ts:190-193 | the query is empty and the page is 1; the other parameters are kept |
| CrudOperations.CrudWithArrayOperations.ClearFilter | composables/crud-operations/p1/useCrudWithArrayOperations.ts:198-201 | there is no filter and the page is 1; the other parameters are kept |
| CrudOperations.CrudWithArrayOperations.ClearAllFilters | composables/crud-operations/p1/useCrudWithArrayOperations.ts:206-212 | the query, filter, key, direction and page are back to their initial values, the size is kept, the view is the whole list sorted by id ascending, and the page shown is its first page |
| ArrayOperations.CountFold | composables/array-operations/p1/useArrayOperations.ts:41-47 | no count of the accumulator goes down, and every user of the list has a count afterwards |
| ArrayOperations.CountFoldKeys | composables/array-operations/p1/useArrayOperations.ts:41-47 | the fold's tally has keys for exactly the accumulator's and the list's userIds |
| ArrayOperations.CountFoldCounts | composables/array-operations/p1/useArrayOperations.ts:41-47 | each tally entry is the accumulator's value plus that user's number of posts |
| ArrayOperations.CountFoldSum | composables/array-operations/p1/useArrayOperations.ts:41-47 | the fold raises the sum of the tally by the length of the list |
| ArrayOperations.CountOfPresentUser | composables/array-operations/p1/useArrayOperations.ts:41-47 | a userId occurs in the list exactly when it has at least one post |
| ArrayOperations.SumOfCountsRemove | composables/array-operations/p1/useArrayOperations.ts:44 | the sum of a tally splits at any of its keys |
| ArrayOperations.SumOfCountsBump | composables/array-operations/p1/useArrayOperations.ts:44 | adding one post to a user's entry (0 when the user is new) raises the sum of the tally by one |
| ArrayOperations.MaxId | composables/array-operations/p1/useArrayOperations.ts:105 | `Math.max` of the ids bounds every id and is the id of some post |
| ArrayOperations.NextId | composables/array-operations/p1/useArrayOperations.ts:105-106 | the new id is 1 for an empty list, otherwise the largest id plus 1, and it is above every id present |
| ArrayOperations.TotalPagesOf | composables/array-operations/p1/useArrayOperations.ts:96-98 | for a size from 1 on, the page count; for size 0, NaN on an empty list and Infinity otherwise; for a negative size, the ceiling of a negative quotient, which is a whole number at most 0 |
| ArrayOperations.ArrayOperations.constructor | composables/array-operations/p1/useArrayOperations.ts:9-10 | no posts, not loading |
| ArrayOperations.ArrayOperations.FetchPosts | composables/array-operations/p1/useArrayOperations.ts:12-22 | a reply replaces the list; a failure keeps it; never left loading |
| ArrayOperations.ArrayOperations.GetFilteredPosts | composables/array-operations/p1/useArrayOperations.ts:33-38 | for null, the list itself; otherwise exactly the posts of that user, with their multiplicities, in list order |
| ArrayOperations.ArrayOperations.GetUserPostCounts | composables/array-operations/p1/useArrayOperations.ts:41-47 | one entry per userId that occurs, none for any other; each entry is that user's number of posts, at least 1; the entries sum to the length of the list |
| ArrayOperations.ArrayOperations.FindPostById | composables/array-operations/p1/useArrayOperations.ts:50-55 | null for a null id; otherwise the first post with the id, or null when there is none |
| ArrayOperations.ArrayOperations.GetSortedPosts | composables/array-operations/p1/useArrayOperations.ts:58-87 | a permutation of the list, sorted by the key in the direction, with equal keys in list order; the list itself is only read |
| ArrayOperations.ArrayOperations.GetPaginatedPosts | composables/array-operations/p1/useArrayOperations.ts:90-94 | for a page and size from 1 on, the page of the whole list; nothing for page 0 or size 0; on page 1 with a negative size, the list minus that many posts at its end |
| ArrayOperations.ArrayOperations.GetTotalPages | composables/array-operations/p1/useArrayOperations.ts:96-98 | the page count of the whole list for a size from 1 on; NaN or Infinity for size 0 |
| ArrayOperations.ArrayOperations.AddPost | composables/array-operations/p1/useArrayOperations.ts:101-114 | refused, changing nothing, exactly for an empty title or userId 0; otherwise the post `{next id, title, '', userId}` is appended, and its id differs from every id already present |
| ArrayOperations.ArrayOperations.UpdatePost | composables/array-operations/p1/useArrayOperations.ts:116-126 | true exactly for a non-zero id, a non-empty title and a post with that id; then only the title of the first such post changes; otherwise nothing changes |
| ArrayOperations.ArrayOperations.DeletePostById | composables/array-operations/p1/useArrayOperations.ts:128-138 | true exactly for a non-zero id that some post has; then the first such post is spliced out and the list is one shorter; otherwise nothing changes |
| ArrayOperations.RetitleThenFind | composables/array-operations/p1/useArrayOperations.ts:116-126 | after a retitle, finding the id gives the same post with the new title |
| ArrayOperations.AddThenFind | composables/array-operations/p1/useArrayOperations.ts:101-114 | after an add, finding the new id gives the added post |
| HttpPosts.HttpPosts.constructor | composables/crud/p1/useHttpPosts.ts:14-16 | no posts, not loading, no error |
| HttpPosts.HttpPosts.FetchPosts | composables/crud/p1/useHttpPosts.ts:21-35 | on success the list is the reply; on failure it is kept and the error is stored and returned; never left loading; an error is stored exactly when failure is returned |
| HttpPosts.HttpPosts.FetchPostById | composables/crud/p1/useHttpPosts.ts:40-53 | the list is never changed; the reply is returned, or the error with the id in its fallback message is stored and returned; never left loading |
| HttpPosts.HttpPosts.CreatePost | composables/crud/p1/useHttpPosts.ts:58-76 | on success the list is the server's post followed by the old list; on failure it is kept and the error is stored |
| HttpPosts.HttpPosts.UpdatePost | composables/crud/p1/useHttpPosts.ts:81-102 | on success only the first post with the request's id becomes the server's post, and success is reported even when there is none; on failure the list is kept and the error is stored |
| HttpPosts.HttpPosts.DeletePost | composables/crud/p1/useHttpPosts.ts:107-124 | on success every post with the id is removed, the others keep their order; on failure the list is kept and the error is stored |
| PostLookup.GetPostById | composables/async-await/p1/usePosts.ts:13-15 | undefined when nothing is loaded; otherwise the first post with the id, an element of the list, or undefined exactly when no post has the id |
| PostLookup.GetPostsByUserId | composables/async-await/p1/usePosts.ts:18-20 | [] when nothing is loaded; otherwise exactly the posts of that user, each an element of the list, with their multiplicities, in list order |
| ErrorHandling.ClassifyException | composables/async-await/p1/useErrorHandling.ts:50-63 | a failure with no data; NETWORK_ERROR exactly for a TypeError whose message contains 'fetch'; otherwise UNKNOWN_ERROR with the error's message, or the fixed message for a thrown non-Error |
| ErrorHandling.ClassifyResponse | composables/async-await/p1/useErrorHandling.ts:17-49 | success exactly for a status from 200 to 299 whose body parses, carrying the post; a status that is not ok is the result's status; 404 first, then 500 and up, then `HTTP エラー: <status>`; a body that does not parse is classified as a thrown value |
| ErrorHandling.Classify | composables/async-await/p1/useErrorHandling.ts:17-63 | the stored result is either a success with the message of success, the post and no status, or a failure with a status and no post |
| ErrorHandling.ClassifySuccessIffOk | composables/async-await/p1/useErrorHandling.ts:17-63 | the result succeeds exactly for an ok answer whose body parses, with that post as its data; it has a status exactly when it fails |
| ErrorHandling.NumericStatusIsTheResponseStatus | composables/async-await/p1/useErrorHandling.ts:17-42 | a numeric status in the result is the status of an answered request that was not ok |
| ErrorHandling.HttpErrorMessageNamesStatus | composables/async-await/p1/useErrorHandling.ts:35-42 | the generic message is the prefix followed by decimal digits that denote the status |
| ErrorHandling.ErrorHandling.constructor | composables/async-await/p1/useErrorHandling.ts:5-6 | not loading, no result |
| ErrorHandling.ErrorHandling.FetchWithDetailedErrorHandling | composables/async-await/p1/useErrorHandling.ts:8-68 | through every early return and the catch, the method ends not loading, holding the classification of the outcome |
| EmailPattern.LocalRun | composables/form-handling/p1/useContactForm.ts:13 | the length of the longest prefix of local-part characters |
| EmailPattern.LabelRun | composables/form-handling/p1/useContactForm.ts:13 | the length of the longest prefix of label characters |
| EmailPattern.ScanLabelsIsLabels | composables/form-handling/p1/useContactForm.ts:13 | the scanner accepts exactly one or more labels joined by single dots |
| EmailPattern.ScanDomainIsDomain | composables/form-handling/p1/useContactForm.ts:13 | the scanner accepts exactly a label, a dot and one or more further labels |
| EmailPattern.IsEmailIsPattern | composables/form-handling/p1/useContactForm.ts:13 | `EMAIL_REGEX.test` as scanned holds exactly for the strings of the pattern's language: a local part, one '@', a dotted domain of at least two labels |
| EmailPattern.DottedAddressMatches | composables/form-handling/p1/useContactForm.ts:13 | `a.b@c.jp` matches |
| EmailPattern.BareHostFails | composables/form-handling/p1/useContactForm.ts:13 | `a@host` does not match: the domain needs a dot |
| EmailPattern.EmptyLabelFails | composables/form-handling/p1/useContactForm.ts:13 | `a@b..jp` does not match: a label cannot be empty |
| EmailPattern.EmptyLocalPartFails | composables/form-handling/p1/useContactForm.ts:13 | `@c.jp` does not match: the local part cannot be empty |
| EmailPattern.SecondAtFails | composables/form-handling/p1/useContactForm.ts:13 | `a@@c.jp` does not match: '@' is not a label character |
| ContactForm.WithValue | composables/form-handling/p1/useContactForm.ts:77 | the written key holds the new value and every other key is unchanged |
| ContactForm.ValidateField | composables/form-handling/p1/useContactForm.ts:28-58 | name fails exactly when falsy or shorter than 2 once trimmed; email exactly when falsy or not matching the pattern; topic and agree exactly when falsy; message exactly when falsy or shorter than 10 once trimmed; a failure carries that field's non-empty message |
| ContactForm.BlankTextFails | composables/form-handling/p1/useContactForm.ts:30-49 | a name or message of blanks fails whatever its length |
| ContactForm.FieldError | composables/form-handling/p1/useContactForm.ts:135-137 | a message exactly when some error is for the field, and then the message of the first such error |
| ContactForm.WithFieldError | composables/form-handling/p1/useContactForm.ts:21-26 | the entries afterwards are exactly the old entries of other fields together with, for a non-empty message, the new entry |
| ContactForm.WithFieldErrorSetsField | composables/form-handling/p1/useContactForm.ts:21-26 | after `setFieldError` the field reports the message given, or nothing for null or ''; it has at most one entry, and that entry is last |
| ContactForm.WithFieldErrorKeepsOthers | composables/form-handling/p1/useContactForm.ts:21-26 | every other field's entries, and what it reports, are as before, in the same order |
| ContactForm.ErrorsOfSpec | composables/form-handling/p1/useContactForm.ts:60-74 | the collected errors hold an entry exactly for each failing listed field, with its rule's message; there are none exactly when every listed field passes |
| ContactForm.FormErrors | composables/form-handling/p1/useContactForm.ts:60-74 | the errors hold exactly the entries of failing fields, each with its rule's message, and are empty exactly when every field passes |
| ContactForm.FormErrorsPerField | composables/form-handling/p1/useContactForm.ts:60-74 | after validation each field reports exactly its rule's outcome |
| ContactForm.FormErrorsOrdered | composables/form-handling/p1/useContactForm.ts:60-74 | the errors follow the key order name, email, topic, message, agree, at most one per field |
| ContactForm.ContactFormState.constructor | composables/form-handling/p1/useContactForm.ts:16-19 | the initial form, no errors, not submitting, no result |
| ContactForm.ContactFormState.SetFieldError | composables/form-handling/p1/useContactForm.ts:21-26 | the field's old entries are dropped, and an entry is appended for a non-empty message; the form and the flags are kept |
| ContactForm.ContactFormState.ValidateForm | composables/form-handling/p1/useContactForm.ts:60-74 | the errors are rebuilt from empty, field by field, as the specified collection of failing fields; the result is true exactly when there are none |
| ContactForm.ContactFormState.UpdateField | composables/form-handling/p1/useContactForm.ts:76-80 | the value is written, and the field's entry is replaced by the outcome of its rule on the new value |
| ContactForm.ContactFormState.GetFieldError | composables/form-handling/p1/useContactForm.ts:135-137 | the message of the first error for the field, or null when there is none |
| ContactForm.ContactFormState.ResetForm | composables/form-handling/p1/useContactForm.ts:82-86 | the initial form, no errors, no result |
| ContactForm.ContactFormState.SubmitForm | composables/form-handling/p1/useContactForm.ts:88-133 | an invalid form is refused with its errors listed, before the submitting flag is touched; a sent form is returned as the payload, then reset, which also clears the stored result; a failed send keeps the form; both of the last two end not submitting |
| ContactForm.UpdateFieldThenGetFieldError | composables/form-handling/p1/useContactForm.ts:76-80 | after `updateField`, `getFieldError` of that field is its rule's outcome on the new value, and every other field reports what it did before |

## Left out

- Network transport is not modelled: `$fetch`, `fetch`, `useFetch`, base URLs and JSON decoding. Each call is an input to its operation, its decoded value or its thrown value. The post id of `fetchWithDetailedErrorHandling` only selects a URL, with a default of 99999. The ids of `fetchPostById` and `deletePost` select a URL too, and are also used locally: the first puts its id into the fallback error message, and the second removes the posts with that id from the list. The model does both.
- Concurrency is not modelled: operations in flight at the same time race on the list and the flags. Each operation is one atomic step.
- Vue and Nuxt reactivity is not modelled: `ref`, `reactive`, `computed`, `readonly`, `watch` scheduling, and `useState` keyed state shared between callers. State is class fields, and derived values are functions of them. A watcher runs inside the setter of the value it watches.
- `console.error` logging is not modelled, and neither is the submit timestamp (`new Date().toISOString()`). `SubmitResult` has no timestamp field.
- `mappedPosts` (`useArrayOperations.ts:25-30`) is not modelled: it uses `toUpperCase` for display only and nothing else reads it.
- `composables/async-await/p1/useParallelData.ts`, `useSequentialData.ts` and `useUser.ts` are not part of this model: they hold only I/O, timing and logging. Neither are the p2 variants `composables/crud-operations/p2/useCrudWithArrayOperations.ts` and `composables/async-await/p2/usePosts.ts`.
- Js.ToLowerCase: maps only the ASCII letters A-Z, not the full Unicode case mapping.
- Js.StringLess: orders titles by Dafny characters (code points), not by UTF-16 code units. The two orders differ only for characters outside the Basic Multilingual Plane.
- Js.TrimStartSpec: `trim()` lengths are counted in characters, not UTF-16 code units (the same for Js.TrimEndSpec, and for the length tests of `validateField`).
- Numbers are whole numbers (`int`). Fractional ids, pages and page sizes are not modelled, and neither are NaN arguments or the floating-point limits of JavaScript numbers.
- CrudOperations.CrudWithArrayOperations.SetItemsPerPage: requires a size of at least 1, and the class keeps `itemsPerPage >= 1` as its invariant. The composable accepts any number; 0 would make `totalPages` Infinity or NaN. The toolkit's `getTotalPages`, which takes the size as an argument, is modelled for every whole size (`ArrayOperations.TotalPagesOf`).
- ArrayOperations.ArrayOperations.UpdatePost: writes a new post value into the list. The code mutates the shared post object in place, so any other holder of that object sees the new title too; this aliasing is not modelled.
- ArrayOperations.MaxId: the limit on the number of arguments to `Math.max(...ids)` is not modelled.
- ArrayOperations.ArrayOperations.GetUserPostCounts: returns a map from userId to count. A JavaScript `Record` has string keys and an enumeration order, and neither is modelled.
- ContactForm.ValidateField: the `default` branch is not modelled. The `Field` type lists the five keys, and no other key can reach the switch.
- ErrorHandling.ErrorHandlingResult: the success object has no `status` property, so `status` is optional in the model. The declared type lists it as required.
- ErrorHandling.ErrorHandling.FetchWithDetailedErrorHandling: the response's status is taken as an arbitrary integer. The range the Fetch standard guarantees is not assumed.

