/** Ordering posts by id, title or userId, ascending or descending, with the
    comparator both composables pass to Array.prototype.sort, and a stable
    sort, as Array.prototype.sort is required to be (section 23.1.3.30 of
    ECMA-262). */
module PostSort {
  import opened Js
  import opened ApiTypes

  datatype SortKey = ById | ByTitle | ByUserId
  datatype SortOrder = Asc | Desc

  /** `aValue < bValue` for the chosen key: numbers numerically, titles by
      the string relational operator. */
  predicate KeyLess(a: Post, b: Post, key: SortKey) {
    match key
    case ById => a.id < b.id
    case ByTitle => StringLess(a.title, b.title)
    case ByUserId => a.userId < b.userId
  }

  /** The two posts carry the same value of the chosen key. */
  predicate SameKey(a: Post, b: Post, key: SortKey) {
    match key
    case ById => a.id == b.id
    case ByTitle => a.title == b.title
    case ByUserId => a.userId == b.userId
  }

  /** The comparator: negative when `a` goes first, positive when `b` goes
      first, 0 when neither is less than the other. */
  function Compare(a: Post, b: Post, key: SortKey, order: SortOrder): int {
    if KeyLess(a, b, key) then (if order == Asc then -1 else 1)
    else if KeyLess(b, a, key) then (if order == Asc then 1 else -1)
    else 0
  }

  /** `a` may stand before `b` in a list sorted by `key` and `order`. */
  predicate InOrder(a: Post, b: Post, key: SortKey, order: SortOrder) {
    if order == Asc then !KeyLess(b, a, key) else !KeyLess(a, b, key)
  }

  ghost predicate Sorted(s: seq<Post>, key: SortKey, order: SortOrder) {
    forall i, j :: 0 <= i < j < |s| ==> InOrder(s[i], s[j], key, order)
  }

  /** The posts of `s` whose key equals that of `p`, in their order in `s`. */
  ghost function KeyClass(s: seq<Post>, p: Post, key: SortKey): seq<Post> {
    if s == [] then [] else (if SameKey(s[0], p, key) then [s[0]] else []) + KeyClass(s[1..], p, key)
  }

  /** `r` keeps, for every key value, the relative order its posts have in `s`. */
  ghost predicate Stable(s: seq<Post>, r: seq<Post>, key: SortKey) {
    forall p :: KeyClass(r, p, key) == KeyClass(s, p, key)
  }

  //////////////////////////////////////////////////////////////////////
  // The keys are totally preordered and the comparator agrees with it
  //////////////////////////////////////////////////////////////////////

  lemma KeyLessTrichotomy(a: Post, b: Post, key: SortKey)
    ensures SameKey(a, b, key) <==> !KeyLess(a, b, key) && !KeyLess(b, a, key)
    ensures !(KeyLess(a, b, key) && KeyLess(b, a, key))
  {
    if key == ByTitle {
      StringLessTotal(a.title, b.title);
      StringLessIrreflexive(a.title);
      if StringLess(a.title, b.title) && StringLess(b.title, a.title) {
        StringLessTransitive(a.title, b.title, a.title);
      }
    }
  }

  lemma KeyLessTransitive(a: Post, b: Post, c: Post, key: SortKey)
    requires KeyLess(a, b, key) && KeyLess(b, c, key)
    ensures KeyLess(a, c, key)
  {
    if key == ByTitle {
      StringLessTransitive(a.title, b.title, c.title);
    }
  }

  lemma SameKeyLess(a: Post, b: Post, c: Post, key: SortKey)
    requires SameKey(a, b, key)
    ensures KeyLess(a, c, key) == KeyLess(b, c, key)
    ensures KeyLess(c, a, key) == KeyLess(c, b, key)
  {
  }

  /** What the comparator's sign means, in terms of the keys. */
  lemma CompareMeaning(a: Post, b: Post, key: SortKey, order: SortOrder)
    ensures Compare(a, b, key, order) == 0 <==> SameKey(a, b, key)
    ensures Compare(a, b, key, order) <= 0 <==> InOrder(a, b, key, order)
    ensures Compare(a, b, key, order) == -Compare(b, a, key, order)
  {
    KeyLessTrichotomy(a, b, key);
  }

  /** "May stand before" is transitive. */
  lemma {:induction false} InOrderTransitive(a: Post, b: Post, c: Post, key: SortKey, order: SortOrder)
    requires InOrder(a, b, key, order) && InOrder(b, c, key, order)
    ensures InOrder(a, c, key, order)
  {
    KeyLessTrichotomy(a, b, key);
    KeyLessTrichotomy(b, c, key);
    KeyLessTrichotomy(a, c, key);
    if order == Asc {
      if KeyLess(c, a, key) {
        if KeyLess(c, b, key) {
          assert false;
        } else if SameKey(b, c, key) {
          SameKeyLess(b, c, a, key);
        } else {
          KeyLessTransitive(b, c, a, key);
        }
      }
    } else {
      if KeyLess(a, c, key) {
        if KeyLess(a, b, key) {
          assert false;
        } else if SameKey(a, b, key) {
          SameKeyLess(a, b, c, key);
        } else {
          KeyLessTransitive(b, a, c, key);
        }
      }
    }
  }

  //////////////////////////////////////////////////////////////////////
  // Insertion sort driven by the comparator
  //////////////////////////////////////////////////////////////////////

  /** Puts `x` before the first element it does not compare above. */
  function Insert(x: Post, t: seq<Post>, key: SortKey, order: SortOrder): seq<Post> {
    if t == [] || Compare(x, t[0], key, order) <= 0 then [x] + t
    else [t[0]] + Insert(x, t[1..], key, order)
  }

  lemma {:induction false} InsertPermutes(x: Post, t: seq<Post>, key: SortKey, order: SortOrder)
    ensures multiset(Insert(x, t, key, order)) == multiset([x] + t)
  {
    if t != [] && Compare(x, t[0], key, order) > 0 {
      InsertPermutes(x, t[1..], key, order);
      assert t == [t[0]] + t[1..];
    }
  }

  lemma {:induction false} InsertSorted(x: Post, t: seq<Post>, key: SortKey, order: SortOrder)
    requires Sorted(t, key, order)
    ensures Sorted(Insert(x, t, key, order), key, order)
  {
    var r := Insert(x, t, key, order);
    if t == [] {
    } else if Compare(x, t[0], key, order) <= 0 {
      CompareMeaning(x, t[0], key, order);
      forall j | 1 <= j < |r| ensures InOrder(r[0], r[j], key, order) {
        if j > 1 {
          InOrderTransitive(x, t[0], t[j - 1], key, order);
        }
      }
    } else {
      CompareMeaning(x, t[0], key, order);
      CompareMeaning(t[0], x, key, order);
      var rest := Insert(x, t[1..], key, order);
      InsertSorted(x, t[1..], key, order);
      InsertPermutes(x, t[1..], key, order);
      forall j | 0 <= j < |rest| ensures InOrder(t[0], rest[j], key, order) {
        assert rest[j] in multiset([x] + t[1..]);
        if rest[j] != x {
          assert rest[j] in t[1..];
        }
      }
    }
  }

  lemma {:induction false} KeyClassConcat(a: seq<Post>, b: seq<Post>, p: Post, key: SortKey)
    ensures KeyClass(a + b, p, key) == KeyClass(a, p, key) + KeyClass(b, p, key)
  {
    if a == [] {
      assert a + b == b;
    } else {
      assert (a + b)[1..] == a[1..] + b;
      KeyClassConcat(a[1..], b, p, key);
    }
  }

  /** Insertion keeps `x` ahead of the posts whose key equals its own. */
  lemma {:induction false} InsertKeyClass(x: Post, t: seq<Post>, p: Post, key: SortKey, order: SortOrder)
    ensures KeyClass(Insert(x, t, key, order), p, key) == KeyClass([x] + t, p, key)
  {
    if t != [] && Compare(x, t[0], key, order) > 0 {
      var t0, rest := t[0], t[1..];
      CompareMeaning(x, t0, key, order);
      var a, b, c := KeyClass([t0], p, key), KeyClass([x], p, key), KeyClass(rest, p, key);
      assert Insert(x, t, key, order) == [t0] + Insert(x, rest, key, order);
      KeyClassConcat([t0], Insert(x, rest, key, order), p, key);
      InsertKeyClass(x, rest, p, key, order);
      KeyClassConcat([x], rest, p, key);
      assert KeyClass(Insert(x, t, key, order), p, key) == a + (b + c);
      assert t == [t0] + rest;
      KeyClassConcat([t0], rest, p, key);
      KeyClassConcat([x], t, p, key);
      assert KeyClass([x] + t, p, key) == b + (a + c);
      SeparateKeysSeparateClasses(t0, x, p, key);
      SwapBesideEmpty(a, b, c);
    }
  }

  /** Two posts with different keys are never both in one key class. */
  lemma SeparateKeysSeparateClasses(y: Post, z: Post, p: Post, key: SortKey)
    requires !SameKey(y, z, key)
    ensures KeyClass([y], p, key) == [] || KeyClass([z], p, key) == []
  {
    KeyClassSingle(y, p, key);
    KeyClassSingle(z, p, key);
  }

  lemma SwapBesideEmpty(a: seq<Post>, b: seq<Post>, c: seq<Post>)
    requires a == [] || b == []
    ensures a + (b + c) == b + (a + c)
  {
    if a == [] {
      assert a + (b + c) == b + c;
      assert a + c == c;
    } else {
      assert b + (a + c) == a + c;
      assert b + c == c;
    }
  }

  lemma KeyClassSingle(y: Post, p: Post, key: SortKey)
    ensures KeyClass([y], p, key) == if SameKey(y, p, key) then [y] else []
  {
    assert [y][1..] == [];
  }

  /** The sort Array.prototype.sort performs with the comparator, as
      insertion of each element into the sorted rest. */
  function Sort(s: seq<Post>, key: SortKey, order: SortOrder): (r: seq<Post>)
    ensures multiset(r) == multiset(s)
  {
    if s == [] then []
    else
      var rest := Sort(s[1..], key, order);
      InsertPermutes(s[0], rest, key, order);
      assert s == [s[0]] + s[1..];
      Insert(s[0], rest, key, order)
  }

  /** The result of Sort is ordered by the key in the chosen direction and
      keeps the list order of posts with equal keys. */
  lemma {:induction false} SortSortedAndStable(s: seq<Post>, key: SortKey, order: SortOrder)
    ensures Sorted(Sort(s, key, order), key, order)
    ensures Stable(s, Sort(s, key, order), key)
  {
    if s != [] {
      var rest := Sort(s[1..], key, order);
      SortSortedAndStable(s[1..], key, order);
      InsertSorted(s[0], rest, key, order);
      assert s == [s[0]] + s[1..];
      forall p ensures KeyClass(Sort(s, key, order), p, key) == KeyClass(s, p, key) {
        InsertKeyClass(s[0], rest, p, key, order);
        KeyClassConcat([s[0]], rest, p, key);
        KeyClassConcat([s[0]], s[1..], p, key);
      }
    }
  }
}
