/** Expense records and the views the expense page derives from its cached
    list of records on every render: the category list that feeds the
    category filter, the filtered list, its total and the "(Total in ...)" note.
    Amounts are whole paise, so sums are exact. */
module ExpenseViews {

  /** One expense record as the record-keeping service returns it. */
  datatype Expense = Expense(id: int, description: string, amount: int, category: string, date: string)

  /** The catch-all entry: heads the category list and, as a category filter, keeps everything. */
  const All: string := "All"

  /** The empty date filter, which keeps every date. */
  const AnyDate: string := ""

  // ---------------------------------------------------------------------------
  // Category list: "All" followed by the distinct categories, first seen first.
  // ---------------------------------------------------------------------------

  /** The category of every record, in cache order. */
  function Categories(cache: seq<Expense>): (cs: seq<string>)
    ensures |cs| == |cache|
    ensures forall i :: 0 <= i < |cache| ==> cs[i] == cache[i].category
  {
    if cache == [] then [] else [cache[0].category] + Categories(cache[1..])
  }

  /** What an insertion-ordered set built by adding the elements of `s` one
      after the other lists: an element is appended unless already present. */
  function Distinct(s: seq<string>): (r: seq<string>)
    ensures |r| <= |s|
    ensures forall i :: 0 <= i < |r| ==> r[i] in s
  {
    if s == [] then []
    else
      var r := Distinct(s[..|s| - 1]);
      if s[|s| - 1] in r then r else r + [s[|s| - 1]]
  }

  /** The position where `x` first occurs in `s`. */
  function FirstIndex(s: seq<string>, x: string): (k: nat)
    requires x in s
    ensures k < |s| && s[k] == x && x !in s[..k]
  {
    if s[0] == x then 0
    else
      var k := FirstIndex(s[1..], x);
      assert s[..k + 1] == [s[0]] + s[1..][..k];
      k + 1
  }

  predicate SameElements(a: seq<string>, b: seq<string>)
  {
    (forall x :: x in a ==> x in b) && (forall x :: x in b ==> x in a)
  }

  predicate NoDuplicates(r: seq<string>)
  {
    forall i, j :: 0 <= i < j < |r| ==> r[i] != r[j]
  }

  /** Every element of `r` occurs in `s`, and `r` lists them in the order of their first occurrence in `s`. */
  predicate InFirstSeenOrder(r: seq<string>, s: seq<string>)
  {
    && (forall i :: 0 <= i < |r| ==> r[i] in s)
    && (forall i, j :: 0 <= i < j < |r| ==> FirstIndex(s, r[i]) < FirstIndex(s, r[j]))
  }

  /** The category list offered by the category filter. */
  function UniqueCategories(cache: seq<Expense>): (cats: seq<string>)
    ensures |cats| >= 1 && cats[0] == All
  {
    [All] + Distinct(Categories(cache))
  }

  /** Any position satisfying FirstIndex's postcondition is the first index. */
  lemma FirstIndexUnique(s: seq<string>, x: string, k: nat)
    requires k < |s| && s[k] == x && x !in s[..k]
    ensures FirstIndex(s, x) == k
  {
    var m := FirstIndex(s, x);
    assert s[..k + 1][m] == x;
    assert s[..m + 1][k] == x;
  }

  /** Appending an element does not move the first occurrence of anything already present. */
  lemma FirstIndexPrefix(p: seq<string>, y: string, x: string)
    requires x in p
    ensures x in p + [y] && FirstIndex(p + [y], x) == FirstIndex(p, x)
  {
    var k := FirstIndex(p, x);
    assert (p + [y])[..k] == p[..k];
    FirstIndexUnique(p + [y], x, k);
  }

  /** The distinct list holds exactly the elements of `s`, each once, in first-seen order. */
  lemma {:induction false} DistinctSpec(s: seq<string>)
    ensures SameElements(Distinct(s), s)
    ensures NoDuplicates(Distinct(s))
    ensures InFirstSeenOrder(Distinct(s), s)
  {
    if s != [] {
      var p, y := s[..|s| - 1], s[|s| - 1];
      assert s == p + [y];
      DistinctSpec(p);
      var d := Distinct(p);
      forall x | x in p
        ensures FirstIndex(s, x) == FirstIndex(p, x)
      {
        FirstIndexPrefix(p, y, x);
      }
      if y !in d {
        FirstIndexUnique(s, y, |s| - 1);
        assert Distinct(s) == d + [y];
      }
    }
  }

  /** Whether a list of elements of `p` is in first-seen order does not
      change when something is appended to `p`. */
  lemma FirstSeenOrderAppend(r: seq<string>, p: seq<string>, y: string)
    requires forall x :: x in r ==> x in p
    ensures InFirstSeenOrder(r, p + [y]) <==> InFirstSeenOrder(r, p)
  {
    forall x | x in p
      ensures FirstIndex(p + [y], x) == FirstIndex(p, x)
    {
      FirstIndexPrefix(p, y, x);
    }
    assert forall i :: 0 <= i < |r| ==> r[i] in r;
  }

  /** An element first seen at the very end of `s` is listed last. */
  lemma NewestListedLast(s: seq<string>, r: seq<string>)
    requires s != [] && s[|s| - 1] !in s[..|s| - 1] && s[|s| - 1] in r
    requires InFirstSeenOrder(r, s)
    requires forall x :: x in r ==> x in s
    ensures r[|r| - 1] == s[|s| - 1]
  {
    var y, n := s[|s| - 1], |r| - 1;
    FirstIndexUnique(s, y, |s| - 1);
    var m :| 0 <= m < |r| && r[m] == y;
    forall i | 0 <= i < |r|
      ensures r[i] in s && FirstIndex(s, r[i]) <= FirstIndex(s, r[n])
    {
      assert r[i] in r && r[n] in r;
    }
  }

  /** Removing the last element `y` of a duplicate-free list of the elements of
      `p + [y]`, with `y` not in `p`, leaves a duplicate-free list of the elements of `p`. */
  lemma DropLastElements(p: seq<string>, y: string, r: seq<string>)
    requires y !in p && r != [] && r[|r| - 1] == y
    requires SameElements(r, p + [y]) && NoDuplicates(r)
    ensures SameElements(r[..|r| - 1], p) && NoDuplicates(r[..|r| - 1])
  {
    var r' := r[..|r| - 1];
    assert r == r' + [y];
    forall x | x in r'
      ensures x in p
    {
      var i :| 0 <= i < |r'| && r'[i] == x;
      assert r[i] == x && r[i] != r[|r| - 1];
      assert x in p + [y];
    }
    forall x | x in p
      ensures x in r'
    {
      assert x in p + [y];
    }
  }

  /** A prefix of a first-seen-ordered list is first-seen ordered. */
  lemma PrefixInFirstSeenOrder(r: seq<string>, s: seq<string>, n: nat)
    requires n <= |r| && InFirstSeenOrder(r, s)
    ensures InFirstSeenOrder(r[..n], s)
  {
    var q := r[..n];
    assert forall i :: 0 <= i < |q| ==> q[i] == r[i];
  }

  /** Dropping an element first seen at the end of `s` from a distinct,
      first-seen-ordered list of exactly the elements of `s` leaves such a
      list for the rest of `s`. */
  lemma DropNewest(s: seq<string>, r: seq<string>)
    requires s != [] && s[|s| - 1] !in s[..|s| - 1]
    requires SameElements(r, s)
    requires NoDuplicates(r)
    requires InFirstSeenOrder(r, s)
    ensures |r| > 0 && r[|r| - 1] == s[|s| - 1]
    ensures SameElements(r[..|r| - 1], s[..|s| - 1])
    ensures NoDuplicates(r[..|r| - 1])
    ensures InFirstSeenOrder(r[..|r| - 1], s[..|s| - 1])
  {
    var p, y := s[..|s| - 1], s[|s| - 1];
    assert s == p + [y];
    assert y in s;
    NewestListedLast(s, r);
    DropLastElements(p, y, r);
    PrefixInFirstSeenOrder(r, s, |r| - 1);
    FirstSeenOrderAppend(r[..|r| - 1], p, y);
  }

  lemma FirstElementOccurs(r: seq<string>, s: seq<string>)
    requires r != [] && SameElements(r, s)
    ensures r[0] in s
  {
    var x := r[0];
    assert x in r;
  }

  /** Conversely, the three properties of DistinctSpec determine the list:
      any list that has them is the distinct list. */
  lemma {:induction false} DistinctUnique(s: seq<string>, r: seq<string>)
    requires SameElements(r, s)
    requires NoDuplicates(r)
    requires InFirstSeenOrder(r, s)
    ensures r == Distinct(s)
  {
    if s == [] {
      if r != [] {
        FirstElementOccurs(r, s);
      }
    } else {
      var p, y := s[..|s| - 1], s[|s| - 1];
      assert s == p + [y];
      DistinctSpec(p);
      if y in p {
        FirstSeenOrderAppend(r, p, y);
        DistinctUnique(p, r);
      } else {
        DropNewest(s, r);
        assert r == r[..|r| - 1] + [y];
        DistinctUnique(p, r[..|r| - 1]);
      }
    }
  }

  /** A list without duplicates holds each of its elements exactly once. */
  lemma {:induction false} NoDuplicatesCount(r: seq<string>, x: string)
    requires NoDuplicates(r)
    ensures multiset(r)[x] == if x in r then 1 else 0
  {
    if r != [] {
      assert r == [r[0]] + r[1..];
      assert NoDuplicates(r[1..]) by {
        forall i, j | 0 <= i < j < |r[1..]|
          ensures r[1..][i] != r[1..][j]
        {
          assert r[i + 1] != r[j + 1];
        }
      }
      NoDuplicatesCount(r[1..], x);
      if r[0] == x {
        assert x !in r[1..] by {
          forall i | 0 <= i < |r[1..]|
            ensures r[1..][i] != x
          {
            assert r[0] != r[i + 1];
          }
        }
      }
    }
  }

  /** The category list starts with "All"; after it every category of the
      cache appears and nothing else does. */
  lemma UniqueCategoriesMembership(cache: seq<Expense>)
    ensures UniqueCategories(cache)[0] == All
    ensures forall i :: 0 <= i < |cache| ==> cache[i].category in UniqueCategories(cache)[1..]
    ensures SameElements(UniqueCategories(cache)[1..], Categories(cache))
  {
    var cs := Categories(cache);
    DistinctSpec(cs);
    assert UniqueCategories(cache)[1..] == Distinct(cs);
    forall i | 0 <= i < |cache|
      ensures cache[i].category in Distinct(cs)
    {
      assert cs[i] == cache[i].category;
    }
  }

  /** After the leading "All", no category is listed twice, and categories are
      listed in the order in which they first occur in the cache. */
  lemma UniqueCategoriesOrder(cache: seq<Expense>)
    ensures NoDuplicates(UniqueCategories(cache)[1..])
    ensures InFirstSeenOrder(UniqueCategories(cache)[1..], Categories(cache))
  {
    DistinctSpec(Categories(cache));
    assert UniqueCategories(cache)[1..] == Distinct(Categories(cache));
  }

  /** "All" is not deduplicated against the records' own categories: it is
      listed once, or twice when some record's category is itself "All". */
  lemma UniqueCategoriesAllCount(cache: seq<Expense>)
    ensures multiset(UniqueCategories(cache))[All] ==
            if exists i :: 0 <= i < |cache| && cache[i].category == All then 2 else 1
  {
    var cs := Categories(cache);
    DistinctSpec(cs);
    NoDuplicatesCount(Distinct(cs), All);
    assert UniqueCategories(cache) == [All] + Distinct(cs);
    if exists i :: 0 <= i < |cache| && cache[i].category == All {
      var i :| 0 <= i < |cache| && cache[i].category == All;
      assert cs[i] == All;
    }
  }

  // ---------------------------------------------------------------------------
  // Filtered list: a category filter, then a date filter.
  // ---------------------------------------------------------------------------

  /** A test applied to each record: the two arrow functions the page filters
      with, and their combinations. */
  datatype Criterion =
    | ByCategory(category: string)
    | ByDate(date: string)
    | And(left: Criterion, right: Criterion)
    | Not(inner: Criterion)

  /** Whether record `e` passes test `c`. The category filter "All" and the
      empty date filter pass every record. */
  function Holds(c: Criterion, e: Expense): (b: bool)
    ensures c == ByCategory(All) || c == ByDate(AnyDate) ==> b
  {
    match c
    case ByCategory(cat) => cat == All || e.category == cat
    case ByDate(d) => d == AnyDate || e.date == d
    case And(l, r) => Holds(l, e) && Holds(r, e)
    case Not(i) => !Holds(i, e)
  }

  /** Both conditions a record must meet to be listed: the conjunction of the
      two tests as a single criterion. */
  function Kept(e: Expense, categoryFilter: string, dateFilter: string): (b: bool)
    ensures b <==> (categoryFilter == All || e.category == categoryFilter) && (dateFilter == AnyDate || e.date == dateFilter)
  {
    assert Holds(ByCategory(categoryFilter), e) <==> categoryFilter == All || e.category == categoryFilter;
    assert Holds(ByDate(dateFilter), e) <==> dateFilter == AnyDate || e.date == dateFilter;
    Holds(And(ByCategory(categoryFilter), ByDate(dateFilter)), e)
  }

  /** The records of `s` that satisfy `c`, in their order in `s`. */
  function Filter(s: seq<Expense>, c: Criterion): (r: seq<Expense>)
    ensures |r| <= |s|
  {
    if s == [] then []
    else (if Holds(c, s[0]) then [s[0]] else []) + Filter(s[1..], c)
  }

  /** `a` is obtained from `b` by deleting some elements. */
  predicate IsSubsequence(a: seq<Expense>, b: seq<Expense>)
    decreases |b|
  {
    a == [] || (b != [] && ((a[0] == b[0] && IsSubsequence(a[1..], b[1..])) || IsSubsequence(a, b[1..])))
  }

  /** The list the table shows. */
  function FilteredExpenses(cache: seq<Expense>, categoryFilter: string, dateFilter: string): (r: seq<Expense>)
    ensures |r| <= |cache|
    ensures forall e :: e in r <==> e in cache && Kept(e, categoryFilter, dateFilter)
  {
    var byCategory := Filter(cache, ByCategory(categoryFilter));
    FilterMembership(cache, ByCategory(categoryFilter));
    FilterMembership(byCategory, ByDate(dateFilter));
    Filter(byCategory, ByDate(dateFilter))
  }

  lemma {:induction false} FilterMembership(s: seq<Expense>, c: Criterion)
    ensures forall e :: e in Filter(s, c) <==> e in s && Holds(c, e)
  {
    if s != [] {
      FilterMembership(s[1..], c);
      assert s == [s[0]] + s[1..];
    }
  }

  lemma {:induction false} FilterIsSubsequence(s: seq<Expense>, c: Criterion)
    ensures IsSubsequence(Filter(s, c), s)
  {
    if s != [] {
      FilterIsSubsequence(s[1..], c);
      var f := Filter(s, c);
      if Holds(c, s[0]) {
        assert f == [s[0]] + Filter(s[1..], c);
        assert f[0] == s[0] && f[1..] == Filter(s[1..], c);
      } else {
        assert f == Filter(s[1..], c);
      }
    }
  }

  lemma {:induction false} FilterAppend(a: seq<Expense>, b: seq<Expense>, c: Criterion)
    ensures Filter(a + b, c) == Filter(a, c) + Filter(b, c)
  {
    if a != [] {
      assert (a + b)[1..] == a[1..] + b;
      FilterAppend(a[1..], b, c);
    } else {
      assert a + b == b;
    }
  }

  /** Filtering twice is filtering once by the conjunction. */
  lemma {:induction false} FilterFilter(s: seq<Expense>, c1: Criterion, c2: Criterion)
    ensures Filter(Filter(s, c1), c2) == Filter(s, And(c1, c2))
  {
    if s != [] {
      FilterFilter(s[1..], c1, c2);
      var f := Filter(s, c1);
      if Holds(c1, s[0]) {
        assert f == [s[0]] + Filter(s[1..], c1);
        assert f != [] && f[0] == s[0] && f[1..] == Filter(s[1..], c1);
        assert Filter(f, c2) == (if Holds(c2, s[0]) then [s[0]] else []) + Filter(f[1..], c2);
      } else {
        assert f == Filter(s[1..], c1);
      }
    }
  }

  /** Filtering keeps the whole list exactly when every record satisfies the test. */
  lemma {:induction false} FilterKeepsAll(s: seq<Expense>, c: Criterion)
    ensures |Filter(s, c)| == |s| <==> forall i :: 0 <= i < |s| ==> Holds(c, s[i])
    ensures (forall i :: 0 <= i < |s| ==> Holds(c, s[i])) ==> Filter(s, c) == s
  {
    if s != [] {
      FilterKeepsAll(s[1..], c);
      if forall i :: 0 <= i < |s| ==> Holds(c, s[i]) {
        assert forall i :: 0 <= i < |s[1..]| ==> Holds(c, s[1..][i]) by {
          forall i | 0 <= i < |s[1..]| ensures Holds(c, s[1..][i]) {
            assert s[1..][i] == s[i + 1];
          }
        }
        assert s == [s[0]] + s[1..];
      } else {
        var i :| 0 <= i < |s| && !Holds(c, s[i]);
        if i > 0 {
          assert s[1..][i - 1] == s[i];
        }
      }
    }
  }

  /** The filtered list is one pass over the cache with both conditions, and
      it keeps the cache order. */
  lemma FilteredExpensesSpec(cache: seq<Expense>, categoryFilter: string, dateFilter: string)
    ensures FilteredExpenses(cache, categoryFilter, dateFilter) == Filter(cache, And(ByCategory(categoryFilter), ByDate(dateFilter)))
    ensures IsSubsequence(FilteredExpenses(cache, categoryFilter, dateFilter), cache)
  {
    var both := And(ByCategory(categoryFilter), ByDate(dateFilter));
    FilterFilter(cache, ByCategory(categoryFilter), ByDate(dateFilter));
    FilterIsSubsequence(cache, both);
  }

  /** With the category filter at "All" and no date filter, the whole cache is listed. */
  lemma FilteredUnfiltered(cache: seq<Expense>)
    ensures FilteredExpenses(cache, All, AnyDate) == cache
  {
    FilterKeepsAll(cache, ByCategory(All));
    FilterKeepsAll(cache, ByDate(AnyDate));
  }

  // ---------------------------------------------------------------------------
  // Total and the "(Total in ...)" note.
  // ---------------------------------------------------------------------------

  /** Sum of the amounts, accumulated left to right from 0; never negative
      when no amount is. */
  function Total(s: seq<Expense>): (t: int)
    ensures (forall i :: 0 <= i < |s| ==> s[i].amount >= 0) ==> t >= 0
  {
    if s == [] then 0
    else
      var p := s[..|s| - 1];
      assert forall i :: 0 <= i < |p| ==> p[i] == s[i];
      Total(p) + s[|s| - 1].amount
  }

  /** The amount shown as "Total Spent": the sum over the records passing both
      filters, as one pass over the cache. */
  function FilteredTotal(cache: seq<Expense>, categoryFilter: string, dateFilter: string): (t: int)
    ensures t == Total(Filter(cache, And(ByCategory(categoryFilter), ByDate(dateFilter))))
  {
    FilterFilter(cache, ByCategory(categoryFilter), ByDate(dateFilter));
    Total(FilteredExpenses(cache, categoryFilter, dateFilter))
  }

  lemma {:induction false} TotalAppend(a: seq<Expense>, b: seq<Expense>)
    ensures Total(a + b) == Total(a) + Total(b)
  {
    if b == [] {
      assert a + b == a;
    } else {
      var b' := b[..|b| - 1];
      assert (a + b)[..|a + b| - 1] == a + b';
      TotalAppend(a, b');
    }
  }

  /** The cache total is what a filter keeps plus what it drops. */
  lemma {:induction false} TotalSplit(s: seq<Expense>, c: Criterion)
    ensures Total(s) == Total(Filter(s, c)) + Total(Filter(s, Not(c)))
  {
    if s != [] {
      TotalSplit(s[1..], c);
      assert s == [s[0]] + s[1..];
      assert Total([s[0]]) == s[0].amount by {
        assert [s[0]][..0] == [];
      }
      TotalAppend([s[0]], s[1..]);
      var kept, dropped := Filter(s[1..], c), Filter(s[1..], Not(c));
      TotalAppend([s[0]], kept);
      TotalAppend([s[0]], dropped);
      if Holds(c, s[0]) {
        assert Filter(s, c) == [s[0]] + kept;
        assert Filter(s, Not(c)) == dropped;
        assert Total(Filter(s, c)) == s[0].amount + Total(kept);
      } else {
        assert Filter(s, c) == kept;
        assert Filter(s, Not(c)) == [s[0]] + dropped;
        assert Total(Filter(s, Not(c))) == s[0].amount + Total(dropped);
      }
    }
  }

  /** The shown total is the cache total less the total of the records the
      filters exclude; with nothing shown it is 0. */
  lemma FilteredTotalExcluded(cache: seq<Expense>, categoryFilter: string, dateFilter: string)
    ensures FilteredTotal(cache, categoryFilter, dateFilter) ==
            Total(cache) - Total(Filter(cache, Not(And(ByCategory(categoryFilter), ByDate(dateFilter)))))
    ensures FilteredExpenses(cache, categoryFilter, dateFilter) == [] ==> FilteredTotal(cache, categoryFilter, dateFilter) == 0
  {
    FilteredExpensesSpec(cache, categoryFilter, dateFilter);
    TotalSplit(cache, And(ByCategory(categoryFilter), ByDate(dateFilter)));
  }

  /** With non-negative amounts the shown total lies between 0 and the cache total. */
  lemma FilteredTotalBounds(cache: seq<Expense>, categoryFilter: string, dateFilter: string)
    requires forall i :: 0 <= i < |cache| ==> cache[i].amount >= 0
    ensures 0 <= FilteredTotal(cache, categoryFilter, dateFilter) <= Total(cache)
  {
    var both := And(ByCategory(categoryFilter), ByDate(dateFilter));
    FilteredTotalExcluded(cache, categoryFilter, dateFilter);
    FilteredExpensesSpec(cache, categoryFilter, dateFilter);
    NonNegativeFiltered(cache, both);
    NonNegativeFiltered(cache, Not(both));
  }

  lemma NonNegativeFiltered(s: seq<Expense>, c: Criterion)
    requires forall i :: 0 <= i < |s| ==> s[i].amount >= 0
    ensures forall i :: 0 <= i < |Filter(s, c)| ==> Filter(s, c)[i].amount >= 0
  {
    FilterMembership(s, c);
    forall i | 0 <= i < |Filter(s, c)|
      ensures Filter(s, c)[i].amount >= 0
    {
      assert Filter(s, c)[i] in s;
    }
  }

  /** The "(Total in ...)" note, shown when the filtered list is shorter than
      the cache: exactly when some cached record fails a filter. */
  function ShowsTotalNote(cache: seq<Expense>, categoryFilter: string, dateFilter: string): (shown: bool)
    ensures shown <==> exists i :: 0 <= i < |cache| && !Kept(cache[i], categoryFilter, dateFilter)
  {
    FilteredExpensesSpec(cache, categoryFilter, dateFilter);
    FilterKeepsAll(cache, And(ByCategory(categoryFilter), ByDate(dateFilter)));
    |FilteredExpenses(cache, categoryFilter, dateFilter)| != |cache|
  }
}
