/**
 * ExpenseFiltererImpl: date-range and category filtering, and comparator-driven stable
 * sorting, over a sequence of expenses. Every operation builds a fresh sequence; the
 * input is a value and cannot be changed.
 */
module Filtering {
  import opened Wrappers
  import opened Text
  import opened Dates
  import opened Expenses

  /** A `Comparator<Expense>`: negative, zero or positive as the first argument sorts before, with or after the second. */
  type Comparator = (Expense, Expense) -> int

  /** A stream `filter(p)` collected to a list: the elements satisfying `p`, in order. */
  function Filter<T>(s: seq<T>, p: T -> bool): (r: seq<T>)
    ensures |r| <= |s|
  {
    if s == [] then [] else (if p(s[0]) then [s[0]] else []) + Filter(s[1..], p)
  }

  /** `a` is `b` with some elements left out, the rest in their original order. */
  predicate IsSubsequence<T(==)>(a: seq<T>, b: seq<T>)
    decreases |b|
  {
    if a == [] then true
    else if b == [] then false
    else if a[0] == b[0] then IsSubsequence(a[1..], b[1..])
    else IsSubsequence(a, b[1..])
  }

  lemma {:induction false} FilterIsSubsequence<T>(s: seq<T>, p: T -> bool)
    ensures IsSubsequence(Filter(s, p), s)
  {
    if s != [] {
      FilterIsSubsequence(s[1..], p);
      if p(s[0]) {
        assert Filter(s, p) == [s[0]] + Filter(s[1..], p);
        assert Filter(s, p)[1..] == Filter(s[1..], p);
      } else {
        assert Filter(s, p) == Filter(s[1..], p);
        SubsequenceOfTail(Filter(s, p), s);
      }
    }
  }

  lemma SubsequenceOfTail<T>(a: seq<T>, b: seq<T>)
    requires b != [] && IsSubsequence(a, b[1..])
    ensures IsSubsequence(a, b)
    decreases |b|, |a|
  {
    if a != [] && a[0] == b[0] {
      SubsequenceDropFirst(a, b[1..]);
    }
  }

  lemma SubsequenceDropFirst<T>(a: seq<T>, b: seq<T>)
    requires a != [] && IsSubsequence(a, b)
    ensures IsSubsequence(a[1..], b)
    decreases |b|, |a|
  {
    if a[0] == b[0] {
      if a[1..] != [] { SubsequenceOfTail(a[1..], b); }
    } else {
      SubsequenceDropFirst(a, b[1..]);
      if a[1..] != [] { SubsequenceOfTail(a[1..], b); }
    }
  }

  /** Filtering keeps every copy of a satisfying element and no copy of any other. */
  lemma {:induction false} FilterMultiplicity<T>(s: seq<T>, p: T -> bool, x: T)
    ensures multiset(Filter(s, p))[x] == if p(x) then multiset(s)[x] else 0
  {
    if s != [] {
      FilterMultiplicity(s[1..], p, x);
      assert s == [s[0]] + s[1..];
      assert multiset(Filter(s, p)) == multiset(if p(s[0]) then [s[0]] else []) + multiset(Filter(s[1..], p));
    }
  }

  lemma {:induction false} FilterKeepsAll<T>(s: seq<T>, p: T -> bool)
    requires forall i :: 0 <= i < |s| ==> p(s[i])
    ensures Filter(s, p) == s
  {
    if s != [] {
      FilterKeepsAll(s[1..], p);
    }
  }

  /** Filtering a filtered sequence gives a subsequence of filtering the original by the second test alone. */
  lemma {:induction false} FilterFilterIsSubsequence<T>(s: seq<T>, p: T -> bool, q: T -> bool)
    ensures IsSubsequence(Filter(Filter(s, p), q), Filter(s, q))
  {
    if s != [] {
      FilterFilterIsSubsequence(s[1..], p, q);
      var inner := Filter(s, p);
      if p(s[0]) {
        assert inner == [s[0]] + Filter(s[1..], p);
        assert inner[1..] == Filter(s[1..], p);
        if q(s[0]) {
          assert Filter(inner, q) == [s[0]] + Filter(Filter(s[1..], p), q);
          assert Filter(s, q) == [s[0]] + Filter(s[1..], q);
          assert Filter(inner, q)[0] == s[0] && Filter(inner, q)[1..] == Filter(Filter(s[1..], p), q);
          assert Filter(s, q)[0] == s[0] && Filter(s, q)[1..] == Filter(s[1..], q);
        } else {
          assert Filter(inner, q) == Filter(Filter(s[1..], p), q);
          assert Filter(s, q) == Filter(s[1..], q);
        }
      } else {
        assert inner == Filter(s[1..], p);
        if q(s[0]) {
          assert Filter(s, q) == [s[0]] + Filter(s[1..], q);
          assert Filter(s, q)[1..] == Filter(s[1..], q);
          SubsequenceOfTail(Filter(inner, q), Filter(s, q));
        } else {
          assert Filter(s, q) == Filter(s[1..], q);
        }
      }
    }
  }

  /**
   * `validateDates`: both bounds given and the start after the end is refused, so two given
   * bounds pass exactly when the start is on or before the end.
   */
  function ValidateDates(startDate: Option<Date>, endDate: Option<Date>): (r: Outcome<Error>)
    ensures r.Fail? <==> startDate.Some? && endDate.Some? && IsBefore(endDate.value, startDate.value)
    ensures startDate.Some? && endDate.Some? ==>
              (r.Pass? <==> startDate.value == endDate.value || IsBefore(startDate.value, endDate.value))
    ensures r.Fail? ==> r.error == IllegalArgument("Start date cannot be after end date.")
  {
    if startDate.Some? && endDate.Some? then
      BeforeIsStrictTotalOrder(startDate.value, endDate.value, startDate.value);
      if IsAfter(startDate.value, endDate.value) then Fail(IllegalArgument("Start date cannot be after end date."))
      else Pass
    else Pass
  }

  /** Inclusive on both sides; an absent bound leaves that side open. */
  predicate InDateRange(d: Date, startDate: Option<Date>, endDate: Option<Date>) {
    (startDate.None? || !IsBefore(d, startDate.value)) && (endDate.None? || !IsAfter(d, endDate.value))
  }

  function DateTest(startDate: Option<Date>, endDate: Option<Date>): Expense -> bool {
    (e: Expense) => InDateRange(e.date, startDate, endDate)
  }

  function CategoryTest(category: string): Expense -> bool {
    (e: Expense) => category == e.category
  }

  /** A null or blank category means the category filter is skipped. */
  predicate SkipsCategory(category: Option<string>) {
    category.None? || IsBlank(category.value)
  }

  /** `filterExpensesByDate`: the range is checked first, then the list is filtered. */
  function FilterExpensesByDate(expenses: seq<Expense>, startDate: Option<Date>, endDate: Option<Date>): Result<seq<Expense>, Error> {
    match ValidateDates(startDate, endDate)
    case Fail(e) => Err(e)
    case Pass => Ok(Filter(expenses, DateTest(startDate, endDate)))
  }

  /** `filterExpenses`: the date filter, then the category filter unless the category is blank. */
  function FilterExpenses(expenses: seq<Expense>, startDate: Option<Date>, endDate: Option<Date>, category: Option<string>): Result<seq<Expense>, Error> {
    match FilterExpensesByDate(expenses, startDate, endDate)
    case Err(e) => Err(e)
    case Ok(byDate) =>
      if SkipsCategory(category) then Ok(byDate) else Ok(Filter(byDate, CategoryTest(category.value)))
  }

  /** What an expense must satisfy to survive `filterExpenses`. */
  predicate Matches(e: Expense, startDate: Option<Date>, endDate: Option<Date>, category: Option<string>) {
    InDateRange(e.date, startDate, endDate) && (SkipsCategory(category) || e.category == category.value)
  }

  /**
   * `filterExpenses` fails exactly on an inverted range, whatever the list (even an empty
   * one); otherwise it keeps, in their original order, every copy of each matching expense
   * and nothing else.
   */
  lemma FilterExpensesSpec(expenses: seq<Expense>, startDate: Option<Date>, endDate: Option<Date>, category: Option<string>)
    ensures var r := FilterExpenses(expenses, startDate, endDate, category);
      && (r.Err? <==> startDate.Some? && endDate.Some? && IsAfter(startDate.value, endDate.value))
      && (r.Err? ==> r.error == IllegalArgument("Start date cannot be after end date."))
      && (r.Ok? ==> IsSubsequence(r.value, expenses))
      && (r.Ok? ==> forall e :: multiset(r.value)[e] == if Matches(e, startDate, endDate, category) then multiset(expenses)[e] else 0)
  {
    var r := FilterExpenses(expenses, startDate, endDate, category);
    if r.Ok? {
      var d := DateTest(startDate, endDate);
      var byDate := Filter(expenses, d);
      FilterIsSubsequence(expenses, d);
      forall e ensures multiset(r.value)[e] == if Matches(e, startDate, endDate, category) then multiset(expenses)[e] else 0 {
        FilterMultiplicity(expenses, d, e);
        if !SkipsCategory(category) {
          FilterMultiplicity(byDate, CategoryTest(category.value), e);
        }
      }
      if !SkipsCategory(category) {
        var c := CategoryTest(category.value);
        FilterFilterIsSubsequence(expenses, d, c);
        FilterIsSubsequence(expenses, c);
        SubsequenceTransitive(r.value, Filter(expenses, c), expenses);
      }
    }
  }

  lemma SubsequenceTransitive<T>(a: seq<T>, b: seq<T>, c: seq<T>)
    requires IsSubsequence(a, b) && IsSubsequence(b, c)
    ensures IsSubsequence(a, c)
    decreases |c|
  {
    if a != [] && c != [] {
      if b[0] == c[0] {
        if a[0] == b[0] {
          SubsequenceTransitive(a[1..], b[1..], c[1..]);
        } else {
          SubsequenceTransitive(a, b[1..], c[1..]);
          SubsequenceOfTail(a, c);
        }
      } else {
        SubsequenceTransitive(a, b, c[1..]);
        SubsequenceOfTail(a, c);
      }
    }
  }

  /** With no bounds and a null or blank category the input comes back unchanged. */
  lemma FilterWithoutCriteria(expenses: seq<Expense>, category: Option<string>)
    requires SkipsCategory(category)
    ensures FilterExpenses(expenses, None, None, category) == Ok(expenses)
  {
    FilterKeepsAll(expenses, DateTest(None, None));
  }

  /**
   * Criteria only ever shrink the result: it is a subsequence of the result without the
   * category and of the result without the bounds.
   */
  lemma FilterIsMonotone(expenses: seq<Expense>, startDate: Option<Date>, endDate: Option<Date>, category: Option<string>)
    requires FilterExpenses(expenses, startDate, endDate, category).Ok?
    ensures IsSubsequence(FilterExpenses(expenses, startDate, endDate, category).value,
                          FilterExpenses(expenses, startDate, endDate, None).value)
    ensures IsSubsequence(FilterExpenses(expenses, startDate, endDate, category).value,
                          FilterExpenses(expenses, None, None, category).value)
  {
    var d := DateTest(startDate, endDate);
    FilterKeepsAll(expenses, DateTest(None, None));
    if SkipsCategory(category) {
      SubsequenceReflexive(Filter(expenses, d));
      FilterIsSubsequence(expenses, d);
    } else {
      var c := CategoryTest(category.value);
      FilterIsSubsequence(Filter(expenses, d), c);
      FilterFilterIsSubsequence(expenses, d, c);
    }
  }

  lemma {:induction false} SubsequenceReflexive<T>(s: seq<T>)
    ensures IsSubsequence(s, s)
  {
    if s != [] { SubsequenceReflexive(s[1..]); }
  }

  /** `sgn(compare(a, b)) == -sgn(compare(b, a))`, half of the `Comparator.compare` contract. */
  ghost predicate Antisymmetric(cmp: Comparator) {
    forall a, b :: cmp(a, b) < 0 <==> cmp(b, a) > 0
  }

  /** The contract `Comparator.compare` must honour: antisymmetric in sign and transitive. */
  ghost predicate IsComparator(cmp: Comparator) {
    Antisymmetric(cmp) &&
    (forall a, b, c :: cmp(a, b) <= 0 && cmp(b, c) <= 0 ==> cmp(a, c) <= 0)
  }

  predicate SortedBy(s: seq<Expense>, cmp: Comparator) {
    forall i, j :: 0 <= i < j < |s| ==> cmp(s[i], s[j]) <= 0
  }

  /** Places `x` before the first element it does not sort after, so earlier elements stay first among ties. */
  function Insert(x: Expense, s: seq<Expense>, cmp: Comparator): (r: seq<Expense>)
    ensures |r| == |s| + 1 && multiset(r) == multiset(s) + multiset{x}
  {
    if s == [] then [x]
    else if cmp(x, s[0]) <= 0 then [x] + s
    else
      assert s == [s[0]] + s[1..];
      [s[0]] + Insert(x, s[1..], cmp)
  }

  /** `getExpensesCompared`: a stable sort by the comparator, as `Stream.sorted` is on a list. */
  function GetExpensesCompared(expenses: seq<Expense>, cmp: Comparator): (r: seq<Expense>)
    ensures multiset(r) == multiset(expenses)
  {
    if expenses == [] then []
    else
      assert expenses == [expenses[0]] + expenses[1..];
      Insert(expenses[0], GetExpensesCompared(expenses[1..], cmp), cmp)
  }

  lemma SortedCons(x: Expense, s: seq<Expense>, cmp: Comparator)
    requires SortedBy(s, cmp)
    requires forall z :: z in s ==> cmp(x, z) <= 0
    ensures SortedBy([x] + s, cmp)
  {
    var r := [x] + s;
    forall i, j | 0 <= i < j < |r| ensures cmp(r[i], r[j]) <= 0 {
      assert r[j] == s[j - 1];
      if i > 0 { assert r[i] == s[i - 1]; }
    }
  }

  lemma SortedHeadIsLeast(s: seq<Expense>, cmp: Comparator)
    requires s != [] && SortedBy(s, cmp)
    ensures forall z :: z in s[1..] ==> cmp(s[0], z) <= 0
  {
    forall z | z in s[1..] ensures cmp(s[0], z) <= 0 {
      var k :| 0 <= k < |s[1..]| && s[1..][k] == z;
      assert s[k + 1] == z;
    }
  }

  lemma {:induction false} InsertKeepsOrder(x: Expense, s: seq<Expense>, cmp: Comparator)
    requires IsComparator(cmp) && SortedBy(s, cmp)
    ensures SortedBy(Insert(x, s, cmp), cmp)
  {
    if s != [] {
      SortedHeadIsLeast(s, cmp);
      if cmp(x, s[0]) <= 0 {
        forall z | z in s ensures cmp(x, z) <= 0 {
          if z != s[0] {
            assert z in s[1..] by { assert s == [s[0]] + s[1..]; }
            assert cmp(x, s[0]) <= 0 && cmp(s[0], z) <= 0;
          }
        }
        SortedCons(x, s, cmp);
      } else {
        var t := Insert(x, s[1..], cmp);
        InsertKeepsOrder(x, s[1..], cmp);
        forall z | z in t ensures cmp(s[0], z) <= 0 {
          assert z in multiset(s[1..]) + multiset{x};
        }
        SortedCons(s[0], t, cmp);
      }
    }
  }

  /** With a lawful comparator the result is in comparator order. */
  lemma {:induction false} SortedByComparator(expenses: seq<Expense>, cmp: Comparator)
    requires IsComparator(cmp)
    ensures SortedBy(GetExpensesCompared(expenses, cmp), cmp)
  {
    if expenses != [] {
      SortedByComparator(expenses[1..], cmp);
      InsertKeepsOrder(expenses[0], GetExpensesCompared(expenses[1..], cmp), cmp);
    }
  }

  /** The elements the comparator ranks equal to `x`. */
  function TiedWith(cmp: Comparator, x: Expense): Expense -> bool {
    (y: Expense) => cmp(x, y) == 0
  }

  /** Filtering a list with a known first element. */
  lemma FilterCons<T>(a: T, s: seq<T>, p: T -> bool)
    ensures Filter([a] + s, p) == (if p(a) then [a] else []) + Filter(s, p)
  {
    assert ([a] + s)[0] == a;
    assert ([a] + s)[1..] == s;
  }

  lemma {:induction false} InsertUntied(y: Expense, s: seq<Expense>, cmp: Comparator, x: Expense)
    requires cmp(x, y) != 0
    ensures Filter(Insert(y, s, cmp), TiedWith(cmp, x)) == Filter(s, TiedWith(cmp, x))
  {
    var t := TiedWith(cmp, x);
    assert !t(y);
    if s == [] {
      FilterCons(y, s, t);
    } else if cmp(y, s[0]) <= 0 {
      FilterCons(y, s, t);
    } else {
      var rest := Insert(y, s[1..], cmp);
      InsertUntied(y, s[1..], cmp, x);
      FilterCons(s[0], rest, t);
      FilterCons(s[0], s[1..], t);
      assert s == [s[0]] + s[1..];
    }
  }

  /** Under a lawful comparator, two elements tied with `x` are never strictly out of order. */
  lemma TiesAreTied(cmp: Comparator, x: Expense, y: Expense, z: Expense)
    requires IsComparator(cmp) && cmp(x, y) == 0
    ensures cmp(y, z) > 0 ==> cmp(x, z) != 0
  {
    assert cmp(y, x) == 0;
    assert cmp(y, x) <= 0 && cmp(x, z) <= 0 ==> cmp(y, z) <= 0;
  }

  lemma {:induction false} InsertTied(y: Expense, s: seq<Expense>, cmp: Comparator, x: Expense)
    requires cmp(x, y) == 0
    requires forall z :: cmp(y, z) > 0 ==> cmp(x, z) != 0
    ensures Filter(Insert(y, s, cmp), TiedWith(cmp, x)) == [y] + Filter(s, TiedWith(cmp, x))
  {
    var t := TiedWith(cmp, x);
    assert t(y);
    if s == [] {
      FilterCons(y, s, t);
    } else if cmp(y, s[0]) <= 0 {
      FilterCons(y, s, t);
    } else {
      var rest := Insert(y, s[1..], cmp);
      InsertTied(y, s[1..], cmp, x);
      assert !t(s[0]);
      FilterCons(s[0], rest, t);
      FilterCons(s[0], s[1..], t);
      assert s == [s[0]] + s[1..];
    }
  }

  /**
   * Stability: for every `x`, the elements tied with `x` appear in the result in the same
   * order as in the input.
   */
  lemma {:induction false} SortIsStable(expenses: seq<Expense>, cmp: Comparator, x: Expense)
    requires IsComparator(cmp)
    ensures Filter(GetExpensesCompared(expenses, cmp), TiedWith(cmp, x)) == Filter(expenses, TiedWith(cmp, x))
  {
    if expenses != [] {
      SortIsStable(expenses[1..], cmp, x);
      if cmp(x, expenses[0]) == 0 {
        forall z ensures cmp(expenses[0], z) > 0 ==> cmp(x, z) != 0 {
          TiesAreTied(cmp, x, expenses[0], z);
        }
        InsertTied(expenses[0], GetExpensesCompared(expenses[1..], cmp), cmp, x);
      } else {
        InsertUntied(expenses[0], GetExpensesCompared(expenses[1..], cmp), cmp, x);
      }
    }
  }
}
