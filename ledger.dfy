/**
 * ExpenseHandlerImpl: an ordered list of expenses and a set of category names that the
 * add, remove and update operations keep in step with the list.
 *
 * The intended invariant is `categories == { e.category | e in expenses }` (`Consistent`).
 * Adding always keeps it. Removing and updating keep it exactly when the scan for "is this
 * category still used?" does not overlook an equal copy of the entry being removed or
 * replaced: that scan skips every entry equal to it, so with duplicates in the list the
 * invariant can break. The lemmas below state the exact condition, prove the invariant for
 * lists without duplicates, and give the counterexample with duplicates.
 *
 * Expense equality is Dafny's `==`, which `Expenses.Equals` proves to be `Expense.equals`.
 */
module Ledger {
  import opened Wrappers
  import opened Expenses

  /** `{ e.category | e in s }`: the categories the list actually uses. */
  function CategoriesOf(s: seq<Expense>): set<string> {
    set e | e in s :: e.category
  }

  /** Appending an expense adds exactly its category. */
  lemma CategoriesOfAppend(s: seq<Expense>, x: Expense)
    ensures CategoriesOf(s + [x]) == CategoriesOf(s) + {x.category}
  {
    assert forall e :: e in s + [x] <==> e in s || e == x;
  }

  /** A list of n expenses uses at most n categories. */
  lemma {:induction false} CategoryCountBound(s: seq<Expense>)
    ensures |CategoriesOf(s)| <= |s|
  {
    if s != [] {
      CategoryCountBound(s[1..]);
      assert s == [s[0]] + s[1..];
      assert forall e :: e in s <==> e == s[0] || e in s[1..];
      assert CategoriesOf(s) == CategoriesOf(s[1..]) + {s[0].category};
    }
  }

  /** `List.indexOf`: the position of the first equal entry, or -1 when there is none. */
  function IndexOf(s: seq<Expense>, x: Expense): (i: int)
    ensures -1 <= i < |s|
    ensures i == -1 <==> x !in s
    ensures 0 <= i ==> s[i] == x && x !in s[..i]
  {
    if s == [] then -1
    else if s[0] == x then 0
    else
      var k := IndexOf(s[1..], x);
      assert s == [s[0]] + s[1..];
      if k == -1 then -1
      else
        assert s[..k + 1] == [s[0]] + s[1..][..k];
        k + 1
  }

  /** The list without position i. */
  function RemoveAt(s: seq<Expense>, i: int): (r: seq<Expense>)
    requires 0 <= i < |s|
    ensures |r| == |s| - 1
  {
    s[..i] + s[i + 1..]
  }

  /** `List.remove(Object)`: drops the first equal entry, if there is one, and keeps the order of the rest. */
  function RemoveFirst(s: seq<Expense>, x: Expense): (r: seq<Expense>)
    ensures x !in s ==> r == s
    ensures x in s ==> |r| == |s| - 1 && multiset(r) == multiset(s) - multiset{x}
  {
    var i := IndexOf(s, x);
    if i == -1 then s
    else
      assert s == s[..i] + [s[i]] + s[i + 1..];
      RemoveAt(s, i)
  }

  /** No two positions hold equal expenses. */
  predicate NoDuplicates(s: seq<Expense>) {
    forall i, j :: 0 <= i < j < |s| ==> s[i] != s[j]
  }

  /** What `checkIfCategoryUsed(x)` finds: an entry with x's category that is not equal to x. */
  predicate UsedElsewhere(s: seq<Expense>, x: Expense) {
    exists e :: e in s && e.category == x.category && e != x
  }

  /** The category set `removeExpense` leaves, given the list after the removal. */
  function CategoriesAfterRemove(categories: set<string>, rest: seq<Expense>, x: Expense): set<string> {
    if UsedElsewhere(rest, x) then categories else categories - {x.category}
  }

  /** The category set `updateExpense` leaves, given the list before the replacement. */
  function CategoriesAfterUpdate(categories: set<string>, s: seq<Expense>, oldExpense: Expense, newExpense: Expense): set<string> {
    if oldExpense.category == newExpense.category then categories
    else if UsedElsewhere(s, oldExpense) then categories + {newExpense.category}
    else (categories + {newExpense.category}) - {oldExpense.category}
  }

  lemma MembersOfUpdate(s: seq<Expense>, i: int, v: Expense)
    requires 0 <= i < |s|
    ensures forall e :: e in s[i := v] <==> e == v || e in RemoveAt(s, i)
    ensures CategoriesOf(s[i := v]) == CategoriesOf(RemoveAt(s, i)) + {v.category}
  {
    assert s[i := v] == s[..i] + [v] + s[i + 1..];
  }

  lemma MembersOfRemoveAt(s: seq<Expense>, i: int)
    requires 0 <= i < |s|
    ensures forall e :: e in s <==> e == s[i] || e in RemoveAt(s, i)
    ensures CategoriesOf(s) == CategoriesOf(RemoveAt(s, i)) + {s[i].category}
  {
    assert s[i := s[i]] == s;
    MembersOfUpdate(s, i, s[i]);
  }

  /**
   * After a successful remove the category set matches the list exactly when x is gone
   * from the list or another, non-equal entry still uses its category.
   */
  lemma RemoveKeepsInvariantIff(s: seq<Expense>, x: Expense)
    requires x in s
    ensures var r := RemoveFirst(s, x);
      CategoriesAfterRemove(CategoriesOf(s), r, x) == CategoriesOf(r) <==> (x in r ==> UsedElsewhere(r, x))
  {
    var i := IndexOf(s, x);
    var r := RemoveAt(s, i);
    MembersOfRemoveAt(s, i);
    if UsedElsewhere(r, x) {
      var e :| e in r && e.category == x.category && e != x;
      assert x.category in CategoriesOf(r);
    } else if x in r {
      assert x.category in CategoriesOf(r);
    } else {
      assert x.category !in CategoriesOf(r);
    }
  }

  /** Without duplicates, `removeExpense` keeps the category set equal to the list's categories. */
  lemma RemoveKeepsInvariant(s: seq<Expense>, x: Expense)
    requires NoDuplicates(s) && x in s
    ensures CategoriesAfterRemove(CategoriesOf(s), RemoveFirst(s, x), x) == CategoriesOf(RemoveFirst(s, x))
  {
    RemoveKeepsInvariantIff(s, x);
  }

  /**
   * After a successful update the category set matches the list exactly when the category
   * is unchanged, another non-equal entry used the old category, or no equal copy of the
   * old entry is left in the list.
   */
  lemma UpdateKeepsInvariantIff(s: seq<Expense>, oldExpense: Expense, newExpense: Expense)
    requires oldExpense in s
    ensures var s' := s[IndexOf(s, oldExpense) := newExpense];
      CategoriesAfterUpdate(CategoriesOf(s), s, oldExpense, newExpense) == CategoriesOf(s') <==>
      (oldExpense.category == newExpense.category || UsedElsewhere(s, oldExpense) || oldExpense !in s')
  {
    var i := IndexOf(s, oldExpense);
    var others := RemoveAt(s, i);
    MembersOfRemoveAt(s, i);
    MembersOfUpdate(s, i, newExpense);
    if oldExpense.category != newExpense.category {
      if UsedElsewhere(s, oldExpense) {
        var e :| e in s && e.category == oldExpense.category && e != oldExpense;
        assert oldExpense.category in CategoriesOf(others);
      } else if oldExpense in others {
        assert oldExpense.category in CategoriesOf(others);
      } else {
        assert oldExpense.category !in CategoriesOf(others);
      }
    }
  }

  /** Without duplicates, `updateExpense` keeps the category set equal to the list's categories. */
  lemma UpdateKeepsInvariant(s: seq<Expense>, oldExpense: Expense, newExpense: Expense)
    requires NoDuplicates(s) && oldExpense in s
    ensures CategoriesAfterUpdate(CategoriesOf(s), s, oldExpense, newExpense) == CategoriesOf(s[IndexOf(s, oldExpense) := newExpense])
  {
    UpdateKeepsInvariantIff(s, oldExpense, newExpense);
  }

  /** Removing preserves the absence of duplicates. */
  lemma RemoveKeepsNoDuplicates(s: seq<Expense>, x: Expense)
    requires NoDuplicates(s)
    ensures NoDuplicates(RemoveFirst(s, x))
  {
    if x in s {
      var i := IndexOf(s, x);
      var r := RemoveAt(s, i);
      forall a, b | 0 <= a < b < |r| ensures r[a] != r[b] {
        var a', b' := if a < i then a else a + 1, if b < i then b else b + 1;
        assert r[a] == s[a'] && r[b] == s[b'] && a' < b';
      }
    }
  }

  /**
   * With the same expense stored twice, removing it once leaves a copy in the list but
   * drops its category from the set: the invariant breaks.
   */
  lemma DuplicateRemoveBreaksInvariant(e: Expense)
    ensures RemoveFirst([e, e], e) == [e]
    ensures CategoriesAfterRemove(CategoriesOf([e, e]), RemoveFirst([e, e], e), e) == {}
    ensures CategoriesOf(RemoveFirst([e, e], e)) == {e.category}
  {
    assert [e, e][1..] == [e];
    assert CategoriesOf([e]) == {e.category} by { assert forall x :: x in [e] <==> x == e; }
    assert CategoriesOf([e, e]) == {e.category} by { assert forall x :: x in [e, e] <==> x == e; }
  }

  /**
   * With the same expense stored twice, moving one copy to another category drops the old
   * category from the set although the other copy still uses it.
   */
  lemma DuplicateUpdateBreaksInvariant(e: Expense, n: Expense)
    requires e.category != n.category
    ensures [e, e][IndexOf([e, e], e) := n] == [n, e]
    ensures CategoriesAfterUpdate(CategoriesOf([e, e]), [e, e], e, n) == {n.category}
    ensures CategoriesOf([n, e]) == {n.category, e.category}
  {
    assert CategoriesOf([e, e]) == {e.category} by { assert forall x :: x in [e, e] <==> x == e; }
    assert CategoriesOf([n, e]) == {n.category, e.category} by { assert forall x :: x in [n, e] <==> x == n || x == e; }
  }

  /**
   * Two different Food expenses: removing one keeps "Food" in the set, removing the other
   * as well empties it.
   */
  lemma TwoFoodsScenario(a: Expense, b: Expense)
    requires a != b && a.category == "Food" && b.category == "Food"
    ensures RemoveFirst([a, b], a) == [b]
    ensures CategoriesAfterRemove(CategoriesOf([a, b]), [b], a) == {"Food"}
    ensures RemoveFirst([b], b) == []
    ensures CategoriesAfterRemove({"Food"}, [], b) == {}
  {
    assert [a, b][1..] == [b];
    assert CategoriesOf([a, b]) == {"Food"} by { assert forall x :: x in [a, b] <==> x == a || x == b; }
    assert b in [b];
  }

  class ExpenseHandlerImpl {
    var expenses: seq<Expense>
    var categories: set<string>

    /** The category set is exactly the set of categories the list uses. */
    ghost predicate Consistent()
      reads this
    {
      categories == CategoriesOf(expenses)
    }

    /** `new ExpenseHandlerImpl()`: no expenses, no categories. */
    constructor ()
      ensures expenses == [] && categories == {}
      ensures Consistent()
    {
      expenses := [];
      categories := {};
    }

    /** `new ExpenseHandlerImpl(List)`: a copy of the list and the categories it uses. */
    constructor FromList(expenses: seq<Expense>)
      ensures this.expenses == expenses && categories == CategoriesOf(expenses)
      ensures Consistent()
    {
      this.expenses := expenses;
      categories := CategoriesOf(expenses);
    }

    /** `new ExpenseHandlerImpl(List, Set)`: copies of both, with no check that they agree. */
    constructor FromListAndCategories(expenses: seq<Expense>, categories: set<string>)
      ensures this.expenses == expenses && this.categories == categories
    {
      this.expenses := expenses;
      this.categories := categories;
    }

    /** `addExpense`: a null expense is refused; otherwise it is appended and its category recorded. */
    method AddExpense(expense: Option<Expense>) returns (r: Outcome<Error>)
      modifies this
      ensures expense.None? ==> r == Fail(IllegalArgument("Expense cannot be null.")) &&
                                expenses == old(expenses) && categories == old(categories)
      ensures expense.Some? ==> r == Pass && expenses == old(expenses) + [expense.value] &&
                                categories == old(categories) + {expense.value.category}
      ensures old(Consistent()) ==> Consistent()
    {
      if expense.None? {
        return Fail(IllegalArgument("Expense cannot be null."));
      }
      CategoriesOfAppend(expenses, expense.value);
      expenses := expenses + [expense.value];
      categories := categories + {expense.value.category};
      return Pass;
    }

    /**
     * `removeExpense`: drops the first equal entry and reports whether there was one. The
     * category goes only if the scan over the remaining list finds no other, non-equal
     * entry using it.
     */
    method RemoveExpense(expense: Expense) returns (removed: bool)
      modifies this
      ensures removed <==> expense in old(expenses)
      ensures expenses == RemoveFirst(old(expenses), expense)
      ensures categories == if removed then CategoriesAfterRemove(old(categories), expenses, expense) else old(categories)
      ensures old(Consistent()) && NoDuplicates(old(expenses)) ==> Consistent()
    {
      var i := IndexOf(expenses, expense);
      if i == -1 {
        return false;
      }
      if Consistent() && NoDuplicates(expenses) {
        RemoveKeepsInvariant(expenses, expense);
      }
      expenses := RemoveAt(expenses, i);
      var used := CheckIfCategoryUsed(expense);
      if !used {
        categories := categories - {expense.category};
      }
      return true;
    }

    /**
     * `updateExpense`: an old expense that is not in the list is refused. Otherwise, when
     * the category changes, the new category is added, then the old one is dropped unless
     * the scan over the list (still holding the old entry) finds another non-equal entry
     * using it; finally the first equal entry is replaced in place.
     */
    method UpdateExpense(oldExpense: Expense, newExpense: Expense) returns (r: Outcome<Error>)
      modifies this
      ensures r.Fail? <==> oldExpense !in old(expenses)
      ensures r.Fail? ==> r.error == IllegalArgument("Expense not found.") &&
                          expenses == old(expenses) && categories == old(categories)
      ensures r.Pass? ==> expenses == old(expenses)[IndexOf(old(expenses), oldExpense) := newExpense] &&
                          categories == CategoriesAfterUpdate(old(categories), old(expenses), oldExpense, newExpense)
      ensures old(Consistent()) && NoDuplicates(old(expenses)) ==> Consistent()
    {
      var index := IndexOf(expenses, oldExpense);
      if index != -1 {
        if Consistent() && NoDuplicates(expenses) {
          UpdateKeepsInvariant(expenses, oldExpense, newExpense);
        }
        if oldExpense.category != newExpense.category {
          categories := categories + {newExpense.category};
          var used := CheckIfCategoryUsed(oldExpense);
          if !used {
            categories := categories - {oldExpense.category};
          }
        }
        expenses := expenses[index := newExpense];
        r := Pass;
      } else {
        r := Fail(IllegalArgument("Expense not found."));
      }
    }

    /** `getAllExpenses`: the list, as a value the caller cannot use to change the ledger. */
    method GetAllExpenses() returns (r: seq<Expense>)
      ensures r == expenses
    {
      r := expenses;
    }

    /** `getCategories`: the set, as a value the caller cannot use to change the ledger. */
    method GetCategories() returns (r: set<string>)
      ensures r == categories
    {
      r := categories;
    }

    /**
     * `loadCategories`: adds the category of every entry. Nothing is removed, so stale
     * categories survive, the set afterwards covers the list, and a second call changes
     * nothing.
     */
    method LoadCategories()
      modifies this
      ensures expenses == old(expenses)
      ensures categories == old(categories) + CategoriesOf(expenses)
      ensures CategoriesOf(expenses) <= categories
      ensures Consistent() <==> old(categories) <= CategoriesOf(expenses)
    {
      for i := 0 to |expenses|
        invariant expenses == old(expenses)
        invariant categories == old(categories) + CategoriesOf(expenses[..i])
      {
        assert expenses[..i + 1] == expenses[..i] + [expenses[i]];
        CategoriesOfAppend(expenses[..i], expenses[i]);
        categories := categories + {expenses[i].category};
      }
      assert expenses[..|expenses|] == expenses;
    }

    /** `getExpenseCount`. */
    method GetExpenseCount() returns (n: int)
      ensures n == |expenses|
    {
      n := |expenses|;
    }

    /** `getCategoryCount`: with a consistent set, never more than the number of expenses. */
    method GetCategoryCount() returns (n: int)
      ensures n == |categories|
      ensures Consistent() ==> n <= |expenses|
    {
      CategoryCountBound(expenses);
      n := |categories|;
    }

    /** `checkIfCategoryUsed`: a scan for an entry with the same category that is not equal to x. */
    method CheckIfCategoryUsed(x: Expense) returns (used: bool)
      ensures used == UsedElsewhere(expenses, x)
    {
      for i := 0 to |expenses|
        invariant !UsedElsewhere(expenses[..i], x)
      {
        var e := expenses[i];
        if e.category == x.category && e != x {
          assert e in expenses;
          return true;
        }
        assert expenses[..i + 1] == expenses[..i] + [e];
      }
      assert expenses[..|expenses|] == expenses;
      return false;
    }
  }
}
