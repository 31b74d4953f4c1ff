/**
 * ExpenseService: the facade over a user's ledger, with a replaceable filtering strategy
 * and a replaceable total calculator. A strategy is a record of the functions it offers;
 * the defaults are the ExpenseFiltererImpl and ExpenseCalculatorImpl models.
 */
module Service {
  import opened Wrappers
  import opened Dates
  import opened Expenses
  import opened Filtering
  import opened Calculator
  import opened Ledger
  import opened Users

  /** An `ExpenseFilterer`: `filterExpenses` and `getExpensesCompared`. */
  datatype ExpenseFilterer = ExpenseFilterer(
    filterExpenses: (seq<Expense>, Option<Date>, Option<Date>, Option<string>) -> Result<seq<Expense>, Error>,
    getExpensesCompared: (seq<Expense>, Comparator) -> seq<Expense>)

  /** An `ExpenseCalculator`: `getTotalExpenseValueOfList`. */
  datatype ExpenseCalculator = ExpenseCalculator(getTotalExpenseValueOfList: seq<Expense> -> int)

  const DefaultFilterer: ExpenseFilterer := ExpenseFilterer(FilterExpenses, GetExpensesCompared)
  const DefaultCalculator: ExpenseCalculator := ExpenseCalculator(TotalExpenseValueOfList)

  /** `Double.compare(e2.getPrice(), e1.getPrice())`: the dearer expense sorts first. */
  function ByPriceDescending(e1: Expense, e2: Expense): (r: int)
    ensures r < 0 <==> e1.price > e2.price
    ensures r == 0 <==> e1.price == e2.price
  {
    if e2.price < e1.price then -1 else if e2.price > e1.price then 1 else 0
  }

  /** The price order obeys the `Comparator` contract. */
  lemma ByPriceDescendingIsComparator()
    ensures IsComparator(ByPriceDescending)
  {
  }

  /** `filterExpensesForUser` with the default filterer: filter by date and category, then sort by price, dearest first. */
  function CanonicalView(expenses: seq<Expense>, category: Option<string>, startDate: Option<Date>, endDate: Option<Date>): Result<seq<Expense>, Error> {
    var filtered :- FilterExpenses(expenses, startDate, endDate, category);
    Ok(GetExpensesCompared(filtered, ByPriceDescending))
  }

  /**
   * The canonical view fails exactly on an inverted date range. Otherwise it holds every
   * copy of each matching expense and nothing else, in non-increasing price order, and
   * expenses of equal price keep the order they have in the ledger.
   */
  lemma CanonicalViewSpec(expenses: seq<Expense>, category: Option<string>, startDate: Option<Date>, endDate: Option<Date>)
    ensures var r := CanonicalView(expenses, category, startDate, endDate);
      && (r.Err? <==> startDate.Some? && endDate.Some? && IsAfter(startDate.value, endDate.value))
      && (r.Err? ==> r.error == IllegalArgument("Start date cannot be after end date."))
      && (r.Ok? ==> forall e :: multiset(r.value)[e] == if Matches(e, startDate, endDate, category) then multiset(expenses)[e] else 0)
      && (r.Ok? ==> forall i, j :: 0 <= i < j < |r.value| ==> r.value[i].price >= r.value[j].price)
      && (r.Ok? ==> forall x :: Filter(r.value, TiedWith(ByPriceDescending, x)) ==
                               Filter(FilterExpenses(expenses, startDate, endDate, category).value, TiedWith(ByPriceDescending, x)))
  {
    FilterExpensesSpec(expenses, startDate, endDate, category);
    var f := FilterExpenses(expenses, startDate, endDate, category);
    if f.Ok? {
      ByPriceDescendingIsComparator();
      SortedByComparator(f.value, ByPriceDescending);
      forall x ensures Filter(GetExpensesCompared(f.value, ByPriceDescending), TiedWith(ByPriceDescending, x)) ==
                       Filter(f.value, TiedWith(ByPriceDescending, x)) {
        SortIsStable(f.value, ByPriceDescending, x);
      }
    }
  }

  /** Two expenses of 100 and 200 inside the range come back as [200, 100]. */
  lemma CanonicalViewExample(d: Expense)
    ensures CanonicalView([d.(price := 10000), d.(price := 20000)], None, None, None) ==
            Ok([d.(price := 20000), d.(price := 10000)])
  {
    var a, b := d.(price := 10000), d.(price := 20000);
    var s := [a, b];
    FilterWithoutCriteria(s, None);
    assert FilterExpenses(s, None, None, None) == Ok(s);
    assert s[1..] == [b] && [b][1..] == [];
    assert GetExpensesCompared([b], ByPriceDescending) == Insert(b, [], ByPriceDescending) == [b];
    assert ByPriceDescending(a, b) > 0;
    assert Insert(a, [], ByPriceDescending) == [a];
    assert Insert(a, [b], ByPriceDescending) == [b] + Insert(a, [b][1..], ByPriceDescending) == [b, a];
    assert GetExpensesCompared(s, ByPriceDescending) == Insert(a, GetExpensesCompared([b], ByPriceDescending), ByPriceDescending);
  }

  class ExpenseService {
    var expenseFilterer: ExpenseFilterer
    var expenseCalculator: ExpenseCalculator

    /** Both strategies are the library's own implementations. */
    ghost predicate UsesDefaults()
      reads this
    {
      expenseFilterer == DefaultFilterer && expenseCalculator == DefaultCalculator
    }

    /** `new ExpenseService()`. */
    constructor ()
      ensures UsesDefaults()
    {
      expenseFilterer := DefaultFilterer;
      expenseCalculator := DefaultCalculator;
    }

    /** The body of `new ExpenseService(ExpenseFilterer, ExpenseCalculator)` once both setters have accepted. */
    constructor WithStrategies(filterer: ExpenseFilterer, calculator: ExpenseCalculator)
      ensures expenseFilterer == filterer && expenseCalculator == calculator
    {
      expenseFilterer := filterer;
      expenseCalculator := calculator;
    }

    /** `new ExpenseService(ExpenseFilterer, ExpenseCalculator)`: a null filterer is reported before a null calculator. */
    static method Create(filterer: Option<ExpenseFilterer>, calculator: Option<ExpenseCalculator>) returns (r: Result<ExpenseService, Error>)
      ensures r.Ok? <==> filterer.Some? && calculator.Some?
      ensures filterer.None? ==> r == Err(IllegalArgument("ExpenseFilterer cannot be null."))
      ensures filterer.Some? && calculator.None? ==> r == Err(IllegalArgument("ExpenseCalculator cannot be null."))
      ensures r.Ok? ==> fresh(r.value) && r.value.expenseFilterer == filterer.value && r.value.expenseCalculator == calculator.value
    {
      if filterer.None? {
        return Err(IllegalArgument("ExpenseFilterer cannot be null."));
      }
      if calculator.None? {
        return Err(IllegalArgument("ExpenseCalculator cannot be null."));
      }
      var service := new ExpenseService.WithStrategies(filterer.value, calculator.value);
      return Ok(service);
    }

    /** `setExpenseCalcuator`: null is refused and the previous calculator kept. */
    method SetExpenseCalculator(calculator: Option<ExpenseCalculator>) returns (r: Outcome<Error>)
      modifies this
      ensures calculator.None? ==> r == Fail(IllegalArgument("ExpenseCalculator cannot be null.")) && unchanged(this)
      ensures calculator.Some? ==> r == Pass && expenseCalculator == calculator.value && expenseFilterer == old(expenseFilterer)
    {
      if calculator.None? {
        return Fail(IllegalArgument("ExpenseCalculator cannot be null."));
      }
      expenseCalculator := calculator.value;
      return Pass;
    }

    /** `setExpenseFilterer`: null is refused and the previous filterer kept. */
    method SetExpenseFilterer(filterer: Option<ExpenseFilterer>) returns (r: Outcome<Error>)
      modifies this
      ensures filterer.None? ==> r == Fail(IllegalArgument("ExpenseFilterer cannot be null.")) && unchanged(this)
      ensures filterer.Some? ==> r == Pass && expenseFilterer == filterer.value && expenseCalculator == old(expenseCalculator)
    {
      if filterer.None? {
        return Fail(IllegalArgument("ExpenseFilterer cannot be null."));
      }
      expenseFilterer := filterer.value;
      return Pass;
    }

    /** `addExpenseForUser`: exactly the ledger's `addExpense`. */
    method AddExpenseForUser(user: User, expense: Option<Expense>) returns (r: Outcome<Error>)
      modifies user.expenseHandler
      ensures expense.None? ==> r == Fail(IllegalArgument("Expense cannot be null.")) &&
                                user.expenseHandler.expenses == old(user.expenseHandler.expenses) &&
                                user.expenseHandler.categories == old(user.expenseHandler.categories)
      ensures expense.Some? ==> r == Pass &&
                                user.expenseHandler.expenses == old(user.expenseHandler.expenses) + [expense.value] &&
                                user.expenseHandler.categories == old(user.expenseHandler.categories) + {expense.value.category}
      ensures old(user.expenseHandler.Consistent()) ==> user.expenseHandler.Consistent()
    {
      r := user.expenseHandler.AddExpense(expense);
    }

    /** `removeExpenseForUser`: exactly the ledger's `removeExpense`, result included. */
    method RemoveExpenseForUser(user: User, selectedItem: Expense) returns (removed: bool)
      modifies user.expenseHandler
      ensures removed <==> selectedItem in old(user.expenseHandler.expenses)
      ensures user.expenseHandler.expenses == RemoveFirst(old(user.expenseHandler.expenses), selectedItem)
      ensures user.expenseHandler.categories ==
              if removed then CategoriesAfterRemove(old(user.expenseHandler.categories), user.expenseHandler.expenses, selectedItem)
              else old(user.expenseHandler.categories)
      ensures old(user.expenseHandler.Consistent()) && NoDuplicates(old(user.expenseHandler.expenses)) ==>
              user.expenseHandler.Consistent()
    {
      removed := user.expenseHandler.RemoveExpense(selectedItem);
    }

    /**
     * `filterExpensesForUser`: the strategy's filter over the user's expenses, then its
     * sort by price, dearest first; with the default strategy this is the canonical view.
     */
    method FilterExpensesForUser(user: User, category: Option<string>, startDate: Option<Date>, endDate: Option<Date>) returns (r: Result<seq<Expense>, Error>)
      ensures r == match expenseFilterer.filterExpenses(user.expenseHandler.expenses, startDate, endDate, category)
                   case Err(e) => Err(e)
                   case Ok(filtered) => Ok(expenseFilterer.getExpensesCompared(filtered, ByPriceDescending))
      ensures UsesDefaults() ==> r == CanonicalView(user.expenseHandler.expenses, category, startDate, endDate)
    {
      var expenses := user.expenseHandler.GetAllExpenses();
      var filtered := expenseFilterer.filterExpenses(expenses, startDate, endDate, category);
      if filtered.Err? {
        return Err(filtered.error);
      }
      return Ok(expenseFilterer.getExpensesCompared(filtered.value, ByPriceDescending));
    }

    /** `getAllExpensesForUser`: the ledger's list. */
    method GetAllExpensesForUser(user: User) returns (r: seq<Expense>)
      ensures r == user.expenseHandler.expenses
    {
      r := user.expenseHandler.GetAllExpenses();
    }

    /** `getExpensesCompared`: the user's expenses sorted by the strategy; by default a sorted permutation. */
    method GetExpensesCompared(user: User, comparator: Comparator) returns (r: seq<Expense>)
      ensures r == expenseFilterer.getExpensesCompared(user.expenseHandler.expenses, comparator)
      ensures UsesDefaults() ==> multiset(r) == multiset(user.expenseHandler.expenses)
      ensures UsesDefaults() && IsComparator(comparator) ==> SortedBy(r, comparator)
    {
      var expenses := user.expenseHandler.GetAllExpenses();
      r := expenseFilterer.getExpensesCompared(expenses, comparator);
      if UsesDefaults() && IsComparator(comparator) {
        SortedByComparator(expenses, comparator);
      }
    }

    /** `getCategoriesForUser`: the ledger's category set. */
    method GetCategoriesForUser(user: User) returns (r: set<string>)
      ensures r == user.expenseHandler.categories
      ensures user.expenseHandler.Consistent() ==> r == CategoriesOf(user.expenseHandler.expenses)
    {
      r := user.expenseHandler.GetCategories();
    }

    /** `calculateTotalExpenseValueForList`: the calculator's total; by default the sum of the prices. */
    method CalculateTotalExpenseValueForList(expenses: seq<Expense>) returns (total: int)
      ensures total == expenseCalculator.getTotalExpenseValueOfList(expenses)
      ensures UsesDefaults() ==> total == TotalExpenseValueOfList(expenses)
      ensures UsesDefaults() && (forall i :: 0 <= i < |expenses| ==> ValidExpense(expenses[i])) ==> total >= 0
    {
      total := expenseCalculator.getTotalExpenseValueOfList(expenses);
      if UsesDefaults() && (forall i :: 0 <= i < |expenses| ==> ValidExpense(expenses[i])) {
        TotalIsNonNegative(expenses);
      }
    }

    /** `calculateTotalExpenseValueForUser`: the total over all of the user's expenses. */
    method CalculateTotalExpenseValueForUser(user: User) returns (total: int)
      ensures total == expenseCalculator.getTotalExpenseValueOfList(user.expenseHandler.expenses)
      ensures UsesDefaults() ==> total == TotalExpenseValueOfList(user.expenseHandler.expenses)
    {
      var expenses := user.expenseHandler.GetAllExpenses();
      total := CalculateTotalExpenseValueForList(expenses);
    }

    /** `findExpense`: the first stored expense equal to the argument, or null when there is none. */
    method FindExpense(user: User, expense: Expense) returns (r: Option<Expense>)
      ensures r.Some? <==> expense in user.expenseHandler.expenses
      ensures r.Some? ==> r.value == user.expenseHandler.expenses[IndexOf(user.expenseHandler.expenses, expense)] && r.value == expense
    {
      var expenses := GetAllExpensesForUser(user);
      for i := 0 to |expenses|
        invariant expense !in expenses[..i]
      {
        if expenses[i] == expense {
          assert expenses[..i + 1] == expenses[..i] + [expenses[i]];
          return Some(expenses[i]);
        }
        assert expenses[..i + 1] == expenses[..i] + [expenses[i]];
      }
      assert expenses[..|expenses|] == expenses;
      return None;
    }
  }
}
