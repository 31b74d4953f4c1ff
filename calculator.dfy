/** ExpenseCalculatorImpl: the total price of a list of expenses, in exact cents. */
module Calculator {
  import opened Expenses

  /** `getTotalExpenseValueOfList`: the sum of the prices. */
  function TotalExpenseValueOfList(es: seq<Expense>): int {
    if es == [] then 0 else es[0].price + TotalExpenseValueOfList(es[1..])
  }

  /** The total of a concatenation is the sum of the two totals. */
  lemma {:induction false} TotalOfConcat(a: seq<Expense>, b: seq<Expense>)
    ensures TotalExpenseValueOfList(a + b) == TotalExpenseValueOfList(a) + TotalExpenseValueOfList(b)
  {
    if a == [] {
      assert a + b == b;
    } else {
      assert (a + b)[0] == a[0] && (a + b)[1..] == a[1..] + b;
      TotalOfConcat(a[1..], b);
    }
  }

  /** The total does not depend on the order of the expenses. */
  lemma {:induction false} TotalOfPermutation(a: seq<Expense>, b: seq<Expense>)
    requires multiset(a) == multiset(b)
    ensures TotalExpenseValueOfList(a) == TotalExpenseValueOfList(b)
    decreases |a|
  {
    if a == [] {
      assert |b| == |multiset(b)| == 0;
    } else {
      var x := a[0];
      assert x in multiset(b);
      var k :| 0 <= k < |b| && b[k] == x;
      var rest := b[..k] + b[k + 1..];
      assert b == b[..k] + ([x] + b[k + 1..]);
      assert a == [x] + a[1..];
      assert multiset(b) == multiset(b[..k]) + multiset{x} + multiset(b[k + 1..]);
      assert multiset(a) == multiset{x} + multiset(a[1..]);
      assert multiset(rest) == multiset(b[..k]) + multiset(b[k + 1..]);
      assert multiset(a[1..]) == multiset(a) - multiset{x};
      assert multiset(rest) == multiset(b) - multiset{x};
      TotalOfConcat(b[..k], [x] + b[k + 1..]);
      TotalOfConcat(b[..k], b[k + 1..]);
      TotalOfPermutation(a[1..], rest);
    }
  }

  /** Every constructed expense has a non-negative price, so totals are never negative. */
  lemma {:induction false} TotalIsNonNegative(es: seq<Expense>)
    requires forall i :: 0 <= i < |es| ==> ValidExpense(es[i])
    ensures TotalExpenseValueOfList(es) >= 0
  {
    if es != [] {
      TotalIsNonNegative(es[1..]);
    }
  }

  /** The empty list totals 0; 75 + 150 + 750 totals 975; 100 + 200 totals 300. */
  lemma TotalExamples(d: Expense)
    ensures TotalExpenseValueOfList([]) == 0
    ensures TotalExpenseValueOfList([d.(price := 7500), d.(price := 15000), d.(price := 75000)]) == 97500
    ensures TotalExpenseValueOfList([d.(price := 10000), d.(price := 20000)]) == 30000
  {
    assert TotalExpenseValueOfList([d.(price := 10000), d.(price := 20000)][1..]) == 20000;
    var s := [d.(price := 7500), d.(price := 15000), d.(price := 75000)];
    assert TotalExpenseValueOfList(s[2..]) == 75000;
    assert TotalExpenseValueOfList(s[1..]) == 15000 + 75000;
  }
}
