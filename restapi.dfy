/**
 * The input checks of RestapiService's `createNewExpense`: the category choice, the price
 * text and the order in which they and the Expense constructor are applied. Prices are
 * read into integer cents.
 */
module Restapi {
  import opened Wrappers
  import opened Text
  import opened Expenses
  import opened Ledger
  import opened Users
  import opened Service

  /** `s == null || s.isEmpty()`: no trimming, so a blank string counts as given. */
  predicate IsEmptyInput(s: Option<string>) {
    s.None? || |s.value| == 0
  }

  /**
   * `validateCategory`: exactly one of the typed category and the dropdown choice must be
   * given, and that one is returned unchanged.
   */
  function ValidateCategory(category: Option<string>, dropDownCategory: Option<string>): (r: Result<string, Error>)
    ensures r.Ok? <==> IsEmptyInput(category) != IsEmptyInput(dropDownCategory)
    ensures r.Ok? ==> r.value == if IsEmptyInput(category) then dropDownCategory.value else category.value
    ensures r.Ok? ==> |r.value| > 0
    ensures r.Err? ==> r.error == if IsEmptyInput(category) then IllegalArgument("Please provide a category.")
                                 else IllegalArgument("You cannot choose from the dropdown and write a new category at the same time!")
  {
    var isCategoryEmpty := IsEmptyInput(category);
    var isDropDownCategoryEmpty := IsEmptyInput(dropDownCategory);
    if isCategoryEmpty && isDropDownCategoryEmpty then Err(IllegalArgument("Please provide a category."))
    else if isCategoryEmpty && !isDropDownCategoryEmpty then Ok(dropDownCategory.value)
    else if !isCategoryEmpty && isDropDownCategoryEmpty then Ok(category.value)
    else Err(IllegalArgument("You cannot choose from the dropdown and write a new category at the same time!"))
  }

  predicate IsDigits(s: string) {
    |s| > 0 && AllDigits(s)
  }

  /** The regular expression `[0-9]+(\.[0-9]{1,2})?`, matched against the whole string. */
  ghost predicate MatchesPricePattern(s: string) {
    IsDigits(s) ||
    exists k :: 0 < k < |s| && |s| - (k + 1) <= 2 && IsDigits(s[..k]) && s[k] == '.' && IsDigits(s[k + 1..])
  }

  /** The same language, decided by looking for the dot two or three places from the end. */
  predicate IsPrice(s: string) {
    if |s| >= 3 && s[|s| - 2] == '.' then IsDigits(s[..|s| - 2]) && IsDigit(s[|s| - 1])
    else if |s| >= 4 && s[|s| - 3] == '.' then IsDigits(s[..|s| - 3]) && IsDigits(s[|s| - 2..])
    else IsDigits(s)
  }

  /** The decision procedure accepts exactly the strings the regular expression matches. */
  lemma IsPriceMatchesPattern(s: string)
    ensures IsPrice(s) <==> MatchesPricePattern(s)
  {
    if IsPrice(s) {
      if |s| >= 3 && s[|s| - 2] == '.' {
        assert 0 < |s| - 2 < |s| && IsDigits(s[..|s| - 2]) && IsDigits(s[|s| - 1..]);
      } else if |s| >= 4 && s[|s| - 3] == '.' {
        assert 0 < |s| - 3 < |s| && IsDigits(s[..|s| - 3]) && IsDigits(s[|s| - 2..]);
      }
    }
    if MatchesPricePattern(s) && !IsDigits(s) {
      var k :| 0 < k < |s| && |s| - (k + 1) <= 2 && IsDigits(s[..k]) && s[k] == '.' && IsDigits(s[k + 1..]);
      if k == |s| - 2 {
        assert IsDigit(s[k + 1..][0]);
      } else {
        assert k == |s| - 3 && s[|s| - 2] == s[k + 1..][0];
      }
    }
  }

  /** The value of an accepted price string in cents: `Double.parseDouble` times 100, exactly. */
  function PriceCents(s: string): nat
    requires IsPrice(s)
  {
    if |s| >= 3 && s[|s| - 2] == '.' then DigitsValue(s[..|s| - 2]) * 100 + DigitValue(s[|s| - 1]) * 10
    else if |s| >= 4 && s[|s| - 3] == '.' then DigitsValue(s[..|s| - 3]) * 100 + DigitsValue(s[|s| - 2..])
    else DigitsValue(s) * 100
  }

  /**
   * `convertPrice`: blank text is a missing price; text outside the pattern is a number
   * format error, a kind of its own; anything else is read as a price, never negative.
   */
  function ConvertPrice(price: string): (r: Result<nat, Error>)
    ensures r.Err? <==> IsBlank(price) || !MatchesPricePattern(price)
    ensures IsBlank(price) ==> r == Err(IllegalArgument("Please provide a price."))
    ensures !IsBlank(price) && r.Err? ==> r == Err(NumberFormat("Please provide a valid price."))
  {
    TrimEmptyIffBlank(price);
    IsPriceMatchesPattern(price);
    if Trim(price) == [] then Err(IllegalArgument("Please provide a price."))
    else if !IsPrice(price) then Err(NumberFormat("Please provide a valid price."))
    else Ok(PriceCents(price))
  }

  /** A price in cents written with its two decimals, e.g. 1205 as "12.05". */
  function FormatCents(cents: nat): string {
    NatToDigits(cents / 100) + ['.', DigitChar(cents % 100 / 10), DigitChar(cents % 10)]
  }

  lemma TwoDigitsValue(a: char, b: char)
    requires IsDigit(a) && IsDigit(b)
    ensures DigitsValue([a, b]) == 10 * DigitValue(a) + DigitValue(b)
  {
    assert [a, b][..1] == [a];
    assert [a][..0] == [];
    assert DigitsValue([a]) == DigitValue(a);
  }

  lemma CentsDigits(cents: nat)
    ensures cents / 100 * 100 + 10 * (cents % 100 / 10) + cents % 10 == cents
  {
    var q, r := cents / 100, cents % 100;
    assert cents == 100 * q + r;
    DivMod100(q, r);
    var t, u := r / 10, r % 10;
    assert r == 10 * t + u;
    assert cents == 10 * (10 * q + t) + u;
    DivMod10(10 * q + t, u);
  }

  /** The two-decimal rendering is a price string whose value is the amount. */
  lemma FormatCentsIsPrice(cents: nat)
    ensures IsPrice(FormatCents(cents)) && PriceCents(FormatCents(cents)) == cents
  {
    var s := FormatCents(cents);
    var whole := NatToDigits(cents / 100);
    var tens, units := DigitChar(cents % 100 / 10), DigitChar(cents % 10);
    assert s[..|s| - 3] == whole;
    assert s[|s| - 2..] == [tens, units];
    NatToDigitsRoundTrip(cents / 100);
    TwoDigitsValue(tens, units);
    CentsDigits(cents);
  }

  /** Every amount of cents is accepted back from its two-decimal rendering. */
  lemma ConvertFormatRoundTrip(cents: nat)
    ensures ConvertPrice(FormatCents(cents)) == Ok(cents)
  {
    var s := FormatCents(cents);
    FormatCentsIsPrice(cents);
    assert !IsBlank(s) by { assert !IsTrimmable(s[0]); }
  }

  /** Any digit string, leading zeros included, is read as that many whole units. */
  lemma ConvertWholeNumber(s: string)
    requires IsDigits(s)
    ensures ConvertPrice(s) == Ok(DigitsValue(s) * 100)
  {
    WholeNumberIsPrice(s);
    assert !IsBlank(s) by { assert IsDigit(s[0]); assert !IsTrimmable(s[0]); }
  }

  lemma WholeNumberIsPrice(s: string)
    requires IsDigits(s)
    ensures IsPrice(s) && PriceCents(s) == DigitsValue(s) * 100
  {
    if |s| >= 3 { assert IsDigit(s[|s| - 2]); }
    if |s| >= 4 { assert IsDigit(s[|s| - 3]); }
  }

  /** Digits, a dot and one more digit: the digit after the dot counts tenths. */
  lemma ConvertOneDecimalDigit(w: string, d: char)
    requires IsDigits(w) && IsDigit(d)
    ensures ConvertPrice(w + ['.', d]) == Ok(DigitsValue(w) * 100 + 10 * DigitValue(d))
  {
    OneDecimalIsPrice(w, d);
    var s := w + ['.', d];
    assert !IsBlank(s) by { assert s[0] == w[0]; assert !IsTrimmable(s[0]); }
  }

  lemma OneDecimalIsPrice(w: string, d: char)
    requires IsDigits(w) && IsDigit(d)
    ensures IsPrice(w + ['.', d]) && PriceCents(w + ['.', d]) == DigitsValue(w) * 100 + 10 * DigitValue(d)
  {
    var s := w + ['.', d];
    assert s[..|s| - 2] == w;
    assert s[|s| - 2] == '.' && s[|s| - 1] == d;
  }

  /** Digits, a dot and two more digits: the two digits after the dot count cents. */
  lemma ConvertTwoDecimalDigits(w: string, d1: char, d2: char)
    requires IsDigits(w) && IsDigit(d1) && IsDigit(d2)
    ensures ConvertPrice(w + ['.', d1, d2]) == Ok(DigitsValue(w) * 100 + 10 * DigitValue(d1) + DigitValue(d2))
  {
    var s := w + ['.', d1, d2];
    TwoDecimalsIsPrice(w, d1, d2);
    assert s[0] == w[0];
    ConvertAccepted(s);
  }

  /** A price string starting with a digit is accepted and read by `PriceCents`. */
  lemma ConvertAccepted(s: string)
    requires IsPrice(s) && |s| > 0 && IsDigit(s[0])
    ensures ConvertPrice(s) == Ok(PriceCents(s))
  {
    assert !IsBlank(s) by { assert !IsTrimmable(s[0]); }
    TrimEmptyIffBlank(s);
  }

  lemma TwoDecimalsIsPrice(w: string, d1: char, d2: char)
    requires IsDigits(w) && IsDigit(d1) && IsDigit(d2)
    ensures IsPrice(w + ['.', d1, d2]) &&
            PriceCents(w + ['.', d1, d2]) == DigitsValue(w) * 100 + 10 * DigitValue(d1) + DigitValue(d2)
  {
    var s := w + ['.', d1, d2];
    assert s[..|s| - 3] == w;
    assert s[|s| - 3] == '.' && s[|s| - 2] == d1 && s[|s| - 2..] == [d1, d2];
    TwoDigitsValue(d1, d2);
  }

  /** One decimal is tenths: "12.5" is 1250 cents, the same as "12.50". */
  lemma ConvertOneDecimal()
    ensures ConvertPrice("12.5") == Ok(1250)
  {
    var s := "12.5";
    assert !IsTrimmable(s[0]);
    assert s[..2] == "12" && DigitsValue("12") == 12 by { assert "12"[..1] == "1"; }
    assert IsPrice(s);
  }

  /** Two decimals are hundredths: "12.05" is 1205 cents. */
  lemma ConvertTwoDecimals()
    ensures ConvertPrice("12.05") == Ok(1205)
  {
    var s := "12.05";
    assert !IsTrimmable(s[0]);
    assert s[..2] == "12" && DigitsValue("12") == 12 by { assert "12"[..1] == "1"; }
    assert s[3..] == "05";
    TwoDigitsValue('0', '5');
    assert IsPrice(s);
  }

  /** Three decimals are a number format error. */
  lemma ConvertThreeDecimalsFails()
    ensures ConvertPrice("12.505") == Err(NumberFormat("Please provide a valid price."))
  {
    var s := "12.505";
    assert !IsTrimmable(s[0]);
    assert !IsDigits(s[..3]) by { assert !IsDigit(s[..3][2]); }
    assert !IsDigits(s) by { assert !IsDigit(s[2]); }
  }

  /** A sign is a number format error, so no accepted price is negative. */
  lemma ConvertSignFails()
    ensures ConvertPrice("-5") == Err(NumberFormat("Please provide a valid price."))
  {
    assert !IsTrimmable("-5"[0]) && !IsDigit("-5"[0]);
  }

  /** A missing integer part is a number format error. */
  lemma ConvertNoIntegerPartFails()
    ensures ConvertPrice(".5") == Err(NumberFormat("Please provide a valid price."))
  {
    assert !IsTrimmable(".5"[0]) && !IsDigit(".5"[0]);
  }

  /** Blank text is a missing price, not a format error. */
  lemma ConvertBlankFails()
    ensures ConvertPrice("   ") == Err(IllegalArgument("Please provide a price."))
  {
    assert IsBlank("   ");
  }

  /** `Map.get`: the value stored under the key, or null. */
  function Get(credentials: map<string, string>, key: string): Option<string> {
    if key in credentials then Some(credentials[key]) else None
  }

  /**
   * The checks of `createNewExpense` before anything is stored: the price is trimmed (a
   * missing price is a null dereference), the category choice is checked, then the price,
   * then the Expense constructor. A converted price is never negative, so the
   * constructor's price check never fires.
   */
  function PrepareExpense(credentials: map<string, string>): (r: Result<Expense, Error>)
    ensures r.Ok? ==> ValidExpense(r.value)
    ensures r != Err(IllegalArgument("Price cannot be negative."))
  {
    if "price" !in credentials then Err(NullPointer)
    else
      var price := Trim(credentials["price"]);
      var chosenCategory :- ValidateCategory(Get(credentials, "newCategory"), Get(credentials, "dropDownCategory"));
      var priceValue :- ConvertPrice(price);
      NewExpenseFromString(Get(credentials, "date"), Some(chosenCategory), priceValue, Get(credentials, "description"))
  }

  /** The first failing check decides the error: price present, then category, then price, then the expense fields. */
  lemma PrepareExpenseOrder(credentials: map<string, string>)
    ensures "price" !in credentials ==> PrepareExpense(credentials) == Err(NullPointer)
    ensures "price" in credentials ==>
      var chosen := ValidateCategory(Get(credentials, "newCategory"), Get(credentials, "dropDownCategory"));
      var cents := ConvertPrice(Trim(credentials["price"]));
      && (chosen.Err? ==> PrepareExpense(credentials) == Err(chosen.error))
      && (chosen.Ok? && cents.Err? ==> PrepareExpense(credentials) == Err(cents.error))
      && (chosen.Ok? && cents.Ok? ==>
            PrepareExpense(credentials) ==
            NewExpenseFromString(Get(credentials, "date"), Some(chosen.value), cents.value, Get(credentials, "description")))
  {
  }

  /** Giving both categories fails even with a valid price and valid fields. */
  lemma BothCategoriesExample()
    ensures PrepareExpense(map["date" := "14.07.1980", "newCategory" := "Food", "dropDownCategory" := "PC",
                               "description" := "Lunch", "price" := "12.50"]) ==
            Err(IllegalArgument("You cannot choose from the dropdown and write a new category at the same time!"))
  {
    var m := map["date" := "14.07.1980", "newCategory" := "Food", "dropDownCategory" := "PC",
                 "description" := "Lunch", "price" := "12.50"];
    assert "price" in m;
    assert Get(m, "newCategory") == Some("Food") && Get(m, "dropDownCategory") == Some("PC");
  }

  /**
   * `createNewExpense` for a user already looked up: the checks above, then the expense is
   * added through the service; nothing is stored when a check fails.
   */
  method CreateNewExpense(service: ExpenseService, user: User, credentials: map<string, string>) returns (r: Outcome<Error>)
    modifies user.expenseHandler
    ensures r.Fail? <==> PrepareExpense(credentials).Err?
    ensures r.Fail? ==> r.error == PrepareExpense(credentials).error &&
                        user.expenseHandler.expenses == old(user.expenseHandler.expenses) &&
                        user.expenseHandler.categories == old(user.expenseHandler.categories)
    ensures r.Pass? ==> user.expenseHandler.expenses == old(user.expenseHandler.expenses) + [PrepareExpense(credentials).value] &&
                        user.expenseHandler.categories == old(user.expenseHandler.categories) + {PrepareExpense(credentials).value.category}
    ensures old(user.expenseHandler.Consistent()) ==> user.expenseHandler.Consistent()
  {
    var prepared := PrepareExpense(credentials);
    if prepared.Err? {
      return Fail(prepared.error);
    }
    r := service.AddExpenseForUser(user, Some(prepared.value));
  }
}
