/**
 * The Expense record of money-spender/core: a date, an alphabetic category, a non-negative
 * price and a non-blank description, each validated by its setter before it is stored.
 *
 * An Expense is a value here: a setter returns the updated record, or the exception it
 * throws, in which case the caller's record is left as it was. Prices are integer cents.
 */
module Expenses {
  import opened Wrappers
  import opened Text
  import opened Dates

  datatype Expense = Expense(date: Date, category: string, price: int, description: string)

  /** What `new Expense()` holds before the constructors' setters have run. */
  const Unset: Expense := Expense(Date(0, 0, 0), "", 0, "")

  /** The state every constructed Expense is in. */
  predicate ValidExpense(e: Expense) {
    ValidDate(e.date) && IsLetters(e.category) && e.price >= 0 && !IsBlank(e.description)
  }

  /** `getDate()`: the stored `dd.MM.yyyy` text. */
  function GetDate(e: Expense): string
    requires ValidDate(e.date)
  {
    FormatDate(e.date)
  }

  /** `setDate(LocalDate)`: a null date is refused, any other date is stored. */
  function SetDate(e: Expense, date: Option<Date>): (r: Result<Expense, Error>)
    ensures r.Ok? <==> date.Some?
    ensures r.Ok? ==> r.value == e.(date := date.value)
    ensures r.Err? ==> r.error == IllegalArgument("Date cannot be null.")
  {
    if date.None? then Err(IllegalArgument("Date cannot be null.")) else Ok(e.(date := date.value))
  }

  /** A blank string has no digits, so it never parses as a date. */
  lemma BlankIsNotADate(s: string)
    requires IsBlank(s)
    ensures ParseDate(s).None?
  {
    if |s| > 0 { assert IsTrimmable(s[0]) && !IsDigit(s[0]); }
  }

  /**
   * `setDateString(String)`: a null or blank string and a string that does not parse as
   * `dd.MM.yyyy` are refused, with different messages; otherwise the parsed date is stored.
   */
  function SetDateString(e: Expense, date: Option<string>): (r: Result<Expense, Error>)
    ensures r.Ok? <==> date.Some? && ParseDate(date.value).Some?
    ensures r.Ok? ==> r.value == e.(date := ParseDate(date.value).value) && ValidDate(r.value.date)
    ensures r.Err? ==> r.error == if date.None? || IsBlank(date.value)
                                 then IllegalArgument("Please provide a date.")
                                 else IllegalArgument("The date format should be 'dd.MM.yyyy'.")
  {
    if date.None? then Err(IllegalArgument("Please provide a date."))
    else if IsBlank(date.value) then
      BlankIsNotADate(date.value);
      Err(IllegalArgument("Please provide a date."))
    else
      match ParseDate(date.value)
      case None => Err(IllegalArgument("The date format should be 'dd.MM.yyyy'."))
      case Some(d) => Ok(e.(date := d))
  }

  /** `setPrice(double)`: negative prices are refused, zero is allowed. */
  function SetPrice(e: Expense, price: int): (r: Result<Expense, Error>)
    ensures r.Ok? <==> price >= 0
    ensures r.Ok? ==> r.value == e.(price := price)
    ensures r.Err? ==> r.error == IllegalArgument("Price cannot be negative.")
  {
    if price < 0 then Err(IllegalArgument("Price cannot be negative.")) else Ok(e.(price := price))
  }

  /**
   * `setCategory(String)`: null or blank input is refused first, then anything that is not
   * ASCII letters only (spaces, digits and hyphens included).
   */
  function SetCategory(e: Expense, category: Option<string>): (r: Result<Expense, Error>)
    ensures r.Ok? <==> category.Some? && IsLetters(category.value)
    ensures r.Ok? ==> r.value == e.(category := category.value)
    ensures r.Err? ==> r.error == if category.None? || IsBlank(category.value)
                                 then IllegalArgument("Category cannot be null or empty.")
                                 else IllegalArgument("Category should only contain alphabetic characters and spaces.")
  {
    if category.None? then Err(IllegalArgument("Category cannot be null or empty."))
    else if IsBlank(category.value) then
      BlankIsNotLetters(category.value);
      Err(IllegalArgument("Category cannot be null or empty."))
    else if !IsLetters(category.value) then
      Err(IllegalArgument("Category should only contain alphabetic characters and spaces."))
    else
      Ok(e.(category := category.value))
  }

  /** `setDescription(String)`: null or blank input is refused, any other text is stored. */
  function SetDescription(e: Expense, description: Option<string>): (r: Result<Expense, Error>)
    ensures r.Ok? <==> description.Some? && !IsBlank(description.value)
    ensures r.Ok? ==> r.value == e.(description := description.value)
    ensures r.Err? ==> r.error == IllegalArgument("Description cannot be null or empty.")
  {
    if description.None? || IsBlank(description.value) then Err(IllegalArgument("Description cannot be null or empty."))
    else Ok(e.(description := description.value))
  }

  /** A valid record stays valid under every setter that succeeds. */
  lemma SettersPreserveValidity(e: Expense, date: Option<Date>, text: Option<string>, price: int)
    requires ValidExpense(e)
    ensures SetDate(e, date).Ok? && ValidDate(date.value) ==> ValidExpense(SetDate(e, date).value)
    ensures SetDateString(e, text).Ok? ==> ValidExpense(SetDateString(e, text).value)
    ensures SetCategory(e, text).Ok? ==> ValidExpense(SetCategory(e, text).value)
    ensures SetPrice(e, price).Ok? ==> ValidExpense(SetPrice(e, price).value)
    ensures SetDescription(e, text).Ok? ==> ValidExpense(SetDescription(e, text).value)
  {
  }

  /**
   * After a successful `setDateString`, `getDate` returns the input itself whenever the
   * input names a real calendar day; a day past the end of its month comes back moved.
   */
  lemma SetDateStringKeepsText(e: Expense, s: string)
    requires SetDateString(e, Some(s)).Ok?
    ensures GetDate(SetDateString(e, Some(s)).value) == s <==> DayField(s) <= DaysInMonth(YearField(s), MonthField(s))
  {
    FormatParseRoundTrip(s);
  }

  /**
   * `new Expense(LocalDate, String, double, String)`: the four setters in order, so the
   * first invalid argument, in the order date, category, price, description, decides the
   * exception. A given date is a real calendar day, as a `LocalDate` always is, with a
   * year that `yyyy` renders as four unsigned digits.
   */
  function NewExpense(date: Option<Date>, category: Option<string>, price: int, description: Option<string>): (r: Result<Expense, Error>)
    requires date.Some? ==> ValidDate(date.value)
    ensures r.Ok? <==> date.Some? && category.Some? && IsLetters(category.value) && price >= 0 &&
                       description.Some? && !IsBlank(description.value)
    ensures r.Ok? ==> ValidExpense(r.value) && r.value == Expense(date.value, category.value, price, description.value)
    ensures date.None? ==> r == Err(IllegalArgument("Date cannot be null."))
    ensures date.Some? && SetCategory(Unset, category).Err? ==> r == Err(SetCategory(Unset, category).error)
    ensures date.Some? && SetCategory(Unset, category).Ok? && price < 0 ==>
              r == Err(IllegalArgument("Price cannot be negative."))
    ensures date.Some? && SetCategory(Unset, category).Ok? && price >= 0 && SetDescription(Unset, description).Err? ==>
              r == Err(IllegalArgument("Description cannot be null or empty."))
  {
    var e1 :- SetDate(Unset, date);
    var e2 :- SetCategory(e1, category);
    var e3 :- SetPrice(e2, price);
    SetDescription(e3, description)
  }

  /**
   * `new Expense(String, String, double, String)`: it succeeds exactly when every field is
   * valid, yields a valid record, and reports the first invalid argument in the order
   * date, category, price, description.
   */
  function NewExpenseFromString(date: Option<string>, category: Option<string>, price: int, description: Option<string>): (r: Result<Expense, Error>)
    ensures r.Ok? <==> date.Some? && ParseDate(date.value).Some? && category.Some? && IsLetters(category.value) &&
                       price >= 0 && description.Some? && !IsBlank(description.value)
    ensures r.Ok? ==> ValidExpense(r.value) &&
                      r.value == Expense(ParseDate(date.value).value, category.value, price, description.value)
    ensures SetDateString(Unset, date).Err? ==> r == Err(SetDateString(Unset, date).error)
    ensures SetDateString(Unset, date).Ok? && SetCategory(Unset, category).Err? ==> r == Err(SetCategory(Unset, category).error)
    ensures SetDateString(Unset, date).Ok? && SetCategory(Unset, category).Ok? && price < 0 ==>
              r == Err(IllegalArgument("Price cannot be negative."))
    ensures SetDateString(Unset, date).Ok? && SetCategory(Unset, category).Ok? && price >= 0 &&
              SetDescription(Unset, description).Err? ==>
              r == Err(IllegalArgument("Description cannot be null or empty."))
    ensures price >= 0 ==> r != Err(IllegalArgument("Price cannot be negative."))
  {
    var e1 :- SetDateString(Unset, date);
    var e2 :- SetCategory(e1, category);
    var e3 :- SetPrice(e2, price);
    SetDescription(e3, description)
  }

  /**
   * `equals(Object)`: price, description, category and date text all equal. Because the
   * date text determines the date, this is exactly equality of the records.
   */
  predicate Equals(a: Expense, b: Expense)
    requires ValidDate(a.date) && ValidDate(b.date)
    ensures Equals(a, b) <==> a == b
  {
    FormatInjective(a.date, b.date);
    a.price == b.price && a.description == b.description && a.category == b.category && GetDate(a) == GetDate(b)
  }

  /** Constructing ("14.07.1980", "PC", 6000.00, "New PC") succeeds; with -6000.00 it fails. */
  lemma ConstructionExamples()
    ensures NewExpenseFromString(Some("14.07.1980"), Some("PC"), 600000, Some("New PC")) ==
            Ok(Expense(Date(1980, 7, 14), "PC", 600000, "New PC"))
    ensures NewExpenseFromString(Some("14.07.1980"), Some("PC"), -600000, Some("New PC")) ==
            Err(IllegalArgument("Price cannot be negative."))
  {
    ParseExamples();
    assert IsLetters("PC");
    assert !IsBlank("New PC") by { assert !IsTrimmable("New PC"[0]); }
    assert !IsBlank("14.07.1980") by { assert !IsTrimmable("14.07.1980"[0]); }
  }

  /** A dash-separated date is refused with the format message. */
  lemma ConstructionRejectsDate()
    ensures NewExpenseFromString(Some("12-12-2022"), Some("PC"), 600000, Some("New PC")) ==
            Err(IllegalArgument("The date format should be 'dd.MM.yyyy'."))
  {
    assert !HasDateShape("12-12-2022");
    assert !IsBlank("12-12-2022") by { assert !IsTrimmable("12-12-2022"[0]); }
  }

  /** A blank description is refused once the other fields have been accepted. */
  lemma ConstructionRejectsDescription()
    ensures NewExpenseFromString(Some("14.07.1980"), Some("PC"), 0, Some("   ")) ==
            Err(IllegalArgument("Description cannot be null or empty."))
  {
    ParseExamples();
    assert IsLetters("PC");
    assert !IsBlank("14.07.1980") by { assert !IsTrimmable("14.07.1980"[0]); }
    var e := Expense(Date(1980, 7, 14), "PC", 0, "");
    assert SetPrice(SetCategory(SetDateString(Unset, Some("14.07.1980")).value, Some("PC")).value, 0) == Ok(e);
    assert IsBlank("   ");
  }

  /** A multi-word or hyphenated category is refused, although the message mentions spaces. */
  lemma CategoryExamples(e: Expense)
    ensures SetCategory(e, Some("Food")) == Ok(e.(category := "Food"))
    ensures SetCategory(e, Some("Home Improvement")) ==
            Err(IllegalArgument("Category should only contain alphabetic characters and spaces."))
    ensures SetCategory(e, Some("Take-away")).Err?
    ensures SetCategory(e, Some("Food2")).Err?
    ensures SetCategory(e, Some(" ")) == Err(IllegalArgument("Category cannot be null or empty."))
  {
    assert IsLetters("Food");
    assert !IsAsciiLetter("Home Improvement"[4]);
    assert !IsBlank("Home Improvement") by { assert !IsTrimmable("Home Improvement"[0]); }
    assert !IsAsciiLetter("Take-away"[4]);
    assert !IsAsciiLetter("Food2"[4]);
    assert IsBlank(" ");
  }
}
