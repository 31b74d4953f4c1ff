# money-spender expense ledger, modelled in Dafny

This project models the expense ledger engine of money-spender and proves properties of the model. The engine has these parts:

- **Expense**: the validated record.
- **ExpenseHandlerImpl**: the ledger. It keeps a list of expenses and a set of categories that add, remove and update keep in step with the list.
- **ExpenseFiltererImpl**: date and category filtering, plus comparator sorting.
- **ExpenseCalculatorImpl**: the price total.
- **ExpenseService**: the facade a caller uses.
- **User**: a username, a password and one ledger.
- **RestapiService**: only the input checks `createNewExpense` applies before it stores an expense.

There is one module per source file, plus three support modules:

- `Wrappers`: `Option` stands for a Java null; `Result` and `Outcome` stand for an exception.
- `Text`: trim, blankness, the letters-only pattern, decimal digits.
- `Dates`: `LocalDate` and the `dd.MM.yyyy` formatter.

How the Java is represented:

- **Exceptions.** A thrown exception is an `Err`/`Fail` value. It carries the exception kind (`IllegalArgument`, `NumberFormat`, `NullPointer`) and the exact message.
- **Prices.** A price is a whole number of cents.
- **Expense.** An Expense is an immutable value. A setter returns the updated record or the error. On an error the caller still holds the old record, so the field is unchanged.
- **Classes.** The ledger, the user and the service are classes whose fields change in place. The ledger's list is a `seq` and its category set is a `set`.
- **Loops.** `checkIfCategoryUsed`, `loadCategories` and `findExpense` are loops with invariants.
- **Equality.** Expense equality is `==`. `Expenses.Equals` proves that `equals` (price, description, category, date text) is exactly that.

The ledger's intended invariant is `categories == { e.category | e in expenses }`. The doc comment of `removeExpense` (ExpenseHandlerImpl.java:61-62) says a category is dropped only when no *other* expense uses it, and nothing stops the list from holding two equal expenses. The code does not keep that promise. `checkIfCategoryUsed` skips every entry *equal* to the one being removed or replaced (ExpenseHandlerImpl.java:161). So when an equal copy is left behind, its category is dropped from the set anyway. The model follows the code:

- It proves the exact condition under which remove and update keep the invariant.
- It proves the invariant for lists without duplicates.
- It gives the counterexample with duplicates.

Three more places where a doc comment or a message and the code disagree; the model follows the code each time:

- `loadCategories` is documented as rebuilding the set (ExpenseHandlerImpl.java:128), but it only adds to it.
- The `ExpenseHandler` interface says `removeExpense` throws on a missing expense (ExpenseHandler.java:25), but the implementation returns false.
- `setCategory`'s message mentions spaces (Expense.java:148), but spaces are refused.

## Model

Source paths are abbreviated in the table below but written out in full in the cells:

- `core/` is `money-spender/core/src/main/java/core/`.
- `restapi/` is `money-spender/restapi/src/main/java/restapi/`.

| member | source | states |
|---|---|---|
| Text.Trim | money-spender/core/src/main/java/core/Expense.java:94 | `String.trim`: never longer than its input, and a non-empty result neither starts nor ends with a character at most U+0020 |
| Text.TrimRemovesBlankEnds | money-spender/core/src/main/java/core/Expense.java:94 | `String.trim` returns a middle slice of its input: what it removes in front and behind is made only of characters at most U+0020 |
| Text.TrimEmptyIffBlank | money-spender/core/src/main/java/core/Expense.java:94 | `s.trim().isEmpty()` holds exactly when every character is at most U+0020 |
| Text.BlankIsNotLetters | money-spender/core/src/main/java/core/Expense.java:143-146 | a blank string never matches `^[a-zA-Z]+$`, so the blank check cannot hide a letters-only input |
| Dates.ParseDate | money-spender/core/src/main/java/core/Expense.java:98 | a successful `dd.MM.yyyy` parse always yields a real calendar date |
| Dates.FormatDate | money-spender/core/src/main/java/core/Expense.java:99 | the rendering of a date always has the `dd.MM.yyyy` layout |
| Dates.ParseFormatRoundTrip | money-spender/core/src/main/java/core/Expense.java:98-99 | formatting a date and parsing the text gives the date back |
| Dates.FormatParseRoundTrip | money-spender/core/src/main/java/core/Expense.java:98-99 | text that parses is rendered back to itself exactly when its day lies within its month (otherwise the smart resolver moved the day) |
| Dates.FormatInjective | money-spender/core/src/main/java/core/Expense.java:208 | two valid dates have the same text exactly when they are the same date |
| Dates.ParseExamples | money-spender/core/src/main/java/core/Expense.java:98-101 | "12-12-2022", month 13 and day 0 are refused; "31.02.2023" resolves to 28.02.2023; "29.02.2024" is kept |
| Dates.BeforeIsStrictTotalOrder | money-spender/core/src/main/java/core/ExpenseFiltererImpl.java:47-48 | `isBefore` on (year, month, day) is irreflexive, transitive and total |
| Expenses.SetDate | money-spender/core/src/main/java/core/Expense.java:77-82 | succeeds iff the date is non-null; stores it and changes no other field; null gives "Date cannot be null." |
| Expenses.BlankIsNotADate | money-spender/core/src/main/java/core/Expense.java:94-96 | a blank string never parses, so the blank check comes before any parse error |
| Expenses.SetDateString | money-spender/core/src/main/java/core/Expense.java:93-103 | succeeds iff the text is non-null and parses; stores the parsed date; null/blank gives "Please provide a date.", anything else unparsable gives the format message |
| Expenses.SetDateStringKeepsText | money-spender/core/src/main/java/core/Expense.java:98-99 | after a successful set, `getDate()` returns the input exactly when the input names a real day of its month |
| Expenses.SetPrice | money-spender/core/src/main/java/core/Expense.java:120-125 | succeeds iff price >= 0 (zero allowed), storing it; a negative price gives "Price cannot be negative." |
| Expenses.SetCategory | money-spender/core/src/main/java/core/Expense.java:142-152 | succeeds iff non-null and ASCII letters only; null/blank and other refusals get their two distinct messages |
| Expenses.SetDescription | money-spender/core/src/main/java/core/Expense.java:169-174 | succeeds iff non-null and non-blank; any other content is stored as given |
| Expenses.SettersPreserveValidity | money-spender/core/src/main/java/core/Expense.java:77-174 | a valid record stays valid under every setter that succeeds |
| Expenses.NewExpense | money-spender/core/src/main/java/core/Expense.java:32-37 | for a null date or a real calendar date with a year from 1 to 9999, succeeds iff all four fields are acceptable and then holds exactly the arguments as a valid record; otherwise reports the first invalid field in the order date, category, price, description, with its message |
| Expenses.NewExpenseFromString | money-spender/core/src/main/java/core/Expense.java:55-60 | the String constructor succeeds iff every field is valid, yields a valid record, and reports the first invalid field in the order date, category, price, description, with its message |
| Expenses.Equals | money-spender/core/src/main/java/core/Expense.java:190-209 | `equals` (price, description, category, date text) holds exactly when the records are identical values |
| Expenses.ConstructionExamples | money-spender/core/src/main/java/core/Expense.java:55-60 | ("14.07.1980", "PC", 6000.00, "New PC") constructs exactly that record; with -6000.00 it fails with the price message |
| Expenses.ConstructionRejectsDate | money-spender/core/src/main/java/core/Expense.java:98-101 | "12-12-2022" gives the date format message |
| Expenses.ConstructionRejectsDescription | money-spender/core/src/main/java/core/Expense.java:169-172 | a blank description fails with its message after the other fields have been accepted |
| Expenses.CategoryExamples | money-spender/core/src/main/java/core/Expense.java:146-148 | "Food" is accepted; "Home Improvement", "Take-away" and "Food2" are refused; " " is refused as empty |
| Calculator.TotalExpenseValueOfList | money-spender/core/src/main/java/core/ExpenseCalculatorImpl.java:19-21 | the sum of the prices, in cents; its properties are the Calculator lemmas below |
| Calculator.TotalOfConcat | money-spender/core/src/main/java/core/ExpenseCalculatorImpl.java:19-21 | the total of a concatenation is the sum of the totals |
| Calculator.TotalOfPermutation | money-spender/core/src/main/java/core/ExpenseCalculatorImpl.java:19-21 | any reordering of the list has the same total |
| Calculator.TotalIsNonNegative | money-spender/core/src/main/java/core/ExpenseCalculatorImpl.java:20 | a list of constructed expenses never totals below zero |
| Calculator.TotalExamples | money-spender/core/src/main/java/core/ExpenseCalculatorImpl.java:19-21 | the empty list totals 0; 75.00 + 150.00 + 750.00 is 975.00; 100.00 + 200.00 is 300.00 |
| Filtering.Filter | money-spender/core/src/main/java/core/ExpenseFiltererImpl.java:43-50 | a stream filter never lengthens its input |
| Filtering.FilterIsSubsequence | money-spender/core/src/main/java/core/ExpenseFiltererImpl.java:43-50 | a filtered list is a subsequence of its input, in the original order |
| Filtering.FilterMultiplicity | money-spender/core/src/main/java/core/ExpenseFiltererImpl.java:69-72 | filtering keeps every copy of a satisfying element and no copy of any other |
| Filtering.ValidateDates | money-spender/core/src/main/java/core/ExpenseFiltererImpl.java:25-29 | refuses exactly when both bounds are given and the end is strictly before the start, always with "Start date cannot be after end date."; two given bounds pass exactly when the start is on or before the end (by Dates.BeforeIsStrictTotalOrder) |
| Filtering.FilterExpensesByDate | money-spender/core/src/main/java/core/ExpenseFiltererImpl.java:39-51 | `validateDates`, then a filter keeping the expenses with start <= date <= end; what it keeps is stated in Filtering.FilterExpensesSpec |
| Filtering.FilterExpenses | money-spender/core/src/main/java/core/ExpenseFiltererImpl.java:64-75 | the date filter, then, unless the category is null or blank, a filter on that exact category; what it keeps is stated in Filtering.FilterExpensesSpec |
| Filtering.FilterExpensesSpec | money-spender/core/src/main/java/core/ExpenseFiltererImpl.java:39-75 | fails exactly when both bounds are given and start is after end, whatever the list; otherwise keeps, in order, every copy of each expense with start <= date <= end and a matching (or blank) category, and nothing else |
| Filtering.FilterWithoutCriteria | money-spender/core/src/main/java/core/ExpenseFiltererImpl.java:64-75 | with no bounds and a null or blank category the input comes back unchanged |
| Filtering.FilterIsMonotone | money-spender/core/src/main/java/core/ExpenseFiltererImpl.java:43-74 | the result is a subsequence both of the result without the category and of the result without the bounds |
| Filtering.Insert | money-spender/core/src/main/java/core/ExpenseFiltererImpl.java:86 | inserting adds exactly the one element |
| Filtering.GetExpensesCompared | money-spender/core/src/main/java/core/ExpenseFiltererImpl.java:85-87 | the sorted list is a permutation of the input |
| Filtering.InsertKeepsOrder | money-spender/core/src/main/java/core/ExpenseFiltererImpl.java:86 | inserting into a sorted list keeps it sorted, for a lawful comparator |
| Filtering.SortedByComparator | money-spender/core/src/main/java/core/ExpenseFiltererImpl.java:85-87 | for a lawful comparator the result is in comparator order |
| Filtering.SortIsStable | money-spender/core/src/main/java/core/ExpenseFiltererImpl.java:85-87 | elements the comparator ranks equal appear in the result in their input order |
| Ledger.CategoriesOfAppend | money-spender/core/src/main/java/core/ExpenseHandlerImpl.java:56-57 | appending an expense adds exactly its category to the derived set |
| Ledger.CategoryCountBound | money-spender/core/src/main/java/core/ExpenseHandlerImpl.java:149-151 | a list never uses more categories than it has entries |
| Ledger.IndexOf | money-spender/core/src/main/java/core/ExpenseHandlerImpl.java:88 | -1 exactly when absent; otherwise the position of the first equal entry |
| Ledger.RemoveFirst | money-spender/core/src/main/java/core/ExpenseHandlerImpl.java:70 | an absent expense leaves the list as it is; otherwise exactly one equal copy goes |
| Ledger.RemoveKeepsInvariantIff | money-spender/core/src/main/java/core/ExpenseHandlerImpl.java:70-74 | after a successful remove the set matches the list iff the removed value is gone from the list or another non-equal entry still uses its category |
| Ledger.RemoveKeepsInvariant | money-spender/core/src/main/java/core/ExpenseHandlerImpl.java:68-78 | without duplicates, remove keeps the set equal to the list's categories |
| Ledger.UpdateKeepsInvariantIff | money-spender/core/src/main/java/core/ExpenseHandlerImpl.java:87-106 | after an update the set matches the list iff the category is unchanged, another non-equal entry used the old category, or no equal copy of the old entry remains |
| Ledger.UpdateKeepsInvariant | money-spender/core/src/main/java/core/ExpenseHandlerImpl.java:87-106 | without duplicates, update keeps the set equal to the list's categories |
| Ledger.RemoveKeepsNoDuplicates | money-spender/core/src/main/java/core/ExpenseHandlerImpl.java:70 | removal never creates a duplicate |
| Ledger.DuplicateRemoveBreaksInvariant | money-spender/core/src/main/java/core/ExpenseHandlerImpl.java:161 | with one expense stored twice, removing it once leaves a copy but empties the set |
| Ledger.DuplicateUpdateBreaksInvariant | money-spender/core/src/main/java/core/ExpenseHandlerImpl.java:96-97 | with one expense stored twice, moving one copy to another category drops the old category although the other copy still uses it |
| Ledger.TwoFoodsScenario | money-spender/core/src/main/java/core/ExpenseHandlerImpl.java:70-74 | with two different Food expenses, removing one keeps "Food" and removing the other empties the set |
| Ledger.ExpenseHandlerImpl.constructor | money-spender/core/src/main/java/core/ExpenseHandlerImpl.java:20-22 | no expenses, no categories, consistent |
| Ledger.ExpenseHandlerImpl.FromList | money-spender/core/src/main/java/core/ExpenseHandlerImpl.java:30-32 | holds the list and exactly the categories it uses |
| Ledger.ExpenseHandlerImpl.FromListAndCategories | money-spender/core/src/main/java/core/ExpenseHandlerImpl.java:40-43 | holds both arguments as given, with no check that they agree |
| Ledger.ExpenseHandlerImpl.AddExpense | money-spender/core/src/main/java/core/ExpenseHandlerImpl.java:52-58 | null fails with "Expense cannot be null." and changes nothing; otherwise appends, adds the category, and keeps the invariant |
| Ledger.ExpenseHandlerImpl.RemoveExpense | money-spender/core/src/main/java/core/ExpenseHandlerImpl.java:68-78 | true iff present; drops the first equal entry; the category goes iff no remaining non-equal entry uses it; keeps the invariant without duplicates |
| Ledger.ExpenseHandlerImpl.UpdateExpense | money-spender/core/src/main/java/core/ExpenseHandlerImpl.java:87-106 | an absent old entry fails with "Expense not found." and changes nothing; otherwise replaces the first equal entry in place and updates the set as the code does; keeps the invariant without duplicates |
| Ledger.ExpenseHandlerImpl.GetAllExpenses | money-spender/core/src/main/java/core/ExpenseHandlerImpl.java:114-116 | the list, as a value |
| Ledger.ExpenseHandlerImpl.GetCategories | money-spender/core/src/main/java/core/ExpenseHandlerImpl.java:124-126 | the set, as a value |
| Ledger.ExpenseHandlerImpl.LoadCategories | money-spender/core/src/main/java/core/ExpenseHandlerImpl.java:129-133 | only adds: new set = old set plus the list's categories, so a second call changes nothing; consistent afterwards iff the old set had no stale entry |
| Ledger.ExpenseHandlerImpl.GetExpenseCount | money-spender/core/src/main/java/core/ExpenseHandlerImpl.java:140-142 | the list's length |
| Ledger.ExpenseHandlerImpl.GetCategoryCount | money-spender/core/src/main/java/core/ExpenseHandlerImpl.java:149-151 | the set's size, never above the expense count when consistent |
| Ledger.ExpenseHandlerImpl.CheckIfCategoryUsed | money-spender/core/src/main/java/core/ExpenseHandlerImpl.java:159-166 | true exactly when some entry has the category and is not equal to the argument |
| Users.ValidateUsername | money-spender/core/src/main/java/core/User.java:73-82 | accepts exactly 1 to 15 ASCII letters; empty, too long and non-letter names each get their own message, checked in that order |
| Users.ValidatePassword | money-spender/core/src/main/java/core/User.java:101-104 | accepts exactly non-null, non-empty text |
| Users.ValidationExamples | money-spender/core/src/main/java/core/User.java:73-106 | "VeryLongUsername" (16) is refused and a 15-letter name accepted; "Kjell-Arne" and "John123" are refused; a blank password is accepted |
| Users.User.constructor | money-spender/core/src/main/java/core/User.java:28-32 | a valid user with a fresh, consistent ledger over the list |
| Users.User.New | money-spender/core/src/main/java/core/User.java:28-32 | succeeds iff both checks pass, username checked first; the user owns a fresh ledger holding the list and its categories |
| Users.User.NewEmpty | money-spender/core/src/main/java/core/User.java:53-55 | as `New` with an empty ledger |
| Users.User.CopyOf | money-spender/core/src/main/java/core/User.java:43-45 | a valid user copies to the same name, password and list in a ledger of its own, distinct from the original's |
| Users.User.SetUsername | money-spender/core/src/main/java/core/User.java:73-84 | returns the check's verdict and stores the name only on success |
| Users.User.SetPassword | money-spender/core/src/main/java/core/User.java:101-106 | returns the check's verdict and stores the password only on success |
| Service.ByPriceDescending | money-spender/core/src/main/java/core/ExpenseService.java:105 | negative exactly when the first expense is dearer, zero exactly when the prices are equal, so the dearer expense sorts first |
| Service.ByPriceDescendingIsComparator | money-spender/core/src/main/java/core/ExpenseService.java:105 | the price-descending comparison is a lawful comparator |
| Service.CanonicalView | money-spender/core/src/main/java/core/ExpenseService.java:99-106 | what `filterExpensesForUser` returns with the default strategies: the filter, then the price-descending sort; its properties are stated in Service.CanonicalViewSpec |
| Service.CanonicalViewSpec | money-spender/core/src/main/java/core/ExpenseService.java:99-106 | fails exactly on an inverted range; otherwise holds every copy of each matching expense and nothing else, in non-increasing price order, with equal prices in ledger order |
| Service.CanonicalViewExample | money-spender/core/src/main/java/core/ExpenseService.java:99-106 | expenses of 100 and 200 come back as [200, 100] |
| Service.ExpenseService.constructor | money-spender/core/src/main/java/core/ExpenseService.java:21-23 | uses the default filterer and calculator |
| Service.ExpenseService.WithStrategies | money-spender/core/src/main/java/core/ExpenseService.java:31-35 | holds the two strategies given |
| Service.ExpenseService.Create | money-spender/core/src/main/java/core/ExpenseService.java:31-35 | succeeds iff both strategies are non-null; a null filterer is reported before a null calculator |
| Service.ExpenseService.SetExpenseCalculator | money-spender/core/src/main/java/core/ExpenseService.java:43-48 | null fails and keeps everything; otherwise replaces only the calculator |
| Service.ExpenseService.SetExpenseFilterer | money-spender/core/src/main/java/core/ExpenseService.java:56-61 | null fails and keeps everything; otherwise replaces only the filterer |
| Service.ExpenseService.AddExpenseForUser | money-spender/core/src/main/java/core/ExpenseService.java:69-71 | the ledger's add postconditions, for the user's ledger |
| Service.ExpenseService.RemoveExpenseForUser | money-spender/core/src/main/java/core/ExpenseService.java:80-82 | the ledger's remove postconditions and result, for the user's ledger |
| Service.ExpenseService.FilterExpensesForUser | money-spender/core/src/main/java/core/ExpenseService.java:99-106 | the strategy's filter then its price-descending sort; with the defaults, the canonical view |
| Service.ExpenseService.GetAllExpensesForUser | money-spender/core/src/main/java/core/ExpenseService.java:114-116 | the ledger's list |
| Service.ExpenseService.GetExpensesCompared | money-spender/core/src/main/java/core/ExpenseService.java:125-129 | by default a permutation of the user's expenses, sorted for any lawful comparator |
| Service.ExpenseService.GetCategoriesForUser | money-spender/core/src/main/java/core/ExpenseService.java:137-139 | the ledger's set, equal to the list's categories when consistent |
| Service.ExpenseService.CalculateTotalExpenseValueForList | money-spender/core/src/main/java/core/ExpenseService.java:157-159 | the calculator's total; by default the price sum, non-negative for constructed expenses |
| Service.ExpenseService.CalculateTotalExpenseValueForUser | money-spender/core/src/main/java/core/ExpenseService.java:147-149 | the total over all the user's expenses |
| Service.ExpenseService.FindExpense | money-spender/core/src/main/java/core/ExpenseService.java:169-176 | found iff an equal expense is stored, and then it is the first equal entry; otherwise null |
| Restapi.ValidateCategory | money-spender/restapi/src/main/java/restapi/RestapiService.java:55-69 | succeeds iff exactly one input is non-empty (no trimming), returning it unchanged; neither gives "Please provide a category.", both give the other message |
| Restapi.MatchesPricePattern | money-spender/restapi/src/main/java/restapi/RestapiService.java:83 | the language of `[0-9]+(\.[0-9]{1,2})?` matched against the whole string: digits, optionally followed by a dot and one or two digits |
| Restapi.IsPrice | money-spender/restapi/src/main/java/restapi/RestapiService.java:83 | decides that language by looking for the dot two or three places from the end; equivalence in Restapi.IsPriceMatchesPattern |
| Restapi.IsPriceMatchesPattern | money-spender/restapi/src/main/java/restapi/RestapiService.java:83 | the price decision procedure accepts exactly the strings `[0-9]+(\.[0-9]{1,2})?` matches |
| Restapi.ConvertPrice | money-spender/restapi/src/main/java/restapi/RestapiService.java:79-88 | fails iff blank or outside the pattern; blank is an IllegalArgument "Please provide a price.", a mismatch a NumberFormat "Please provide a valid price."; an accepted value is never negative |
| Restapi.PriceCents | money-spender/restapi/src/main/java/restapi/RestapiService.java:86 | `Double.parseDouble` of an accepted price, times 100, exactly; its value on each shape is stated by the three lemmas below |
| Restapi.FormatCentsIsPrice | money-spender/restapi/src/main/java/restapi/RestapiService.java:83-87 | the two-decimal rendering of an amount matches the price pattern and is worth exactly that amount |
| Restapi.ConvertFormatRoundTrip | money-spender/restapi/src/main/java/restapi/RestapiService.java:83-87 | every amount of cents written with two decimals is accepted and read back exactly |
| Restapi.ConvertWholeNumber | money-spender/restapi/src/main/java/restapi/RestapiService.java:83-87 | every digit string, leading zeros included ("007", "0"), is accepted and read as that many whole units |
| Restapi.ConvertOneDecimalDigit | money-spender/restapi/src/main/java/restapi/RestapiService.java:83-87 | digits, a dot and one digit are accepted; the digit counts tenths |
| Restapi.ConvertTwoDecimalDigits | money-spender/restapi/src/main/java/restapi/RestapiService.java:83-87 | digits, a dot and two digits are accepted; the two digits count cents |
| Restapi.ConvertOneDecimal | money-spender/restapi/src/main/java/restapi/RestapiService.java:86 | "12.5" is 1250 cents |
| Restapi.ConvertTwoDecimals | money-spender/restapi/src/main/java/restapi/RestapiService.java:86 | "12.05" is 1205 cents |
| Restapi.ConvertThreeDecimalsFails | money-spender/restapi/src/main/java/restapi/RestapiService.java:83-85 | "12.505" is a number format error |
| Restapi.ConvertSignFails | money-spender/restapi/src/main/java/restapi/RestapiService.java:83-85 | "-5" is a number format error |
| Restapi.ConvertNoIntegerPartFails | money-spender/restapi/src/main/java/restapi/RestapiService.java:83-85 | ".5" is a number format error |
| Restapi.ConvertBlankFails | money-spender/restapi/src/main/java/restapi/RestapiService.java:80-82 | blank text is a missing price |
| Restapi.Get | money-spender/restapi/src/main/java/restapi/RestapiService.java:168-172 | `Map.get`: the value under the key, or null when the key is absent |
| Restapi.PrepareExpense | money-spender/restapi/src/main/java/restapi/RestapiService.java:168-178 | a success is always a valid expense, and the Expense constructor's negative-price error can never arise |
| Restapi.PrepareExpenseOrder | money-spender/restapi/src/main/java/restapi/RestapiService.java:168-178 | the first failing step decides the error: missing price (null dereference), then category choice, then price, then the Expense fields |
| Restapi.BothCategoriesExample | money-spender/restapi/src/main/java/restapi/RestapiService.java:174 | both categories given fails even with a valid price and fields |
| Restapi.CreateNewExpense | money-spender/restapi/src/main/java/restapi/RestapiService.java:165-181 | stores nothing on a failed check; otherwise appends the prepared expense and its category to the user's ledger, keeping the invariant |

## Left out

- **Floating point.** Prices are exact integer cents, not `double`. So the model has no summation drift and no `Double.compare` corner cases (NaN, -0.0). It also leaves out `%.2f` rendering in `toString` and the rounding inside `Double.parseDouble`.
- **Mutable Expense objects.** An Expense is an immutable value. Java can change a stored expense through a setter, and that change is seen through every reference to it (aliasing). Neither is modelled.
- **Dates.ParseDate: signed years.** The parser reads exactly ten characters, so the year is always four unsigned digits. `yyyy` also refuses a fifth unsigned digit, so "01.01.10000" fails in both. But `yyyy` accepts a sign followed by more digits, as in "01.01.+10000". The model refuses that text.
- Expenses.NewExpense: only dates with a year from 1 to 9999 are accepted. Java accepts any `LocalDate`, and `dd.MM.yyyy` renders the others differently: year 10000 as "01.01.+10000", and year 0 (1 BCE) as "01.01.0001", which reads back as year 1. The model's `Date` text is always four unsigned digits, so those renderings and the date changes they cause on re-reading are not modelled.
- Expenses.Equals: stated only for dates with a year from 1 to 9999, for the same reason. Outside that range, two different years can share a date text (0 and 1, both "0001"), and then Java's `equals` is weaker than value identity.
- **Filtering: re-reading dates.** The filter compares each expense's stored date directly. The code re-parses the date text (ExpenseFiltererImpl.java:46). `Dates.ParseFormatRoundTrip` shows that re-parsing gives the same date.
- **Filtering.GetExpensesCompared: the sort algorithm.** The model is a stable insertion sort, not Java's TimSort. For a comparator that breaks its contract the model still returns a permutation, where TimSort may throw.
- **Null arguments.** These are not modelled, because the model's arguments are never null:
  - `removeExpense(null)` returns false;
  - `updateExpense(null, e)` reports "Expense not found.";
  - `updateExpense(e, null)` reports "Expense not found." when `e` is not stored, and throws a NullPointerException when it is;
  - `findExpense(user, null)` returns null, because no expense equals null;
  - the constructors throw on a null list or user.
- **Methods outside the core.** Not modelled:
  - the no-argument constructors `Expense()` and `User()`, which exist for deserialisation and leave fields null;
  - the plain getters, `hashCode` and `toString`.
- **Ledger.ExpenseHandlerImpl.RemoveExpense: duplicates.** The invariant is promised only for lists without duplicates. The code breaks it otherwise (Ledger.DuplicateRemoveBreaksInvariant).
- **Ledger.ExpenseHandlerImpl.UpdateExpense: duplicates.** The same applies (Ledger.DuplicateUpdateBreaksInvariant).
- **Strategy interfaces.** `ExpenseFilterer` and `ExpenseCalculator` are records of total functions, not interfaces. An implementation that throws outside that shape, or has side effects, cannot be plugged in.
- **Persistence and lookup.** The model leaves out JSON persistence, `saveFile` and the user lookup `getUserByUsername`. `Restapi.CreateNewExpense` receives the user directly and returns an outcome instead of the user. The rest of RestapiService is delegation to persistence and is also not modelled.
- **Restapi.PrepareExpense: keys mapped to null.** A key present in the request map with a null value is not modelled; only a missing key is. A missing "price" is the null dereference at RestapiService.java:172.
- **String length.** Java's `length()` counts UTF-16 units. The model counts characters.
- **Outside the model.** The UI, the REST routing and the HTTP client are not part of this model, and neither is `ListAndValueContainer`.
