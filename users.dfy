/**
 * User: a username of 1 to 15 ASCII letters, a non-empty password, and the ledger that
 * holds the user's expenses. The setters check before they assign.
 */
module Users {
  import opened Wrappers
  import opened Text
  import opened Expenses
  import opened Ledger

  const MaxUsernameLength: int := 15

  /** What `setUsername` accepts. */
  predicate UsernameIsValid(username: string) {
    |username| <= MaxUsernameLength && IsLetters(username)
  }

  /** What `setPassword` accepts: any non-empty text, blank text included. */
  predicate PasswordIsValid(password: string) {
    |password| > 0
  }

  /** The checks of `setUsername`, in order: null or empty, too long, not letters only. */
  function ValidateUsername(username: Option<string>): (r: Outcome<Error>)
    ensures r.Pass? <==> username.Some? && UsernameIsValid(username.value)
    ensures r.Fail? ==> r.error == if username.None? || |username.value| == 0 then IllegalArgument("Username cannot be null or empty")
                                   else if |username.value| > MaxUsernameLength then IllegalArgument("Username cannot exceed 15 characters")
                                   else IllegalArgument("Username should only contain alphabetic characters")
  {
    if username.None? || |username.value| == 0 then Fail(IllegalArgument("Username cannot be null or empty"))
    else if |username.value| > MaxUsernameLength then Fail(IllegalArgument("Username cannot exceed 15 characters"))
    else if !IsLetters(username.value) then Fail(IllegalArgument("Username should only contain alphabetic characters"))
    else Pass
  }

  /** The check of `setPassword`: null or empty is refused. */
  function ValidatePassword(password: Option<string>): (r: Outcome<Error>)
    ensures r.Pass? <==> password.Some? && PasswordIsValid(password.value)
    ensures r.Fail? ==> r.error == IllegalArgument("Password cannot be null or empty")
  {
    if password.None? || |password.value| == 0 then Fail(IllegalArgument("Password cannot be null or empty")) else Pass
  }

  /** The length limit is inclusive, and hyphens, digits and blank passwords behave as documented. */
  lemma ValidationExamples()
    ensures ValidateUsername(Some("VeryLongUsername")) == Fail(IllegalArgument("Username cannot exceed 15 characters"))
    ensures ValidateUsername(Some("Abcdefghijklmno")) == Pass
    ensures ValidateUsername(Some("Kjell-Arne")) == Fail(IllegalArgument("Username should only contain alphabetic characters"))
    ensures ValidateUsername(Some("John123")) == Fail(IllegalArgument("Username should only contain alphabetic characters"))
    ensures ValidateUsername(Some("")) == Fail(IllegalArgument("Username cannot be null or empty"))
    ensures ValidateUsername(None) == Fail(IllegalArgument("Username cannot be null or empty"))
    ensures ValidatePassword(Some("   ")) == Pass
    ensures ValidatePassword(Some("")) == Fail(IllegalArgument("Password cannot be null or empty"))
  {
    assert IsLetters("Abcdefghijklmno");
    assert !IsAsciiLetter("Kjell-Arne"[5]);
    assert !IsAsciiLetter("John123"[4]);
  }

  class User {
    var username: string
    var password: string
    var expenseHandler: ExpenseHandlerImpl

    /** The state every constructed user is in. */
    ghost predicate Valid()
      reads this
    {
      UsernameIsValid(username) && PasswordIsValid(password)
    }

    /** The body of `new User(String, String, List)` once both setters have accepted. */
    constructor (username: string, password: string, expenses: seq<Expense>)
      requires UsernameIsValid(username) && PasswordIsValid(password)
      ensures this.username == username && this.password == password
      ensures fresh(expenseHandler)
      ensures expenseHandler.expenses == expenses && expenseHandler.categories == CategoriesOf(expenses)
      ensures Valid() && expenseHandler.Consistent()
    {
      this.username := username;
      this.password := password;
      expenseHandler := new ExpenseHandlerImpl.FromList(expenses);
    }

    /**
     * `new User(String, String, List)`: the username is checked first, then the password;
     * on success the user owns a fresh ledger holding the list and its categories.
     */
    static method New(username: Option<string>, password: Option<string>, expenses: seq<Expense>) returns (r: Result<User, Error>)
      ensures r.Ok? <==> ValidateUsername(username).Pass? && ValidatePassword(password).Pass?
      ensures ValidateUsername(username).Fail? ==> r == Err(ValidateUsername(username).error)
      ensures ValidateUsername(username).Pass? && ValidatePassword(password).Fail? ==> r == Err(ValidatePassword(password).error)
      ensures r.Ok? ==> fresh(r.value) && fresh(r.value.expenseHandler) && r.value.Valid() &&
                        r.value.username == username.value && r.value.password == password.value &&
                        r.value.expenseHandler.expenses == expenses &&
                        r.value.expenseHandler.categories == CategoriesOf(expenses)
    {
      var checkName := ValidateUsername(username);
      if checkName.Fail? {
        return Err(checkName.error);
      }
      var checkPassword := ValidatePassword(password);
      if checkPassword.Fail? {
        return Err(checkPassword.error);
      }
      var user := new User(username.value, password.value, expenses);
      return Ok(user);
    }

    /** `new User(String, String)`: as above with an empty ledger. */
    static method NewEmpty(username: Option<string>, password: Option<string>) returns (r: Result<User, Error>)
      ensures r.Ok? <==> ValidateUsername(username).Pass? && ValidatePassword(password).Pass?
      ensures ValidateUsername(username).Fail? ==> r == Err(ValidateUsername(username).error)
      ensures ValidateUsername(username).Pass? && ValidatePassword(password).Fail? ==> r == Err(ValidatePassword(password).error)
      ensures r.Ok? ==> fresh(r.value) && fresh(r.value.expenseHandler) && r.value.Valid() &&
                        r.value.username == username.value && r.value.password == password.value &&
                        r.value.expenseHandler.expenses == [] && r.value.expenseHandler.categories == {}
    {
      r := New(username, password, []);
    }

    /**
     * `new User(User)`: the same username, password and expense list in a ledger of its
     * own, so later changes to either user's ledger do not reach the other.
     */
    static method CopyOf(user: User) returns (r: Result<User, Error>)
      ensures user.Valid() ==> r.Ok?
      ensures r.Ok? ==> fresh(r.value) && fresh(r.value.expenseHandler) &&
                        r.value.expenseHandler != user.expenseHandler &&
                        r.value.username == user.username && r.value.password == user.password &&
                        r.value.expenseHandler.expenses == user.expenseHandler.expenses &&
                        r.value.expenseHandler.categories == CategoriesOf(user.expenseHandler.expenses)
    {
      var expenses := user.expenseHandler.GetAllExpenses();
      r := New(Some(user.username), Some(user.password), expenses);
    }

    /** `setUsername`: the name is stored only if every check passes. */
    method SetUsername(username: Option<string>) returns (r: Outcome<Error>)
      modifies this
      ensures r == ValidateUsername(username)
      ensures this.username == if r.Pass? then username.value else old(this.username)
      ensures password == old(password) && expenseHandler == old(expenseHandler)
      ensures old(Valid()) ==> Valid()
    {
      r := ValidateUsername(username);
      if r.Pass? {
        this.username := username.value;
      }
    }

    /** `setPassword`: the password is stored only if it is non-empty. */
    method SetPassword(password: Option<string>) returns (r: Outcome<Error>)
      modifies this
      ensures r == ValidatePassword(password)
      ensures this.password == if r.Pass? then password.value else old(this.password)
      ensures username == old(username) && expenseHandler == old(expenseHandler)
      ensures old(Valid()) ==> Valid()
    {
      r := ValidatePassword(password);
      if r.Pass? {
        this.password := password.value;
      }
    }
  }
}
