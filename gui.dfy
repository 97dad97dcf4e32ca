/** The decision logic of the application window, without the widgets:
    the logged-in/logged-out gate on `current_user`, the registration
    checks, the results area (a table or a text block) and the status line,
    and the parsing of the movie search filters. Message boxes become
    returned `Notice` values; work handed to background threads becomes a
    returned request, or a parameter carrying what the store answered. */
module Gui {
  import opened Values
  import opened Utils

  /** A message box: `showinfo` or `showerror`, with its title and text. */
  datatype Notice = Info(title: string, text: string) | Error(title: string, text: string)

  /** `current_user`, a dictionary with an id and a username once set. */
  datatype User = User(id: int, username: string)

  /** What an action gated on `current_user` does: show a notice and stop,
      or go on (open its dialog). */
  datatype Gate = Refused(notice: Notice) | Proceed

  /** What "view my nominations" does: show a notice and stop, or ask the
      store for the nominations of a user. */
  datatype Dispatch = Denied(notice: Notice) | FetchNominations(userId: int)

  // ---------------------------------------------------------------------
  // Registration checks (the dialog's submit handler)
  // ---------------------------------------------------------------------

  const AllFieldsRequired := "All fields are required"
  const PasswordsDoNotMatch := "Passwords do not match"
  const InvalidEmailFormat := "Invalid email format"
  const WeakPassword := "Password must be at least 8 characters with 1 uppercase, 1 lowercase, and 1 number"

  /** Outcome of the checks: the first failing check's message, or the
      go-ahead to call the store. */
  datatype Check = Rejected(message: string) | Accepted

  predicate AllFilled(username: string, email: string, password: string, confirm: string)
  {
    username != "" && email != "" && password != "" && confirm != ""
  }

  /** The checks run in order, and the first failure is reported. */
  function CheckRegistration(username: string, email: string, password: string, confirm: string): (r: Check)
    ensures r == Rejected(AllFieldsRequired) <==> !AllFilled(username, email, password, confirm)
    ensures r == Rejected(PasswordsDoNotMatch) <==>
              AllFilled(username, email, password, confirm) && password != confirm
    ensures r == Rejected(InvalidEmailFormat) <==>
              AllFilled(username, email, password, confirm) && password == confirm && !ValidateEmail(email)
    ensures r == Rejected(WeakPassword) <==>
              AllFilled(username, email, password, confirm) && password == confirm &&
              ValidateEmail(email) && !ValidatePasswordStrength(password)
    ensures r == Accepted <==>
              AllFilled(username, email, password, confirm) && password == confirm &&
              ValidateEmail(email) && ValidatePasswordStrength(password)
  {
    if username == "" || email == "" || password == "" || confirm == "" then Rejected(AllFieldsRequired)
    else if password != confirm then Rejected(PasswordsDoNotMatch)
    else if !ValidateEmail(email) then Rejected(InvalidEmailFormat)
    else if !ValidatePasswordStrength(password) then Rejected(WeakPassword)
    else Accepted
  }

  /** What the submit handler ends in: a message box (and whether the dialog
      closes), or an exception that escapes the handler. */
  datatype Reaction = Shown(notice: Notice, closesDialog: bool) | Raised(exception: string)

  /** `Database.register_user` declares five positional parameters
      (username, email, birth_date, gender, country), none with a default. */
  const RegisterUserParameters := 5
  /** The submit handler passes three: `(username, password, email)`. */
  const RegisterUserArgumentsPassed := 3

  /** The submit handler as written: once the checks pass, the call into the
      store has the wrong number of arguments, so Python raises TypeError
      before anything reaches the store, and no message box is shown. */
  function SubmitRegistrationAsWritten(username: string, email: string, password: string, confirm: string): (r: Reaction)
    ensures r.Raised? <==> CheckRegistration(username, email, password, confirm) == Accepted
    ensures r.Raised? ==> r.exception == "TypeError"
    ensures r.Shown? ==> !r.closesDialog && r.notice.Error?
    ensures CheckRegistration(username, email, password, confirm).Rejected? ==>
              r == Shown(Error("Error", CheckRegistration(username, email, password, confirm).message), false)
  {
    match CheckRegistration(username, email, password, confirm)
    case Rejected(message) => Shown(Error("Error", message), false)
    case Accepted =>
      if RegisterUserArgumentsPassed != RegisterUserParameters then Raised("TypeError")
      else Shown(Info("Success", "User registered successfully. You can now log in."), true)
  }

  lemma SubmitRegistrationAsWrittenExample()
    ensures SubmitRegistrationAsWritten("alice", "alice@example.com", "Abcdefg1", "Abcdefg1") == Raised("TypeError")
  {
    FullAddressAccepted();
    PasswordAccepts();
    assert CheckRegistration("alice", "alice@example.com", "Abcdefg1", "Abcdefg1") == Accepted;
  }

  /** The submit handler with the store call made as intended (each value in
      its declared position). `registered` is what the store call returned. */
  function SubmitRegistration(username: string, email: string, password: string, confirm: string,
                              registered: bool): (r: Reaction)
    ensures r.Shown?
    ensures r.closesDialog <==> CheckRegistration(username, email, password, confirm) == Accepted && registered
    ensures r.notice.Info? <==> r.closesDialog
    ensures CheckRegistration(username, email, password, confirm).Rejected? ==>
              r.notice == Error("Error", CheckRegistration(username, email, password, confirm).message)
  {
    match CheckRegistration(username, email, password, confirm)
    case Rejected(message) => Shown(Error("Error", message), false)
    case Accepted =>
      if registered then Shown(Info("Success", "User registered successfully. You can now log in."), true)
      else Shown(Error("Error", "Failed to register user. Please try again."), false)
  }

  /** A user is registered only when all four fields are filled in, the
      passwords agree, the e-mail matches the pattern and the password is
      strong. */
  lemma RegistrationSucceedsOnlyWhenValid(username: string, email: string, password: string, confirm: string,
                                           registered: bool)
    requires SubmitRegistration(username, email, password, confirm, registered).closesDialog
    ensures username != "" && email != "" && password != "" && confirm != ""
    ensures password == confirm
    ensures ValidateEmail(email) && ValidatePasswordStrength(password)
    ensures registered
  {
  }

  // ---------------------------------------------------------------------
  // Search filters for "top nominated movies"
  // ---------------------------------------------------------------------

  /** `str.isdigit` on one character, over Latin-1: the ASCII digits and the
      superscripts one, two and three. */
  predicate IsPyDigitChar(c: char)
  {
    IsDecimalDigit(c) || c == '\U{B9}' || c == '\U{B2}' || c == '\U{B3}'
  }

  /** `s.isdigit()`: non-empty, and every character a digit. */
  predicate PyIsDigit(s: string)
  {
    |s| > 0 && forall i :: 0 <= i < |s| ==> IsPyDigitChar(s[i])
  }

  datatype Filters = Filters(category: Option<string>, year: Option<int>)

  /** What `on_search` reads from the dialog, as written:
      `category or None`, and `int(year_text) if year_text.isdigit() else None`.
      `int` only reads decimal digits, so a superscript that `isdigit`
      lets through makes it raise ValueError. */
  function OnSearchAsWritten(categoryText: string, yearText: string): (r: Result<Filters>)
    ensures r.Fail? <==> PyIsDigit(yearText) && !IsDecimalString(yearText)
    ensures r.Fail? ==> r.error == "ValueError"
    ensures r.Ok? ==> (r.value.category == None <==> categoryText == "")
    ensures r.Ok? ==> (r.value.year.Some? <==> IsDecimalString(yearText))
  {
    var category := if categoryText == "" then None else Some(categoryText);
    if !PyIsDigit(yearText) then Ok(Filters(category, None))
    else if IsDecimalString(yearText) then Ok(Filters(category, Some(DigitsValue(yearText))))
    else Fail("ValueError")
  }

  lemma OnSearchAsWrittenRaises()
    ensures OnSearchAsWritten("", "\U{B2}") == Fail("ValueError")
    ensures OnSearchAsWritten("Best Picture", "20\U{B2}0") == Fail("ValueError")
  {
    assert !IsDecimalDigit("\U{B2}"[0]);
    assert !IsDecimalDigit("20\U{B2}0"[2]);
  }

  /** The filters `on_search` evidently means to read: the year is taken
      only from a run of decimal digits (`isdecimal`), so no superscript digit
      makes it raise. */
  function SearchFilters(categoryText: string, yearText: string): (f: Filters)
    ensures f.category == None <==> categoryText == ""
    ensures f.category.Some? ==> f.category.value == categoryText
    ensures f.year.Some? <==> IsDecimalString(yearText)
    ensures f.year.Some? ==> f.year.value == DigitsValue(yearText) && f.year.value >= 0
  {
    Filters(if categoryText == "" then None else Some(categoryText),
            if IsDecimalString(yearText) then Some(DigitsValue(yearText)) else None)
  }

  /** Wherever the handler as written does not raise, it reads the same
      filters as the corrected one; and the corrected one reads a filter
      from every input, including those the handler as written raises on. */
  lemma SearchFiltersAgreeWhenNoRaise(categoryText: string, yearText: string)
    ensures OnSearchAsWritten(categoryText, yearText).Ok? ==>
              OnSearchAsWritten(categoryText, yearText).value == SearchFilters(categoryText, yearText)
    ensures OnSearchAsWritten(categoryText, yearText).Fail? ==> SearchFilters(categoryText, yearText).year == None
  {
  }

  /** A year typed as its decimal form is read back as that year. */
  lemma SearchFiltersReadYear(categoryText: string, year: nat)
    ensures SearchFilters(categoryText, NatToString(year)).year == Some(year)
  {
    NatToStringRoundTrip(year);
  }

  /** Python truthiness of the optional filters: None, "" and 0 are false. */
  predicate CategoryGiven(category: Option<string>) { category.Some? && category.value != "" }

  predicate YearGiven(year: Option<int>) { year.Some? && year.value != 0 }

  const CategoryClauseStart := " in category '"
  const YearClauseStart := " from year "

  /** The `filter_text` of `display_top_movies`. The category clause, which
      names the category, is there exactly when a category is given, and the
      text is empty exactly when neither filter is given. */
  function FilterText(category: Option<string>, year: Option<int>): (text: string)
    ensures CategoryGiven(category) <==>
              |text| >= |CategoryClauseStart| && text[..|CategoryClauseStart|] == CategoryClauseStart
    ensures CategoryGiven(category) ==>
              |text| >= |CategoryClauseStart| + |category.value| + 1 &&
              text[..|CategoryClauseStart| + |category.value| + 1] == CategoryClauseStart + category.value + "'"
    ensures text == "" <==> !CategoryGiven(category) && !YearGiven(year)
  {
    var categoryClause := if CategoryGiven(category) then CategoryClauseStart + category.value + "'" else "";
    var yearClause := if YearGiven(year) then YearClauseStart + IntToString(year.value) else "";
    assert CategoryGiven(category) ==> (categoryClause + yearClause)[..|CategoryClauseStart|] == CategoryClauseStart;
    assert !CategoryGiven(category) && YearGiven(year) ==>
             (categoryClause + yearClause)[1] == YearClauseStart[1] != CategoryClauseStart[1];
    categoryClause + yearClause
  }

  /** The year clause follows the category text exactly when a non-zero year
      is given; so year 0 is as good as no year at all. */
  lemma FilterTextYearClause(category: Option<string>, year: Option<int>)
    ensures YearGiven(year) ==>
              FilterText(category, year)[|FilterText(category, None)|..] == YearClauseStart + IntToString(year.value)
    ensures !YearGiven(year) ==> FilterText(category, year) == FilterText(category, None)
  {
  }

  // ---------------------------------------------------------------------
  // The window's state
  // ---------------------------------------------------------------------

  const NoResultsFound := "No results found."

  /** One table row: each column's value, `""` where the item lacks the key. */
  function RowOf(item: Record, columns: seq<string>): (row: seq<Value>)
    ensures |row| == |columns|
    ensures forall j :: 0 <= j < |columns| ==>
              row[j] == (if columns[j] in item then item[columns[j]] else Str(""))
    decreases |columns|
  {
    if columns == [] then []
    else [Get(item, columns[0], Str(""))] + RowOf(item, columns[1..])
  }

  class App {
    /** `current_user`: None while logged out. */
    var currentUser: Option<User>
    /** The text of the "logged in as" label. */
    var userLabel: string
    /** The text of the status line. */
    var status: string
    /** The table's columns, and its rows in insertion order. */
    var columns: seq<string>
    var rows: seq<seq<Value>>
    /** The text block. */
    var text: string

    /** The window as the constructor leaves it, once it has started the
        background connection attempt. */
    constructor ()
      ensures currentUser == None && userLabel == "Not logged in"
      ensures status == "Connecting to database..."
      ensures columns == [] && rows == [] && text == ""
    {
      currentUser := None;
      userLabel := "Not logged in";
      status := "Connecting to database...";
      columns, rows, text := [], [], "";
    }

    /** `update_status` */
    method UpdateStatus(message: string)
      modifies this`status
      ensures status == message
    {
      status := message;
    }

    /** `clear_results`: both the table and the text block are emptied. */
    method ClearResults()
      modifies this`columns, this`rows, this`text
      ensures columns == [] && rows == [] && text == ""
    {
      columns, rows, text := [], [], "";
    }

    /** `display_text_results`: the text block holds exactly `t`. */
    method DisplayTextResults(t: string)
      modifies this`text
      ensures text == t
    {
      text := t;
    }

    /** `display_results_in_tree`: clears the results, then shows either the
        "no results" text or one row per item, in the items' order. */
    method DisplayResultsInTree(data: seq<Record>, cols: seq<string>)
      modifies this`columns, this`rows, this`text
      ensures data == [] ==> columns == [] && rows == [] && text == NoResultsFound
      ensures data != [] ==> columns == cols && text == ""
      ensures data != [] ==>
                |rows| == |data| && (forall i :: 0 <= i < |data| ==> rows[i] == RowOf(data[i], cols))
    {
      ClearResults();
      if data == [] {
        text := NoResultsFound;
        return;
      }
      columns := cols;
      var i := 0;
      while i < |data|
        invariant 0 <= i <= |data|
        invariant columns == cols && text == ""
        invariant |rows| == i
        invariant forall k :: 0 <= k < i ==> rows[k] == RowOf(data[k], cols)
      {
        rows := rows + [RowOf(data[i], cols)];
        i := i + 1;
      }
    }

    /** `on_login` of the login dialog: logs in as user 1 when both fields are
        filled in, and otherwise changes nothing. */
    method OnLogin(username: string, password: string) returns (notice: Option<Notice>)
      modifies this`currentUser, this`userLabel
      ensures username != "" && password != "" ==>
                notice == None && currentUser == Some(User(1, username)) &&
                userLabel == "Logged in as: " + username
      ensures username == "" || password == "" ==>
                notice == Some(Error("Error", "Please enter both username and password")) &&
                currentUser == old(currentUser) && userLabel == old(userLabel)
    {
      if username == "" || password == "" {
        return Some(Error("Error", "Please enter both username and password"));
      }
      currentUser := Some(User(1, username));
      userLabel := "Logged in as: " + username;
      notice := None;
    }

    /** `on_register` of the login dialog: only a notice; it changes nothing. */
    method OnRegister(username: string, password: string) returns (notice: Notice)
      ensures username == "" || password == "" ==>
                notice == Error("Error", "Please enter both username and password")
      ensures username != "" && password != "" ==>
                notice == Info("Registration", "Registration feature will be implemented in the next phase")
    {
      if username == "" || password == "" {
        notice := Error("Error", "Please enter both username and password");
      } else {
        notice := Info("Registration", "Registration feature will be implemented in the next phase");
      }
    }

    /** `register_user` (the menu action): refused while logged in. */
    method RegisterUser() returns (g: Gate)
      ensures g.Proceed? <==> currentUser.None?
      ensures g.Refused? ==>
                g.notice == Info("Already Logged In", "You are already logged in. Log out to register a new user.")
    {
      if currentUser.Some? {
        return Refused(Info("Already Logged In", "You are already logged in. Log out to register a new user."));
      }
      g := Proceed;
    }

    /** `add_nomination` (the menu action): refused while logged out. */
    method AddNomination() returns (g: Gate)
      ensures g.Proceed? <==> currentUser.Some?
      ensures g.Refused? ==> g.notice == Info("Login Required", "Please login to add a nomination")
    {
      if currentUser.None? {
        return Refused(Info("Login Required", "Please login to add a nomination"));
      }
      g := Proceed;
    }

    /** The nomination dialog's submit handler: all three fields are needed;
        nothing is sent to the store. */
    method SubmitNomination(staff: string, movie: string, category: string) returns (notice: Notice)
      modifies this`status
      ensures staff == "" || movie == "" || category == "" ==>
                notice == Error("Error", AllFieldsRequired) && status == old(status)
      ensures staff != "" && movie != "" && category != "" ==>
                notice == Info("Success", "Nomination recorded: " + staff + " for " + movie + " in category " + category) &&
                status == "Nomination added: " + staff + " for " + movie
    {
      if staff == "" || movie == "" || category == "" {
        return Error("Error", AllFieldsRequired);
      }
      notice := Info("Success", "Nomination recorded: " + staff + " for " + movie + " in category " + category);
      UpdateStatus("Nomination added: " + staff + " for " + movie);
    }

    /** `view_user_nominations`: refused while logged out; otherwise asks the
        store for the logged-in user's nominations. */
    method ViewUserNominations() returns (d: Dispatch)
      modifies this`status
      ensures currentUser.None? ==>
                d == Denied(Info("Login Required", "Please login to view your nominations")) &&
                status == old(status)
      ensures currentUser.Some? ==>
                d == FetchNominations(currentUser.value.id) && status == "Fetching your nominations..."
    {
      if currentUser.None? {
        return Denied(Info("Login Required", "Please login to view your nominations"));
      }
      UpdateStatus("Fetching your nominations...");
      d := FetchNominations(currentUser.value.id);
    }

    /** `display_user_nominations` */
    method DisplayUserNominations(nominations: seq<Record>)
      modifies this`columns, this`rows, this`text, this`status
      ensures nominations == [] ==>
                columns == [] && rows == [] && text == "You haven't made any nominations yet." &&
                status == "No nominations found."
      ensures nominations != [] ==>
                columns == ["id", "staff_name", "movie_title", "category"] && text == "" &&
                |rows| == |nominations| &&
                (forall i :: 0 <= i < |nominations| ==> rows[i] == RowOf(nominations[i], columns)) &&
                status == "Found " + NatToString(|nominations|) + " nomination(s)."
    {
      if nominations == [] {
        ClearResults();
        DisplayTextResults("You haven't made any nominations yet.");
        UpdateStatus("No nominations found.");
        return;
      }
      DisplayResultsInTree(nominations, ["id", "staff_name", "movie_title", "category"]);
      UpdateStatus("Found " + NatToString(|nominations|) + " nomination(s).");
    }

    /** `display_top_movies` */
    method DisplayTopMovies(movies: seq<Record>, category: Option<string>, year: Option<int>)
      modifies this`columns, this`rows, this`text, this`status
      ensures movies == [] ==>
                columns == [] && rows == [] && text == "No movies found matching your criteria." &&
                status == "No movies found."
      ensures movies != [] ==>
                columns == ["title", "nomination_count"] && text == "" &&
                |rows| == |movies| &&
                (forall i :: 0 <= i < |movies| ==> rows[i] == RowOf(movies[i], columns)) &&
                status == "Found " + NatToString(|movies|) + " top nominated movies" + FilterText(category, year) + "."
    {
      if movies == [] {
        ClearResults();
        DisplayTextResults("No movies found matching your criteria.");
        UpdateStatus("No movies found.");
        return;
      }
      DisplayResultsInTree(movies, ["title", "nomination_count"]);
      UpdateStatus("Found " + NatToString(|movies|) + " top nominated movies" + FilterText(category, year) + ".");
    }

    /** `display_staff_stats` */
    method DisplayStaffStats(stats: Record, staffName: string)
      modifies this`columns, this`rows, this`text, this`status
      ensures columns == [] && rows == []
      ensures stats == map[] ==>
                text == "No information found for '" + staffName + "'." && status == text
      ensures stats != map[] ==>
                text == FormatStaffStats(stats) && status == "Displaying statistics for " + staffName
    {
      ClearResults();
      if stats == map[] {
        DisplayTextResults("No information found for '" + staffName + "'.");
        UpdateStatus("No information found for '" + staffName + "'.");
        return;
      }
      DisplayTextResults(FormatStaffStats(stats));
      UpdateStatus("Displaying statistics for " + staffName);
    }
  }

  /** A client of the window: a fresh window, then a refused nomination, the
      register dialog, a login, the nominations view and a nomination, in
      that order. Only the login's frame includes `current_user`, so only a
      login with both fields filled in logs the user in. */
  method Session(username: string, password: string) returns (app: App)
    ensures username != "" && password != "" ==> app.currentUser == Some(User(1, username))
    ensures username == "" || password == "" ==> app.currentUser == None
  {
    app := new App();
    var g := app.AddNomination();
    assert g.Refused?;
    var _ := app.OnRegister(username, password);
    var _ := app.OnLogin(username, password);
    var _ := app.ViewUserNominations();
    var _ := app.SubmitNomination("Jane Doe", "Example Movie", "Best Picture");
  }
}
