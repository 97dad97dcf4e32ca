# Movie Awards Oracle: the decision logic, in Dafny

Movie Awards Oracle is a desktop front end over a relational store of film
awards: users register and log in, submit nominations and browse reports.
This project models the parts of it that decide something:

- `values.dfy` (module `Values`): the Python values found in row
  dictionaries (`str`, `int`, `None`), `dict.get` with a default, `str()` of
  an integer and `int()` of a run of decimal digits, and the round trip
  between the two.
- `utils.dfy` (module `Utils`): the helper module. `validate_email` is a
  hand-written matcher proved equal to a declarative reading of its regular
  expression (`$` also matches before one final newline).
  `validate_password_strength` is characterised exactly and shown monotone
  under appending. The four display formatters keep their defaults for
  missing keys. `format_dream_team` is a loop that fills a map.
- `database.dfy` (module `Database`): the age stored at registration, checked
  against an independent definition (the number of birthdays reached). The
  `Db` class holds the `connection` field and the connect-if-unset guard that
  starts every query.
- `gui.dfy` (module `Gui`): the window's controller without its widgets.
  - The `App` class holds `current_user`, the status line and the results
    area (a table or a text block).
  - The login gate says which actions are refused in which state.
  - The registration checks report the first failure.
  - The movie search reads its optional filters and builds the status
    line's filter text.

I/O becomes parameters:
- `date.today()` becomes `today`.
- What the MySQL driver's connect call produced becomes `attempt`.
- What the store answered to a statement becomes `accepted`, `answer` or
  `registered`.

Message boxes become returned `Notice` values. Work handed to a background
thread becomes a returned request (`Dispatch`), or a parameter holding the
rows the thread fetched.

The nomination dialog only checks that the category is non-empty: its
combo box accepts free text. The category only appears in the success
notice; nothing from that dialog is sent to the store.

## Model

| member | source | states |
|---|---|---|
| `Values.NatToStringRoundTrip` | src/gui.py:438 | `int()` of `str(n)` gives back `n`; `str(n)` is a run of decimal digits with no leading zero |
| `Utils.ValidateEmail` | src/utils.py:5-8 | `validate_email` accepts exactly the strings L "@" D "." T, where L is a non-empty run of `[A-Za-z0-9._%+-]`, D a non-empty run of `[A-Za-z0-9.-]` and T two or more ASCII letters, optionally followed by one newline |
| `Utils.MatchCoreCorrect` | src/utils.py:7-8 | taking the first `@` and the last `.` as split points decides the whole-pattern match, both ways |
| `Utils.SplitAtIsOnlyAt` | src/utils.py:7 | neither character class admits `@`, so a match has exactly one `@` |
| `Utils.AcceptedEmailShape` | src/utils.py:5-8 | an accepted address has exactly one `@`, with a `.` after it |
| `Utils.ValidateEmailFromSplit` | src/utils.py:7-8 | any split that fits the pattern is accepted, with or without one trailing newline |
| `Utils.EmailAccepts` | src/utils.py:5-8 | `a@b.co` is accepted, alone and followed by a newline |
| `Utils.FullAddressAccepted` | src/utils.py:5-8 | `alice@example.com` is accepted |
| `Utils.EmailRejects` | src/utils.py:5-8 | the empty string, `a@b`, `a.com` and `a@b.c` are rejected |
| `Utils.FirstIndexOf` | src/utils.py:7 | the index of the first occurrence of a character, or None when it is absent |
| `Utils.LastIndexOf` | src/utils.py:7 | the index of the last occurrence of a character, or None when it is absent |
| `Utils.AnyChar` | src/utils.py:15-20 | `any(p(c) for c in s)` holds exactly when some character satisfies `p` |
| `Utils.ValidatePasswordStrength` | src/utils.py:10-21 | true exactly when the length is at least 8 and some character is uppercase, some lowercase and some a digit |
| `Utils.PasswordStrengthMonotone` | src/utils.py:13-21 | appending characters to an accepted password keeps it accepted |
| `Utils.PasswordAccepts` | src/utils.py:10-21 | `Abcdefg1` is accepted |
| `Utils.PasswordTooShort` | src/utils.py:13-14 | `Ab1` is rejected for its length alone |
| `Utils.PasswordWithoutUpper` | src/utils.py:15-16 | `abcdefg1` is rejected for lacking an uppercase letter |
| `Utils.PasswordWithoutLower` | src/utils.py:17-18 | `ABCDEFG1` is rejected for lacking a lowercase letter |
| `Utils.PasswordWithoutDigit` | src/utils.py:19-20 | `Abcdefgh` is rejected for lacking a digit |
| `Utils.FormatUserNomination` | src/utils.py:23-25 | `format_user_nomination`: staff name, " - ", movie title, " (", category, ")", each field rendered with `str()` and read with its default |
| `Utils.UserNominationFieldDefaults` | src/utils.py:25 | for every record, a missing `staff_name`, `movie_title` or `category` formats exactly as if it held "Unknown" |
| `Utils.UserNominationDefaults` | src/utils.py:23-25 | a nomination with no fields reads `Unknown - Unknown (Unknown)` |
| `Utils.FormatStaffStats` | src/utils.py:27-33 | `format_staff_stats`: "name (role): n nomination(s), m Oscar(s)", each field rendered with `str()` and read with its default |
| `Utils.StaffStatsFieldDefaults` | src/utils.py:29-32 | for every record, a missing `name` formats as "Unknown", a missing `role` as "Staff", and a missing `nomination_count` or `oscar_count` as 0 |
| `Utils.StaffStatsDefaults` | src/utils.py:27-33 | staff stats with no fields read `Unknown (Staff): 0 nomination(s), 0 Oscar(s)` |
| `Utils.FormatDreamMember` | src/utils.py:39 | one role's line of `format_dream_team`: "name: count Oscar(s)" |
| `Utils.DreamMemberFieldDefaults` | src/utils.py:39 | for every record, a missing `name` formats as "Unknown" and a missing `oscar_count` as 0 |
| `Utils.DreamMemberDefaults` | src/utils.py:39 | a team member with no fields reads `Unknown: 0 Oscar(s)` |
| `Utils.FormatDreamTeam` | src/utils.py:35-40 | the result has exactly the input's roles, each mapped to that member's `name: count Oscar(s)` line |
| `Utils.FormatTopItem` | src/utils.py:44 | one line of `format_top_items`: "title: count", read with the caller's two keys |
| `Utils.TopItemFieldDefaults` | src/utils.py:44 | for every item and two distinct keys, a missing title formats as "Unknown" and a missing count as 0 |
| `Utils.TopItemDefaults` | src/utils.py:44 | an item with neither key reads `Unknown: 0` |
| `Utils.FormatTopItems` | src/utils.py:42-44 | one line per item, same length and order as the input, line i formatted from item i |
| `Database.AgeOn` | src/database.py:46 | the age is the year difference or one less, and one less exactly when today's (month, day) is before the birthday's |
| `Database.AgeCountsAnniversaries` | src/database.py:44-46 | the n-th anniversary of the birth date is on or before today exactly when n is at most the age |
| `Database.AgeBounds` | src/database.py:44-46 | a birth date on or before today gives an age of at least 0; on the birthday itself the age is the full year difference |
| `Database.AgeExamples` | src/database.py:46 | born 2000-05-01: 23 on 2024-04-01, 24 on 2024-05-01, 24 on 2024-06-01 |
| `Database.Db.constructor` | src/database.py:8-9 | a new client holds no connection |
| `Database.Db.Connect` | src/database.py:16-30 | on success the result is true and the handle is stored; on failure it is false and `connection` keeps its old value |
| `Database.Db.EnsureConnection` | src/database.py:39-40 | connects exactly when no connection is held, and never replaces one already held |
| `Database.Db.RegisterUser` | src/database.py:37-59 | guarded connect; with a connection the row sent carries the computed age; true exactly when a connection is held and the store accepts |
| `Database.Db.AddNomination` | src/database.py:61-75 | guarded connect; true exactly when a connection is held and the store accepts |
| `Database.Db.FetchAll` | src/database.py:77-93 | guarded connect; the fetched rows, or the empty list with no connection or on a store error |
| `Database.Db.FetchOne` | src/database.py:116-130 | guarded connect; the fetched row, or the empty dictionary when there is no connection, no row or a store error |
| `Database.TwoQueries` | src/database.py:95-98 | on a fresh client the first query connects and the second reuses it; when the first attempt fails the field stays unset, so the second query's own connect-if-unset guard connects again |
| `Gui.CheckRegistration` | src/gui.py:313-327 | each message is reported exactly when all earlier checks pass and its own fails. The order is: a field empty, passwords differ, e-mail invalid, password weak. The store is reached exactly when all pass |
| `Gui.SubmitRegistrationAsWritten` | src/gui.py:307-336 | the submit handler as written: it raises TypeError exactly when the checks pass, and otherwise shows the failed check's error without closing the dialog; no input closes it |
| `Gui.SubmitRegistrationAsWrittenExample` | src/gui.py:330 | `alice`, `alice@example.com`, `Abcdefg1`, `Abcdefg1` raises TypeError as written |
| `Gui.SubmitRegistration` | src/gui.py:307-336 | with the store call corrected, the success notice and the closing dialog come exactly when the checks pass and the store registers the user. A failed check shows its own message |
| `Gui.RegistrationSucceedsOnlyWhenValid` | src/gui.py:313-334 | a registration succeeds only when the four fields are non-empty, the passwords match, the e-mail is valid and the password is strong |
| `Gui.OnSearchAsWritten` | src/gui.py:436-438 | the search handler's reading as written: it raises ValueError exactly on `isdigit` text that is not decimal; otherwise an empty category becomes None and the year is present exactly on decimal text |
| `Gui.OnSearchAsWrittenRaises` | src/gui.py:438 | as written, a year field holding a superscript digit makes `int` raise ValueError |
| `Gui.SearchFilters` | src/gui.py:436-438 | an empty category becomes None; the year is present exactly when the text is a run of decimal digits, and is then its value |
| `Gui.SearchFiltersAgreeWhenNoRaise` | src/gui.py:436-438 | wherever the handler as written does not raise, it reads the same filters as the corrected one; where it raises, the corrected one reads no year |
| `Gui.SearchFiltersReadYear` | src/gui.py:437-438 | a year typed in its decimal form is read back as that year |
| `Gui.FilterText` | src/gui.py:464-468 | the category clause `in category '<name>'` opens the text exactly when the category is truthy, and it names that category; the text is empty exactly when neither filter is truthy |
| `Gui.FilterTextYearClause` | src/gui.py:467-468 | the year clause follows the category text exactly when the year is truthy; year 0 counts as no year |
| `Gui.RowOf` | src/gui.py:207 | one value per column, in column order; `""` for a key the item lacks |
| `Gui.App.constructor` | src/gui.py:12-15 | logged out, label "Not logged in", results empty, status "Connecting to database..." |
| `Gui.App.UpdateStatus` | src/gui.py:171-174 | the status line shows the message |
| `Gui.App.ClearResults` | src/gui.py:176-189 | table columns, table rows and text block are all emptied |
| `Gui.App.DisplayTextResults` | src/gui.py:210-213 | the text block holds exactly the given text |
| `Gui.App.DisplayResultsInTree` | src/gui.py:191-208 | no data gives no rows and the text "No results found."; otherwise one row per item in input order, built by `RowOf`, with the given columns |
| `Gui.App.OnLogin` | src/gui.py:262-273 | `current_user` becomes user 1 with the given name exactly when both fields are non-empty; otherwise an error notice and nothing changes |
| `Gui.App.OnRegister` | src/gui.py:250-260 | only a notice (an error when a field is empty); it changes no state |
| `Gui.App.RegisterUser` | src/gui.py:279-283 | refused with a notice exactly when logged in; changes no state |
| `Gui.App.AddNomination` | src/gui.py:340-344 | refused with a notice exactly when logged out; changes no state |
| `Gui.App.SubmitNomination` | src/gui.py:372-385 | all three fields required; otherwise a success notice and a status line naming staff and movie |
| `Gui.App.ViewUserNominations` | src/gui.py:389-403 | refused with a notice and no state change when logged out; otherwise asks for the logged-in user's id |
| `Gui.App.DisplayUserNominations` | src/gui.py:405-415 | no nominations gives the "You haven't made any nominations yet." text; otherwise the four-column table and a count in the status line |
| `Gui.App.DisplayTopMovies` | src/gui.py:453-470 | no movies gives the "No movies found" text; otherwise the title/count table and a status line ending in the filter text |
| `Gui.App.DisplayStaffStats` | src/gui.py:492-503 | an empty result names the staff member as not found; otherwise the text block holds the formatted staff stats |
| `Gui.Session` | src/gui.py:262-273 | one fixed sequence from a fresh window (refused nomination, register dialog, login, nominations view, nomination) ends logged in as user 1 exactly when both login fields are filled in; the other actions leave `current_user` alone because their frames exclude it |

## Left out

- Widgets, styles, dialog construction, column headings (`capitalize`) and widths, scrollbars (src/gui.py:12-170 apart from the state the constructor sets): layout, not logic.
- Background threads and the hand-off back to the UI thread with `root.after`. The model takes what a thread fetched as a parameter. No ordering between concurrent fetches is modelled.
- `check_database_connection` (src/gui.py:215-229): its status updates happen on a background thread.
- SQL text, the placeholder statements and the canned rows they return, and the hard-coded dream team (src/database.py:172-196). The store's answer is a parameter of each query.
- `Database.close` (src/database.py:32-35): it closes the handle but leaves the field set, so the guard would not reconnect afterwards. A handle's open/closed state is not part of the model.
- Printing of diagnostics on store errors: output only.
- `get_top_nominated_movies`, `get_top_actor_birth_countries`, `get_staff_by_country`, `get_top_production_companies`, `get_non_english_oscar_winners` and `get_staff_list` are all covered by `Database.Db.FetchAll`. They differ only in their SQL.
- The other result views: `display_top_countries`, `display_staff_by_country`, `display_top_companies`, `display_non_english_winners` and `display_staff_list`. They follow the same pattern as `DisplayUserNominations`, with other columns and texts.
- `display_dream_team`: it walks a dictionary in insertion order, which a Dafny map does not have.
- `view_staff_stats` (it always asks for staff id 1), the `askstring` prompts and the window's remaining actions. These are stubs or dialogs.
- src/main.py (startup, exception hook, resource paths), build.py (packaging) and src/models.py (records without behaviour).
- Utils.ValidatePasswordStrength: counts only ASCII letters and digits as upper, lower and digit. Python's `isupper`, `islower` and `isdigit` also accept other Unicode characters, so the model rejects some non-ASCII passwords that Python accepts.
- Gui.OnSearchAsWritten: does not model the interpreter's limit on `int()` of long decimal text. Since CPython 3.11 (and its 3.7 to 3.10 security releases), by default `int()` raises ValueError on more than 4300 digits. The model reads a year from such text; a year field that long also raises as written. The limit depends on the interpreter and its settings.
- Gui.SearchFilters: reads a year from decimal text of any length. With `isdecimal` as the guard, Python would still raise on text over that 4300-digit limit.
- Gui.IsPyDigitChar: follows `str.isdigit` only up to U+00FF (the ASCII digits and the superscripts one to three). Characters above U+00FF never count as digits here.
- Values.Show: renders strings, integers and `None` only. No other value types appear in the rows the application formats.
- Utils.FormatDreamTeam: says nothing about the order of the returned dictionary's keys. Python keeps the input's insertion order; a Dafny map has no order.

## Findings

| source | as written | input that shows it | evidently intended | confidence | as-written member | corrected member |
|---|---|---|---|---|---|---|
| src/gui.py:330 | the registration dialog calls the store's `register_user` with three positional arguments (username, password, email); the method requires five (username, email, birth date, gender, country), so Python raises TypeError, which escapes the handler | username `alice`, e-mail `alice@example.com`, password and confirmation `Abcdefg1` | pass the username, e-mail, birth date, gender and country in their declared positions, and show the success or failure notice from the store's answer | not executed; high | `Gui.SubmitRegistrationAsWrittenExample` | `Gui.SubmitRegistration` |
| src/gui.py:438 | the year filter is guarded by `isdigit`, which also accepts superscript digits, but `int` accepts only decimal digits, so `int` raises ValueError inside the search handler | year text `²` | guard with `isdecimal`, so that the year is read exactly from runs of decimal digits and no superscript digit makes the handler raise (text over the interpreter's 4300-digit `int()` limit still raises; see Left out) | not executed; high | `Gui.OnSearchAsWrittenRaises` | `Gui.SearchFilters` |
