/** The validators and display formatters of the application's helper
    module: an e-mail pattern check, a password strength check, and
    formatters that turn row dictionaries into display strings. */
module Utils {
  import opened Values

  // ---------------------------------------------------------------------
  // Character classes (ASCII)
  // ---------------------------------------------------------------------

  predicate IsAsciiUpper(c: char) { 'A' <= c <= 'Z' }

  predicate IsAsciiLower(c: char) { 'a' <= c <= 'z' }

  predicate IsAsciiLetter(c: char) { IsAsciiUpper(c) || IsAsciiLower(c) }

  /** `[a-zA-Z0-9._%+-]`, the class of the part before the `@` */
  predicate IsLocalChar(c: char)
  {
    IsAsciiLetter(c) || IsDecimalDigit(c) || c == '.' || c == '_' || c == '%' || c == '+' || c == '-'
  }

  /** `[a-zA-Z0-9.-]`, the class of the domain part */
  predicate IsDomainChar(c: char)
  {
    IsAsciiLetter(c) || IsDecimalDigit(c) || c == '.' || c == '-'
  }

  predicate All(s: string, p: char -> bool)
  {
    forall i :: 0 <= i < |s| ==> p(s[i])
  }

  // ---------------------------------------------------------------------
  // validate_email
  // ---------------------------------------------------------------------

  /** The pattern `[a-zA-Z0-9._%+-]+@[a-zA-Z0-9.-]+\.[a-zA-Z]{2,}` matches
      the whole of `c` with the `@` at index `at` and the `\.` at index `dot`. */
  predicate SplitMatches(c: string, at: int, dot: int)
  {
    0 < at && at + 1 < dot && dot + 3 <= |c| &&
    c[at] == '@' && c[dot] == '.' &&
    All(c[..at], IsLocalChar) &&
    All(c[at + 1..dot], IsDomainChar) &&
    All(c[dot + 1..], IsAsciiLetter)
  }

  /** Declarative reading of the pattern: some choice of split points works. */
  ghost predicate MatchesPattern(c: string)
  {
    exists at, dot :: SplitMatches(c, at, dot)
  }

  /** Declarative reading of `re.match(pattern, s)` with the anchors `^` and
      `$`: `$` matches at the very end or just before one final newline. */
  ghost predicate EmailSpec(s: string)
  {
    MatchesPattern(s) || (|s| > 0 && s[|s| - 1] == '\n' && MatchesPattern(s[..|s| - 1]))
  }

  /** Index of the first occurrence of `ch` in `s`. */
  function FirstIndexOf(s: string, ch: char): (r: Option<nat>)
    ensures r.Some? ==> r.value < |s| && s[r.value] == ch && forall k :: 0 <= k < r.value ==> s[k] != ch
    ensures r.None? ==> forall k :: 0 <= k < |s| ==> s[k] != ch
    decreases |s|
  {
    if s == [] then None
    else if s[0] == ch then Some(0)
    else match FirstIndexOf(s[1..], ch)
      case None => None
      case Some(k) => Some(k + 1)
  }

  /** Index of the last occurrence of `ch` in `s`. */
  function LastIndexOf(s: string, ch: char): (r: Option<nat>)
    ensures r.Some? ==> r.value < |s| && s[r.value] == ch && forall k :: r.value < k < |s| ==> s[k] != ch
    ensures r.None? ==> forall k :: 0 <= k < |s| ==> s[k] != ch
    decreases |s|
  {
    if s == [] then None
    else if s[|s| - 1] == ch then Some(|s| - 1)
    else LastIndexOf(s[..|s| - 1], ch)
  }

  /** Matcher for the whole pattern. Neither character class admits `@`, so
      the `@` can only be the first one; the final run admits no `.`, so the
      `\.` can only be the last one. */
  function MatchCore(c: string): bool
  {
    match FirstIndexOf(c, '@')
    case None => false
    case Some(at) =>
      match LastIndexOf(c, '.')
      case None => false
      case Some(dot) => SplitMatches(c, at, dot)
  }


  lemma MatchCoreCorrect(c: string)
    ensures MatchCore(c) <==> MatchesPattern(c)
  {
    if MatchesPattern(c) {
      var at, dot :| SplitMatches(c, at, dot);
      // no '@' before `at`: every character there is in the local class
      assert forall k :: 0 <= k < at ==> c[..at][k] == c[k];
      assert FirstIndexOf(c, '@') == Some(at);
      // no '.' after `dot`: every character there is a letter
      assert forall k :: dot < k < |c| ==> c[dot + 1..][k - dot - 1] == c[k];
      assert LastIndexOf(c, '.') == Some(dot);
    }
  }

  /** `validate_email`: `bool(re.match(pattern, email))`. It accepts
      exactly the strings the pattern describes. */
  function ValidateEmail(email: string): (valid: bool)
    ensures valid <==> EmailSpec(email)
  {
    MatchCoreCorrect(email);
    if |email| > 0 && email[|email| - 1] == '\n' then
      MatchCoreCorrect(email[..|email| - 1]);
      MatchCore(email) || MatchCore(email[..|email| - 1])
    else
      MatchCore(email)
  }

  /** In a match, the `@` at the split point is the only one. */
  lemma SplitAtIsOnlyAt(c: string, at: int, dot: int)
    requires SplitMatches(c, at, dot)
    ensures forall k :: 0 <= k < |c| && c[k] == '@' ==> k == at
  {
    forall k | 0 <= k < |c| && k != at
      ensures c[k] != '@'
    {
      if k < at {
        assert c[..at][k] == c[k];
      } else if k < dot {
        assert c[at + 1..dot][k - at - 1] == c[k];
      } else if k > dot {
        assert c[dot + 1..][k - dot - 1] == c[k];
      }
    }
  }

  /** `s` has exactly one `@`, at index `at`, and a `.` somewhere after it
      with at least one character between them. */
  predicate OneAtThenDot(s: string, at: int)
  {
    0 < at < |s| && s[at] == '@' &&
    (forall k :: 0 <= k < |s| && s[k] == '@' ==> k == at) &&
    (exists dot :: at + 1 < dot < |s| && s[dot] == '.')
  }

  /** An accepted address has exactly one `@`, and a `.` after it. */
  lemma AcceptedEmailShape(email: string)
    requires ValidateEmail(email)
    ensures exists at :: OneAtThenDot(email, at)
  {
    assert MatchCore(email) || (|email| > 0 && email[|email| - 1] == '\n' && MatchCore(email[..|email| - 1]));
    var c := if MatchCore(email) then email else email[..|email| - 1];
    var at := FirstIndexOf(c, '@').value;
    var dot := LastIndexOf(c, '.').value;
    assert SplitMatches(c, at, dot);
    SplitAtIsOnlyAt(c, at, dot);
    assert forall k :: 0 <= k < |c| ==> email[k] == c[k];
    assert |email| == |c| || email[|c|] == '\n';
    assert OneAtThenDot(email, at);
  }

  /** Any split that fits the pattern makes the address valid, with or
      without one trailing newline. */
  lemma ValidateEmailFromSplit(c: string, at: int, dot: int)
    requires SplitMatches(c, at, dot)
    ensures ValidateEmail(c) && ValidateEmail(c + "\n")
  {
    assert (c + "\n")[..|c|] == c;
  }

  lemma EmailAccepts()
    ensures ValidateEmail("a@b.co") && ValidateEmail("a@b.co\n")
  {
    ValidateEmailFromSplit("a@b.co", 1, 3);
    assert "a@b.co" + "\n" == "a@b.co\n";
  }

  lemma FullAddressAccepted()
    ensures ValidateEmail("alice@example.com")
  {
    ValidateEmailFromSplit("alice@example.com", 5, 13);
  }

  lemma EmailRejects()
    ensures !ValidateEmail("")
    ensures !ValidateEmail("a@b")
    ensures !ValidateEmail("a.com")
    ensures !ValidateEmail("a@b.c")
  {
  }

  // ---------------------------------------------------------------------
  // validate_password_strength
  // ---------------------------------------------------------------------

  /** `any(p(c) for c in s)` */
  function AnyChar(s: string, p: char -> bool): (b: bool)
    ensures b <==> exists i :: 0 <= i < |s| && p(s[i])
    decreases |s|
  {
    if s == [] then false
    else if p(s[0]) then true
    else
      var b := AnyChar(s[1..], p);
      assert forall i :: 1 <= i < |s| ==> s[1..][i - 1] == s[i];
      b
  }

  /** `validate_password_strength`: at least 8 characters, and at least one
      uppercase letter, one lowercase letter and one digit. */
  function ValidatePasswordStrength(password: string): (ok: bool)
    ensures ok <==>
      |password| >= 8 &&
      (exists i :: 0 <= i < |password| && IsAsciiUpper(password[i])) &&
      (exists i :: 0 <= i < |password| && IsAsciiLower(password[i])) &&
      (exists i :: 0 <= i < |password| && IsDecimalDigit(password[i]))
  {
    if |password| < 8 then false
    else if !AnyChar(password, IsAsciiUpper) then false
    else if !AnyChar(password, IsAsciiLower) then false
    else if !AnyChar(password, IsDecimalDigit) then false
    else true
  }

  /** Appending characters never makes an accepted password weak. */
  lemma PasswordStrengthMonotone(password: string, suffix: string)
    requires ValidatePasswordStrength(password)
    ensures ValidatePasswordStrength(password + suffix)
  {
    var u :| 0 <= u < |password| && IsAsciiUpper(password[u]);
    var l :| 0 <= l < |password| && IsAsciiLower(password[l]);
    var d :| 0 <= d < |password| && IsDecimalDigit(password[d]);
    var longer := password + suffix;
    assert longer[u] == password[u] && longer[l] == password[l] && longer[d] == password[d];
  }

  lemma PasswordAccepts()
    ensures ValidatePasswordStrength("Abcdefg1")
  {
    var p := "Abcdefg1";
    assert IsAsciiUpper(p[0]) && IsAsciiLower(p[1]) && IsDecimalDigit(p[7]);
  }

  // Each failed check alone makes the password weak.

  lemma PasswordTooShort()
    ensures !ValidatePasswordStrength("Ab1")
  {
  }

  lemma PasswordWithoutUpper()
    ensures !ValidatePasswordStrength("abcdefg1")
  {
  }

  lemma PasswordWithoutLower()
    ensures !ValidatePasswordStrength("ABCDEFG1")
  {
  }

  lemma PasswordWithoutDigit()
    ensures !ValidatePasswordStrength("Abcdefgh")
  {
  }

  // ---------------------------------------------------------------------
  // Formatters: each is an f-string whose fields read a dictionary with
  // `.get(key, default)` and render the value with `str()`.
  // ---------------------------------------------------------------------

  /** `format_user_nomination` */
  function FormatUserNomination(nomination: Record): string
  {
    Show(Get(nomination, "staff_name", Str("Unknown"))) + " - " +
    Show(Get(nomination, "movie_title", Str("Unknown"))) + " (" +
    Show(Get(nomination, "category", Str("Unknown"))) + ")"
  }

  /** `format_staff_stats` */
  function FormatStaffStats(stats: Record): string
  {
    Show(Get(stats, "name", Str("Unknown"))) + " (" +
    Show(Get(stats, "role", Str("Staff"))) + "): " +
    Show(Get(stats, "nomination_count", Int(0))) + " nomination(s), " +
    Show(Get(stats, "oscar_count", Int(0))) + " Oscar(s)"
  }

  /** The line `format_dream_team` stores for one role. */
  function FormatDreamMember(person: Record): string
  {
    Show(Get(person, "name", Str("Unknown"))) + ": " +
    Show(Get(person, "oscar_count", Int(0))) + " Oscar(s)"
  }

  /** `format_dream_team`: fills a new dictionary role by role. The result
      has exactly the input's roles, each mapped to its member's line. */
  method FormatDreamTeam(team: map<string, Record>) returns (formatted: map<string, string>)
    ensures formatted.Keys == team.Keys
    ensures forall role :: role in team ==> formatted[role] == FormatDreamMember(team[role])
  {
    formatted := map[];
    var pending := team.Keys;
    while pending != {}
      invariant pending <= team.Keys
      invariant formatted.Keys == team.Keys - pending
      invariant forall role :: role in formatted ==> formatted[role] == FormatDreamMember(team[role])
      decreases |pending|
    {
      var role :| role in pending;
      formatted := formatted[role := FormatDreamMember(team[role])];
      pending := pending - {role};
    }
  }

  /** One line of `format_top_items`. */
  function FormatTopItem(item: Record, titleKey: string, countKey: string): string
  {
    Show(Get(item, titleKey, Str("Unknown"))) + ": " + Show(Get(item, countKey, Int(0)))
  }

  /** `format_top_items`: one line per item, in the items' order. */
  function FormatTopItems(items: seq<Record>, titleKey: string, countKey: string): (lines: seq<string>)
    ensures |lines| == |items|
    ensures forall i :: 0 <= i < |items| ==> lines[i] == FormatTopItem(items[i], titleKey, countKey)
    decreases |items|
  {
    if items == [] then []
    else [FormatTopItem(items[0], titleKey, countKey)] + FormatTopItems(items[1..], titleKey, countKey)
  }

  // Missing keys show the documented defaults, whatever the other keys
  // hold: a record without the key formats as if it held the default.

  lemma UserNominationFieldDefaults(nomination: Record)
    ensures "staff_name" !in nomination ==>
              FormatUserNomination(nomination) == FormatUserNomination(nomination["staff_name" := Str("Unknown")])
    ensures "movie_title" !in nomination ==>
              FormatUserNomination(nomination) == FormatUserNomination(nomination["movie_title" := Str("Unknown")])
    ensures "category" !in nomination ==>
              FormatUserNomination(nomination) == FormatUserNomination(nomination["category" := Str("Unknown")])
  {
  }

  lemma UserNominationDefaults()
    ensures FormatUserNomination(map[]) == "Unknown - Unknown (Unknown)"
  {
  }

  lemma StaffStatsFieldDefaults(stats: Record)
    ensures "name" !in stats ==> FormatStaffStats(stats) == FormatStaffStats(stats["name" := Str("Unknown")])
    ensures "role" !in stats ==> FormatStaffStats(stats) == FormatStaffStats(stats["role" := Str("Staff")])
    ensures "nomination_count" !in stats ==>
              FormatStaffStats(stats) == FormatStaffStats(stats["nomination_count" := Int(0)])
    ensures "oscar_count" !in stats ==> FormatStaffStats(stats) == FormatStaffStats(stats["oscar_count" := Int(0)])
  {
  }

  lemma StaffStatsDefaults()
    ensures FormatStaffStats(map[]) == "Unknown (Staff): 0 nomination(s), 0 Oscar(s)"
  {
    ShowZero();
    DefaultStaffLine();
  }

  /** The default staff line, put together from its default pieces. */
  lemma DefaultStaffLine()
    ensures "Unknown" + " (" + "Staff" + "): " + "0" + " nomination(s), " + "0" + " Oscar(s)"
         == "Unknown (Staff): 0 nomination(s), 0 Oscar(s)"
  {
  }

  lemma DreamMemberFieldDefaults(person: Record)
    ensures "name" !in person ==> FormatDreamMember(person) == FormatDreamMember(person["name" := Str("Unknown")])
    ensures "oscar_count" !in person ==> FormatDreamMember(person) == FormatDreamMember(person["oscar_count" := Int(0)])
  {
  }

  lemma DreamMemberDefaults()
    ensures FormatDreamMember(map[]) == "Unknown: 0 Oscar(s)"
  {
    ShowZero();
  }

  /** The two keys are parameters and may coincide: then a missing key shows
      "Unknown" in the title and 0 in the count, which no single stored
      value reproduces, so each default is stated for distinct keys. */
  lemma TopItemFieldDefaults(item: Record, titleKey: string, countKey: string)
    ensures titleKey !in item && titleKey != countKey ==>
              FormatTopItem(item, titleKey, countKey) == FormatTopItem(item[titleKey := Str("Unknown")], titleKey, countKey)
    ensures countKey !in item && titleKey != countKey ==>
              FormatTopItem(item, titleKey, countKey) == FormatTopItem(item[countKey := Int(0)], titleKey, countKey)
  {
  }

  lemma TopItemDefaults(titleKey: string, countKey: string)
    ensures FormatTopItem(map[], titleKey, countKey) == "Unknown: 0"
  {
    ShowZero();
  }
}
