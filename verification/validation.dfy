/** The form validators: each returns the error message to show under a
    field, or `None` when the value is acceptable. */
module Validation {
  import opened Outcomes
  import Strings

  /** JavaScript's `\s`: the ASCII blanks, no-break space, the Unicode
      space separators, line and paragraph separators and the BOM. */
  predicate IsSpace(c: char)
  {
    || c == '\t' || c == '\n' || c == '\U{000B}' || c == '\U{000C}' || c == '\r' || c == ' '
    || c == '\U{00A0}' || c == '\U{1680}' || ('\U{2000}' <= c <= '\U{200A}')
    || c == '\U{2028}' || c == '\U{2029}' || c == '\U{202F}' || c == '\U{205F}'
    || c == '\U{3000}' || c == '\U{FEFF}'
  }

  /** One run of `[^\s@]+`. */
  predicate IsWord(s: string)
  {
    |s| > 0 && forall k :: 0 <= k < |s| ==> !IsSpace(s[k]) && s[k] != '@'
  }

  /** `/^[^\s@]+@[^\s@]+\.[^\s@]+$/.test(s)`, read off the pattern: `s`
      splits as word, `@`, word, `.`, word. */
  ghost predicate MatchesEmailPattern(s: string)
  {
    exists i, j :: 0 < i < j < |s| - 1 && s[i] == '@' && s[j] == '.'
                   && IsWord(s[..i]) && IsWord(s[i + 1..j]) && IsWord(s[j + 1..])
  }

  /** The same test, decided directly: no whitespace, a single `@` that is
      not first, and a `.` after it with at least one character on each
      side. */
  predicate EmailShape(s: string)
  {
    && (forall k :: 0 <= k < |s| ==> !IsSpace(s[k]))
    && '@' in s
    && var at := Strings.IndexOf(s, '@');
       && 0 < at
       && '@' !in s[at + 1..]
       && at + 2 < |s|
       && '.' in s[at + 2..|s| - 1]
  }

  lemma EmailShapeMatchesPattern(s: string)
    ensures EmailShape(s) <==> MatchesEmailPattern(s)
  {
    if EmailShape(s) {
      ShapeGivesPattern(s);
    }
    if MatchesEmailPattern(s) {
      var i, j :| 0 < i < j < |s| - 1 && s[i] == '@' && s[j] == '.'
                  && IsWord(s[..i]) && IsWord(s[i + 1..j]) && IsWord(s[j + 1..]);
      PatternGivesShape(s, i, j);
    }
  }

  lemma ShapeGivesPattern(s: string)
    requires EmailShape(s)
    ensures MatchesEmailPattern(s)
  {
    var i := Strings.IndexOf(s, '@');
    var mid := s[i + 2..|s| - 1];
    var d := Strings.IndexOf(mid, '.');
    var j := i + 2 + d;
    assert s[j] == mid[d];
    assert forall k :: i + 1 <= k < |s| ==> s[k] != '@' by {
      forall k | i + 1 <= k < |s|
        ensures s[k] != '@'
      {
        assert s[k] == s[i + 1..][k - i - 1];
      }
    }
    assert forall k :: 0 <= k < i ==> s[k] != '@' by {
      forall k | 0 <= k < i
        ensures s[k] != '@'
      {
        assert s[k] == s[..i][k];
      }
    }
    assert IsWord(s[..i]);
    assert IsWord(s[i + 1..j]);
    assert IsWord(s[j + 1..]);
    assert 0 < i < j < |s| - 1 && s[i] == '@' && s[j] == '.';
  }

  lemma PatternGivesShape(s: string, i: int, j: int)
    requires 0 < i < j < |s| - 1 && s[i] == '@' && s[j] == '.'
    requires IsWord(s[..i]) && IsWord(s[i + 1..j]) && IsWord(s[j + 1..])
    ensures EmailShape(s)
  {
    assert forall k :: 0 <= k < |s| ==> !IsSpace(s[k]) && (k != i ==> s[k] != '@') by {
      forall k | 0 <= k < |s|
        ensures !IsSpace(s[k]) && (k != i ==> s[k] != '@')
      {
        if k < i {
          assert s[k] == s[..i][k];
        } else if i < k < j {
          assert s[k] == s[i + 1..j][k - i - 1];
        } else if j < k {
          assert s[k] == s[j + 1..][k - j - 1];
        }
      }
    }
    assert '@' in s;
    assert '@' !in s[..i];
    assert Strings.IndexOf(s, '@') == i;
    assert '@' !in s[i + 1..];
    assert s[i + 2..|s| - 1][j - i - 2] == '.';
  }

  /** `validation.email`. */
  function Email(s: string): (r: Option<string>)
    ensures s == "" <==> r == Some("Email is required")
    ensures r == Some("Invalid email format") <==> s != "" && !MatchesEmailPattern(s)
    ensures r.None? <==> MatchesEmailPattern(s)
  {
    EmailShapeMatchesPattern(s);
    if s == "" then Some("Email is required")
    else if !EmailShape(s) then Some("Invalid email format")
    else None
  }

  predicate HasUpper(s: string) { exists k :: 0 <= k < |s| && 'A' <= s[k] <= 'Z' }
  predicate HasLower(s: string) { exists k :: 0 <= k < |s| && 'a' <= s[k] <= 'z' }
  predicate HasDigit(s: string) { exists k :: 0 <= k < |s| && '0' <= s[k] <= '9' }

  /** What the password rules accept. */
  predicate StrongPassword(p: string)
  {
    |p| >= 8 && HasUpper(p) && HasLower(p) && HasDigit(p)
  }

  /** `validation.password`: the message of the first rule that fails, in
      the order required, length, upper case, lower case, digit. */
  function Password(p: string): (r: Option<string>)
    ensures r.None? <==> StrongPassword(p)
    ensures r == Some("Password is required") <==> p == ""
    ensures r == Some("Password must be at least 8 characters") <==> 0 < |p| < 8
    ensures r == Some("Password must contain at least one uppercase letter") <==> |p| >= 8 && !HasUpper(p)
    ensures r == Some("Password must contain at least one lowercase letter") <==>
              |p| >= 8 && HasUpper(p) && !HasLower(p)
    ensures r == Some("Password must contain at least one number") <==>
              |p| >= 8 && HasUpper(p) && HasLower(p) && !HasDigit(p)
  {
    if p == "" then Some("Password is required")
    else if |p| < 8 then Some("Password must be at least 8 characters")
    else if !HasUpper(p) then Some("Password must contain at least one uppercase letter")
    else if !HasLower(p) then Some("Password must contain at least one lowercase letter")
    else if !HasDigit(p) then Some("Password must contain at least one number")
    else None
  }

  /** `validation.name`. */
  function Name(n: string): (r: Option<string>)
    ensures r.None? <==> |n| >= 2
    ensures r == Some("Name is required") <==> n == ""
    ensures r == Some("Name must be at least 2 characters") <==> |n| == 1
  {
    if n == "" then Some("Name is required")
    else if |n| < 2 then Some("Name must be at least 2 characters")
    else None
  }

  /** `validation.confirmPassword`. */
  function ConfirmPassword(password: string, confirmation: string): (r: Option<string>)
    ensures r.None? <==> confirmation != "" && confirmation == password
    ensures r == Some("Please confirm your password") <==> confirmation == ""
    ensures r == Some("Passwords do not match") <==> confirmation != "" && confirmation != password
  {
    if confirmation == "" then Some("Please confirm your password")
    else if password != confirmation then Some("Passwords do not match")
    else None
  }

  /** Re-typing a non-empty password exactly is always accepted. */
  lemma ConfirmSamePassword(p: string)
    requires p != ""
    ensures ConfirmPassword(p, p).None?
  {
  }
}
