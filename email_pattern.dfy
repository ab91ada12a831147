/**
 * The sign-up email rule's regular expression `/\b\D+\w*@gmail.com/`, used with
 * `RegExp.prototype.test`: no flags, so the match may start and end anywhere
 * in the string (it is not anchored), character classes are the ASCII ones,
 * and the unescaped `.` matches any single UTF-16 code unit except a line
 * terminator.
 */
module EmailPattern {

  /** `\d`. */
  predicate IsDigit(c: char) {
    '0' <= c <= '9'
  }

  /** `\w`. */
  predicate IsWordChar(c: char) {
    ('a' <= c <= 'z') || ('A' <= c <= 'Z') || IsDigit(c) || c == '_'
  }

  /** `.` without the `s` flag; a code point above U+FFFF is two code units, so `.` cannot match it whole. */
  predicate IsDotChar(c: char) {
    c as int <= 0xFFFF && c != '\n' && c != '\r' && c != '\U{2028}' && c != '\U{2029}'
  }

  /** `\b` at position `i`: exactly one of the characters on either side is a word character. */
  predicate WordBoundary(s: string, i: int)
    requires 0 <= i <= |s|
  {
    (i > 0 && IsWordChar(s[i - 1])) != (i < |s| && IsWordChar(s[i]))
  }

  /** `\D` holds of every character of `s[lo..hi]`. */
  predicate NonDigitsBetween(s: string, lo: int, hi: int)
    requires 0 <= lo <= hi <= |s|
  {
    forall j :: lo <= j < hi ==> !IsDigit(s[j])
  }

  /** `\w` holds of every character of `s[lo..hi]`. */
  predicate WordCharsBetween(s: string, lo: int, hi: int)
    requires 0 <= lo <= hi <= |s|
  {
    forall j :: lo <= j < hi ==> IsWordChar(s[j])
  }

  /** The literal tail `@gmail.com` (with its `.` as a wildcard) occupies `s[m..m + 10]`; compared one character at a time. */
  predicate GmailAt(s: string, m: int)
    requires 0 <= m
  {
    && m + 10 <= |s|
    && s[m] == '@' && s[m + 1] == 'g' && s[m + 2] == 'm' && s[m + 3] == 'a' && s[m + 4] == 'i' && s[m + 5] == 'l'
    && IsDotChar(s[m + 6])
    && s[m + 7] == 'c' && s[m + 8] == 'o' && s[m + 9] == 'm'
  }

  /**
   * A match of the whole pattern: `\b` at `i`, `\D+` over `s[i..k]`,
   * `\w*` over `s[k..m]`, then `@gmail.com` from `m`.
   */
  predicate MatchAt(s: string, i: int, k: int, m: int) {
    && 0 <= i < k <= m <= |s|
    && WordBoundary(s, i)
    && NonDigitsBetween(s, i, k)
    && WordCharsBetween(s, k, m)
    && GmailAt(s, m)
  }

  /** `/\b\D+\w*@gmail.com/.test(s)`: some substring of `s` matches. */
  predicate Matches(s: string) {
    exists i, k, m | 0 <= i < k <= m <= |s| :: MatchAt(s, i, k, m)
  }

  /** A matching string holds `@gmail` followed by three more characters, after at least one character. */
  lemma MatchNeedsGmail(s: string)
    requires Matches(s)
    ensures |s| >= 11
    ensures exists m :: 1 <= m && GmailAt(s, m)
  {
    var i, k, m :| 0 <= i < k <= m <= |s| && MatchAt(s, i, k, m);
    assert 1 <= m && GmailAt(s, m);
  }

  /** In particular the empty string never matches, so the rule's extra `!email` test never changes its outcome. */
  lemma EmptyNeverMatches()
    ensures !Matches("")
  {
    if Matches("") {
      MatchNeedsGmail("");
    }
  }

  /** The pattern is not anchored at the end: whatever follows a matching string, it still matches. */
  lemma MatchExtendsRight(s: string, t: string)
    requires Matches(s)
    ensures Matches(s + t)
  {
    var i, k, m :| 0 <= i < k <= m <= |s| && MatchAt(s, i, k, m);
    var u := s + t;
    assert u[..|s|] == s;
    assert u[m..m + 6] == s[m..m + 6];
    assert u[m + 7..m + 10] == s[m + 7..m + 10];
    assert u[m + 6] == s[m + 6];
    assert i > 0 ==> u[i - 1] == s[i - 1];
    assert u[i] == s[i];
    assert forall j :: 0 <= j < |s| ==> u[j] == s[j];
    assert MatchAt(u, i, k, m);
  }

  /** `jane@gmail.com` matches: `\b` before `j`, then `j`, `ane`, `@gmail.com`. */
  lemma AcceptsPlainGmail()
    ensures Matches("jane@gmail.com")
  {
    var s := "jane@gmail.com";
    assert s[4..10] == "@gmail";
    assert s[11..14] == "com";
    assert MatchAt(s, 0, 1, 4);
  }

  /** The unescaped `.` lets any character stand between `gmail` and `com`. */
  lemma AcceptsAnyDotChar()
    ensures Matches("jane@gmailxcom")
  {
    var s := "jane@gmailxcom";
    assert s[4..10] == "@gmail";
    assert s[11..14] == "com";
    assert MatchAt(s, 0, 1, 4);
  }

  /** Being unanchored, the pattern accepts text before and after an address. */
  lemma AcceptsSurroundingText()
    ensures Matches("to: jane@gmail.com.evil")
  {
    var s := "to: jane@gmail.com.evil";
    assert s[8..14] == "@gmail";
    assert s[15..18] == "com";
    assert MatchAt(s, 4, 5, 8);
  }

  /** A local part of digits only is rejected: `\D+` has no non-digit to start on before the `@`. */
  lemma RejectsDigitLocalPart()
    ensures !Matches("123@gmail.com")
  {
    var s := "123@gmail.com";
    forall i, k, m | 0 <= i < k <= m <= |s|
      ensures !MatchAt(s, i, k, m)
    {
      if GmailAt(s, m) {
        assert s[m] == '@';
      }
    }
  }
}
