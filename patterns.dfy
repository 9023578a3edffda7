/**
 * The fixed regular expressions of the string validator, each read as a
 * predicate over ASCII character classes. JavaScript's `\d` is `[0-9]` and
 * `\s` is the ECMAScript WhiteSpace and LineTerminator set; without the `m`
 * flag, `^` and `$` anchor at the ends of the whole string.
 */
module Patterns {

  predicate IsDigit(c: char) { '0' <= c <= '9' }
  predicate IsUpperAscii(c: char) { 'A' <= c <= 'Z' }
  predicate IsLowerAscii(c: char) { 'a' <= c <= 'z' }
  predicate IsAsciiLetter(c: char) { IsUpperAscii(c) || IsLowerAscii(c) }
  predicate IsAlnum(c: char) { IsAsciiLetter(c) || IsDigit(c) }
  /** `[A-Za-z0-9_]` */
  predicate IsWordChar(c: char) { IsAlnum(c) || c == '_' }
  /** `[0-9a-fA-F]` */
  predicate IsHexDigit(c: char) { IsDigit(c) || 'a' <= c <= 'f' || 'A' <= c <= 'F' }
  /** `\s` */
  predicate IsJsWhitespace(c: char) {
    c == '\t' || c == '\n' || c == '\U{000B}' || c == '\U{000C}' || c == '\r' || c == ' '
    || c == '\U{00A0}' || c == '\U{1680}' || ('\U{2000}' <= c <= '\U{200A}')
    || c == '\U{2028}' || c == '\U{2029}' || c == '\U{202F}' || c == '\U{205F}'
    || c == '\U{3000}' || c == '\U{FEFF}'
  }
  /** `[A-Za-z\s]` */
  predicate IsNameChar(c: char) { IsAsciiLetter(c) || IsJsWhitespace(c) }
  /** `[A-Za-z0-9._%+-]`, the local part of an e-mail address */
  predicate IsEmailLocalChar(c: char) { IsAlnum(c) || c == '.' || c == '_' || c == '%' || c == '+' || c == '-' }
  /** `[A-Za-z0-9.-]`, the domain of an e-mail address */
  predicate IsEmailDomainChar(c: char) { IsAlnum(c) || c == '.' || c == '-' }

  /** `^[cls]+$` */
  predicate OneOrMore(s: string, cls: char -> bool) {
    |s| > 0 && forall i | 0 <= i < |s| :: cls(s[i])
  }

  /** `^\d+$` */
  predicate IsInteger(s: string) { OneOrMore(s, IsDigit) }
  /** `^[A-Za-z]+$` */
  predicate IsAlphabetic(s: string) { OneOrMore(s, IsAsciiLetter) }
  /** `^[A-Za-z0-9]+$` */
  predicate IsAlphanumeric(s: string) { OneOrMore(s, IsAlnum) }
  /** `^[A-Za-z0-9_]+$` */
  predicate IsUsername(s: string) { OneOrMore(s, IsWordChar) }
  /** `^[A-Za-z\s]+$` */
  predicate IsName(s: string) { OneOrMore(s, IsNameChar) }

  /** The character classes nest, so each pattern accepts what the narrower ones accept. */
  lemma PatternInclusions(s: string)
    ensures IsAlphabetic(s) ==> IsAlphanumeric(s)
    ensures IsInteger(s) ==> IsAlphanumeric(s)
    ensures IsAlphanumeric(s) ==> IsUsername(s)
    ensures IsAlphabetic(s) ==> IsName(s)
  {
  }

  // ---------------------------------------------------------------- numeric

  /**
   * `^[-+]?\d*\.?\d+$` with its four groups at `s[..i]`, `s[i..j]`, `s[j..k]`
   * and `s[k..]`: an optional sign, digits, an optional dot, and at least one digit.
   */
  predicate NumericSplit(s: string, i: int, j: int, k: int) {
    && 0 <= i <= 1 && i <= j <= k < |s|
    && (i == 1 ==> s[0] == '-' || s[0] == '+')
    && (forall p | i <= p < j :: IsDigit(s[p]))
    && (k == j || (k == j + 1 && s[j] == '.'))
    && (forall p | k <= p < |s| :: IsDigit(s[p]))
  }

  /** `/^[-+]?\d*\.?\d+$/.test(s)`: some way of splitting `s` into the four groups exists. */
  predicate IsNumeric(s: string) {
    exists i, j, k | 0 <= i <= 1 && 0 <= j < |s| && 0 <= k < |s| :: NumericSplit(s, i, j, k)
  }

  /** The length of a leading `+` or `-`. */
  function SignLength(s: string): (n: nat)
    ensures n <= 1 && n <= |s|
  {
    if |s| > 0 && (s[0] == '-' || s[0] == '+') then 1 else 0
  }

  /**
   * The same language read deterministically: after an optional sign, a
   * non-empty run of digits and dots that holds at most one dot and ends in a digit.
   */
  predicate NumericShape(s: string) {
    var i := SignLength(s);
    && i < |s|
    && IsDigit(s[|s| - 1])
    && (forall p | i <= p < |s| :: IsDigit(s[p]) || s[p] == '.')
    && (forall p, q | i <= p < q < |s| :: !(s[p] == '.' && s[q] == '.'))
  }

  /** The regular expression and the deterministic reading accept the same strings. */
  lemma NumericCharacterization(s: string)
    ensures IsNumeric(s) <==> NumericShape(s)
  {
    if IsNumeric(s) {
      var i, j, k :| 0 <= i <= 1 && 0 <= j < |s| && 0 <= k < |s| && NumericSplit(s, i, j, k);
      assert SignLength(s) == i by {
        if i == 0 && |s| > 0 {
          assert IsDigit(s[0]) || s[0] == '.';
        }
      }
    }
    if NumericShape(s) {
      var i := SignLength(s);
      if d :| i <= d < |s| && s[d] == '.' {
        assert d + 1 < |s|;
        assert NumericSplit(s, i, d, d + 1);
      } else {
        assert NumericSplit(s, i, |s| - 1, |s| - 1);
      }
    }
  }

  /** Plain digit strings are numeric. */
  lemma IntegerIsNumeric(s: string)
    requires IsInteger(s)
    ensures IsNumeric(s)
  {
    assert NumericSplit(s, 0, |s| - 1, |s| - 1);
  }

  lemma NumericExamples()
    ensures IsNumeric("123") && IsNumeric("123.34") && IsNumeric("-.5")
    ensures !IsNumeric("123A") && !IsNumeric("123.4.3") && !IsNumeric("5.") && !IsNumeric("+")
  {
    NumericCharacterization("123");
    NumericCharacterization("123.34");
    NumericCharacterization("-.5");
    NumericCharacterization("123A");
    NumericCharacterization("123.4.3");
    assert "123.4.3"[3] == '.' && "123.4.3"[5] == '.';
    NumericCharacterization("5.");
    NumericCharacterization("+");
  }

  // ---------------------------------------------------------------- email

  /**
   * `^[A-Za-z0-9._%+-]+@[A-Za-z0-9.-]+\.[A-Za-z]{2,}$` with the `@` at `at`
   * and the dot before the top-level domain at `dot`.
   */
  predicate EmailSplit(s: string, at: int, dot: int) {
    && 0 < at && at + 1 < dot && dot + 2 < |s|
    && s[at] == '@' && s[dot] == '.'
    && (forall p | 0 <= p < at :: IsEmailLocalChar(s[p]))
    && (forall p | at < p < dot :: IsEmailDomainChar(s[p]))
    && (forall p | dot < p < |s| :: IsAsciiLetter(s[p]))
  }

  /** `/^[A-Za-z0-9._%+-]+@[A-Za-z0-9.-]+\.[A-Za-z]{2,}$/.test(s)` */
  predicate IsEmail(s: string) {
    exists at, dot | 0 <= at < |s| && 0 <= dot < |s| :: EmailSplit(s, at, dot)
  }

  /**
   * None of the three classes contains `@`, and the top-level domain has no
   * dot: an accepted address has exactly one `@`, its top-level domain is the
   * text after the last dot, and that text is two or more ASCII letters.
   */
  lemma EmailStructure(s: string)
    requires IsEmail(s)
    ensures exists at | 0 < at < |s| :: s[at] == '@' && forall p | 0 <= p < |s| && s[p] == '@' :: p == at
    ensures exists dot | 0 < dot < |s| - 2 ::
              s[dot] == '.' && forall p | dot < p < |s| :: IsAsciiLetter(s[p])
  {
    var at, dot :| 0 <= at < |s| && 0 <= dot < |s| && EmailSplit(s, at, dot);
    forall p | 0 <= p < |s| && p != at ensures s[p] != '@' {
      if p < at {
        assert IsEmailLocalChar(s[p]);
      } else if p < dot {
        assert IsEmailDomainChar(s[p]);
      } else if p > dot {
        assert IsAsciiLetter(s[p]);
      }
    }
  }

  lemma EmailAccepted()
    ensures IsEmail("joe.doe@mail.example.com")
  {
    var s := "joe.doe@mail.example.com";
    assert s[7] == '@' && s[20] == '.';
    forall p | 0 <= p < 7 ensures IsEmailLocalChar(s[p]) {}
    forall p | 7 < p < 20 ensures IsEmailDomainChar(s[p]) {}
    forall p | 20 < p < |s| ensures IsAsciiLetter(s[p]) {}
    assert EmailSplit(s, 7, 20);
  }

  lemma EmailRejected()
    ensures !IsEmail("invalid.email")
    ensures !IsEmail("joe@mail.c")
  {
    var t := "invalid.email";
    forall p | 0 <= p < |t| ensures t[p] != '@' {}
    var u := "joe@mail.c";
    forall p | 0 <= p < |u| && p != 8 ensures u[p] != '.' {}
  }

  // ---------------------------------------------------------------- uuid

  /** `[0-9a-fA-F]{len}` at `s[from..from + len]` */
  predicate HexRun(s: string, from: nat, len: nat)
    requires from + len <= |s|
  {
    forall p | from <= p < from + len :: IsHexDigit(s[p])
  }

  /** `/^[0-9a-fA-F]{8}-[0-9a-fA-F]{4}-[0-9a-fA-F]{4}-[0-9a-fA-F]{4}-[0-9a-fA-F]{12}$/.test(s)` */
  predicate IsUuid(s: string) {
    && |s| == 36
    && HexRun(s, 0, 8) && s[8] == '-'
    && HexRun(s, 9, 4) && s[13] == '-'
    && HexRun(s, 14, 4) && s[18] == '-'
    && HexRun(s, 19, 4) && s[23] == '-'
    && HexRun(s, 24, 12)
  }

  /** The positions a canonical UUID reserves for dashes. */
  predicate IsUuidDashPosition(p: int) { p == 8 || p == 13 || p == 18 || p == 23 }

  /** A UUID is 36 characters, dashes at 8, 13, 18 and 23, hex digits everywhere else. */
  lemma UuidCharacterization(s: string)
    ensures IsUuid(s) <==>
      && |s| == 36
      && forall p | 0 <= p < 36 :: if IsUuidDashPosition(p) then s[p] == '-' else IsHexDigit(s[p])
  {
  }

  lemma UuidAccepted()
    ensures IsUuid("123e4567-e89b-12d3-a456-426655440000")
  {
    var s := "123e4567-e89b-12d3-a456-426655440000";
    forall p | 0 <= p < 36 && !IsUuidDashPosition(p) ensures IsHexDigit(s[p]) {}
    UuidCharacterization(s);
  }

  lemma UuidRejected()
    ensures !IsUuid("invalid-uuid")
  {
  }

  // ---------------------------------------------------------------- case

  /** `c.toLowerCase()` on the ASCII range. */
  function ToLowerChar(c: char): char {
    if IsUpperAscii(c) then (c as int + 32) as char else c
  }

  /** `c.toUpperCase()` on the ASCII range. */
  function ToUpperChar(c: char): char {
    if IsLowerAscii(c) then (c as int - 32) as char else c
  }

  /** `s.toLowerCase()`, character by character on the ASCII range. */
  function ToLowerAscii(s: string): (r: string)
    ensures |r| == |s|
  {
    seq(|s|, i requires 0 <= i < |s| => ToLowerChar(s[i]))
  }

  /** `s.toUpperCase()`, character by character on the ASCII range. */
  function ToUpperAscii(s: string): (r: string)
    ensures |r| == |s|
  {
    seq(|s|, i requires 0 <= i < |s| => ToUpperChar(s[i]))
  }

  /** A string equals its lower-case form exactly when it holds no upper-case letter. */
  lemma LowercaseCharacterization(s: string)
    ensures s == ToLowerAscii(s) <==> forall i | 0 <= i < |s| :: !IsUpperAscii(s[i])
  {
    if forall i | 0 <= i < |s| :: !IsUpperAscii(s[i]) {
      assert forall i | 0 <= i < |s| :: ToLowerAscii(s)[i] == s[i];
    } else {
      var i :| 0 <= i < |s| && IsUpperAscii(s[i]);
      assert ToLowerAscii(s)[i] != s[i];
    }
  }

  /** A string equals its upper-case form exactly when it holds no lower-case letter. */
  lemma UppercaseCharacterization(s: string)
    ensures s == ToUpperAscii(s) <==> forall i | 0 <= i < |s| :: !IsLowerAscii(s[i])
  {
    if forall i | 0 <= i < |s| :: !IsLowerAscii(s[i]) {
      assert forall i | 0 <= i < |s| :: ToUpperAscii(s)[i] == s[i];
    } else {
      var i :| 0 <= i < |s| && IsLowerAscii(s[i]);
      assert ToUpperAscii(s)[i] != s[i];
    }
  }
}
