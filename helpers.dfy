/** utils/helpers.js: the e-mail and password regular expressions as string
    predicates, each proved equal to a direct reading of its pattern, and
    the phrase picker with the random draw passed in. */
module Helpers {

  // ---------------------------------------------------------------- character classes

  /** JavaScript's `\s`: the WhiteSpace and LineTerminator code points. */
  predicate IsJsSpace(c: char) {
    var n := c as int;
    n == 0x09 || n == 0x0A || n == 0x0B || n == 0x0C || n == 0x0D || n == 0x20 ||
    n == 0xA0 || n == 0x1680 || (0x2000 <= n <= 0x200A) || n == 0x2028 || n == 0x2029 ||
    n == 0x202F || n == 0x205F || n == 0x3000 || n == 0xFEFF
  }

  /** The characters `.` does not match: the four line terminators. */
  predicate IsLineTerminator(c: char) {
    var n := c as int;
    n == 0x0A || n == 0x0D || n == 0x2028 || n == 0x2029
  }

  /** `[^\s@]`. */
  predicate IsFieldChar(c: char) {
    !IsJsSpace(c) && c != '@'
  }

  predicate AllFieldChars(s: string) {
    forall k :: 0 <= k < |s| ==> IsFieldChar(s[k])
  }

  // ---------------------------------------------------------------- validateEmail

  /** `/^[^\s@]+@[^\s@]+\.[^\s@]+$/` read directly: the string splits as
      A "@" B "." C with A, B and C non-empty runs of `[^\s@]`. */
  ghost predicate EmailPattern(s: string) {
    exists at, dot :: EmailSplit(s, at, dot)
  }

  /** The split of `s` at '@' position `at` and '.' position `dot`. */
  predicate EmailSplit(s: string, at: int, dot: int) {
    0 < at && at + 1 < dot < |s| - 1 && s[at] == '@' && s[dot] == '.' &&
    AllFieldChars(s[..at]) && AllFieldChars(s[at + 1..dot]) && AllFieldChars(s[dot + 1..])
  }

  /** The position of the first `c` in `s`, or `|s|` when there is none. */
  function FirstIndex(s: string, c: char): (r: nat)
    ensures r <= |s|
    ensures r < |s| ==> s[r] == c
    ensures forall k :: 0 <= k < r ==> s[k] != c
  {
    if |s| == 0 then 0
    else if s[0] == c then 0
    else 1 + FirstIndex(s[1..], c)
  }

  /** A '.' strictly inside `domain`. */
  predicate HasInnerDot(domain: string) {
    exists k :: 0 < k < |domain| - 1 && domain[k] == '.'
  }

  /** `validateEmail`, checked field by field: no `\s` anywhere, exactly one
      '@' with something before it, and a '.' in the domain that is neither
      its first nor its last character. */
  predicate ValidateEmail(email: string) {
    var at := FirstIndex(email, '@');
    0 < at < |email| &&
    AllFieldChars(email[..at]) && AllFieldChars(email[at + 1..]) &&
    HasInnerDot(email[at + 1..])
  }

  /** The field-by-field check accepts exactly the strings the regular
      expression matches. */
  lemma ValidateEmailIsPattern(email: string)
    ensures ValidateEmail(email) <==> EmailPattern(email)
  {
    if ValidateEmail(email) {
      ValidEmailSplits(email);
    }
    if EmailPattern(email) {
      var at, dot :| EmailSplit(email, at, dot);
      SplitIsValid(email, at, dot);
    }
  }

  lemma ValidEmailSplits(email: string)
    requires ValidateEmail(email)
    ensures EmailPattern(email)
  {
    var at := FirstIndex(email, '@');
    var domain := email[at + 1..];
    var k :| 0 < k < |domain| - 1 && domain[k] == '.';
    var dot := at + 1 + k;
    assert email[at + 1..dot] == domain[..k];
    assert email[dot + 1..] == domain[k + 1..];
    var middle, rest := domain[..k], domain[k + 1..];
    forall j | 0 <= j < |middle| ensures IsFieldChar(middle[j]) {
      assert middle[j] == domain[j];
    }
    forall j | 0 <= j < |rest| ensures IsFieldChar(rest[j]) {
      assert rest[j] == domain[k + 1 + j];
    }
    assert EmailSplit(email, at, dot);
  }

  lemma SplitIsValid(email: string, at: int, dot: int)
    requires EmailSplit(email, at, dot)
    ensures ValidateEmail(email)
  {
    var first := FirstIndex(email, '@');
    assert first == at;
    var domain := email[at + 1..];
    forall j | 0 <= j < |domain| ensures IsFieldChar(domain[j]) {
      if at + 1 + j < dot {
        assert domain[j] == email[at + 1..dot][j];
      } else if at + 1 + j > dot {
        assert domain[j] == email[dot + 1..][at + j - dot];
      }
    }
    assert domain[dot - at - 1] == '.';
  }

  /** The three conditions an accepted address meets, one by one. */
  lemma ValidEmailShape(email: string)
    requires ValidateEmail(email)
    ensures forall k :: 0 <= k < |email| ==> !IsJsSpace(email[k])
    ensures exists at :: (0 < at < |email| && email[at] == '@' &&
      (forall k :: 0 <= k < |email| && k != at ==> email[k] != '@') &&
      HasInnerDot(email[at + 1..]))
  {
    var at := FirstIndex(email, '@');
    forall k | 0 <= k < |email| ensures !IsJsSpace(email[k]) && (k != at ==> email[k] != '@') {
      if k < at {
        assert email[k] == email[..at][k];
      } else if k > at {
        assert email[k] == email[at + 1..][k - at - 1];
      }
    }
  }

  // ---------------------------------------------------------------- validatePassword

  /** The length JavaScript reports: characters outside the Basic
      Multilingual Plane are two UTF-16 code units. */
  function Utf16Length(s: string): (n: nat)
    ensures |s| <= n <= 2 * |s|
  {
    if |s| == 0 then 0
    else (if s[0] as int > 0xFFFF then 2 else 1) + Utf16Length(s[1..])
  }

  datatype CharClass = Lower | Upper | Digit

  /** `[a-z]`, `[A-Z]` and `\d` (ASCII digits only without the `u` flag). */
  predicate InClass(c: char, cls: CharClass) {
    match cls
    case Lower => 'a' <= c <= 'z'
    case Upper => 'A' <= c <= 'Z'
    case Digit => '0' <= c <= '9'
  }

  /** The lookahead `(?=.*X)` at the start of the string: some character of
      class X preceded only by characters `.` matches. */
  ghost predicate Lookahead(s: string, cls: CharClass) {
    exists i :: 0 <= i < |s| && InClass(s[i], cls) && forall k :: 0 <= k < i ==> !IsLineTerminator(s[k])
  }

  /** `/^(?=.*[a-z])(?=.*[A-Z])(?=.*\d).{8,}$/` read directly. */
  ghost predicate PasswordPattern(s: string) {
    Lookahead(s, Lower) && Lookahead(s, Upper) && Lookahead(s, Digit) &&
    (forall k :: 0 <= k < |s| ==> !IsLineTerminator(s[k])) && Utf16Length(s) >= 8
  }

  predicate Contains(s: string, cls: CharClass) {
    exists i :: 0 <= i < |s| && InClass(s[i], cls)
  }

  predicate NoLineTerminator(s: string) {
    forall k :: 0 <= k < |s| ==> !IsLineTerminator(s[k])
  }

  /** `validatePassword`: at least 8 UTF-16 code units, no line terminator,
      and a lower-case letter, an upper-case letter and a digit. */
  predicate ValidatePassword(password: string) {
    Utf16Length(password) >= 8 && NoLineTerminator(password) &&
    Contains(password, Lower) && Contains(password, Upper) && Contains(password, Digit)
  }

  /** The direct check accepts exactly the strings the regular expression
      matches: once `.{8,}$` forces the whole string free of line
      terminators, each lookahead is plain containment. */
  lemma ValidatePasswordIsPattern(password: string)
    ensures ValidatePassword(password) <==> PasswordPattern(password)
  {
    if ValidatePassword(password) {
      LookaheadIsContains(password, Lower);
      LookaheadIsContains(password, Upper);
      LookaheadIsContains(password, Digit);
    }
  }

  lemma LookaheadIsContains(s: string, cls: CharClass)
    requires NoLineTerminator(s) && Contains(s, cls)
    ensures Lookahead(s, cls)
  {
    var i :| 0 <= i < |s| && InClass(s[i], cls);
    assert forall k :: 0 <= k < i ==> !IsLineTerminator(s[k]);
  }

  /** A password needs at least four characters and is refused whenever it
      holds a line break, however long. */
  lemma PasswordConsequences(password: string)
    ensures ValidatePassword(password) ==> |password| >= 4
    ensures (exists k :: 0 <= k < |password| && IsLineTerminator(password[k])) ==> !ValidatePassword(password)
  {
  }

  // ---------------------------------------------------------------- generateRandomPhrase

  const Phrases: seq<string> := [
    "My voice is my password",
    "Hello, this is my verification phrase",
    "I am speaking to verify my identity",
    "This is my unique voice signature",
    "Voice verification is secure and convenient",
    "Please verify my identity with my voice",
    "I consent to voice authentication",
    "This voice sample is for verification purposes"
  ]

  /** `phrases[Math.floor(Math.random() * phrases.length)]` with the draw of
      `Math.random()`, which lies in [0, 1), passed in. */
  function GenerateRandomPhrase(random: real): (phrase: string)
    requires 0.0 <= random < 1.0
    ensures phrase in Phrases
  {
    var index := (random * |Phrases| as real).Floor;
    Phrases[index]
  }

  /** Every listed phrase is the pick of some draw. */
  lemma EveryPhraseReachable(i: nat)
    requires i < |Phrases|
    ensures GenerateRandomPhrase(i as real / 8.0) == Phrases[i]
  {
    assert |Phrases| == 8;
    assert (i as real / 8.0) * (|Phrases| as real) == i as real;
  }
}
