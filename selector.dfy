/**
 * The signup validators of the web client: the format branch of
 * `validationSelectorFamily` (empty check, choice of pattern by field,
 * the result record) and the `isPasswordMatchState` selector.
 * The awaited duplicate check is an input (`Lookup`): how the call
 * ended, not the call itself.
 */
module Validation {
  import opened Wrappers
  import opened Text

  /** The atom a selector instance reads; `Other` is any atom without a pattern. */
  datatype Field = Email | Phone | Nickname | Other

  /** The record every validator instance yields. */
  datatype InputState = InputState(value: string, isValidFormat: bool, isDuplicate: bool, message: string)

  /** How the duplicate check ended: `Answered(truthy)` when the API replied and
      `rsp.data` had that truthiness, `Failed` when the call threw. */
  datatype Lookup = Answered(dataTruthy: bool) | Failed

  /** `[a-zA-Z0-9._-]`, the characters of an address's local part. */
  predicate IsLocalChar(c: char) {
    IsAsciiLetter(c) || IsAsciiDigit(c) || c == '.' || c == '_' || c == '-'
  }

  /** `[a-zA-Z0-9.-]`, the characters of the domain before the final dot. */
  predicate IsDomainChar(c: char) {
    IsAsciiLetter(c) || IsAsciiDigit(c) || c == '.' || c == '-'
  }

  /** `가-힣`: the precomposed Hangul syllables U+AC00 to U+D7A3. */
  predicate IsHangulSyllable(c: char) {
    '\U{AC00}' <= c <= '\U{D7A3}'
  }

  /** `[a-zA-Z0-9가-힣]`. */
  predicate IsNicknameChar(c: char) {
    IsAsciiLetter(c) || IsAsciiDigit(c) || IsHangulSyllable(c)
  }

  /** `^\d{10,11}$`; without the `u` flag `\d` is the ASCII digits. */
  predicate PhoneFormat(s: string) {
    10 <= |s| <= 11 && Every(s, IsAsciiDigit)
  }

  /** `^[a-zA-Z0-9가-힣]{2,16}$`. Every character the class admits is a single UTF-16
      unit, so counting characters is counting what the pattern counts. */
  predicate NicknameFormat(s: string) {
    2 <= |s| <= 16 && Every(s, IsNicknameChar)
  }

  /** `^[a-zA-Z0-9._-]+@[a-zA-Z0-9.-]+\.[a-zA-Z]{2,4}$` read as a concatenation: `s`
      splits at an `@` at position `at` and a `.` at position `dot` into the three runs. */
  predicate EmailSplitAt(s: string, at: int, dot: int) {
    0 < at && at + 1 < dot < |s| && s[at] == '@' && s[dot] == '.' &&
    Every(s[..at], IsLocalChar) &&
    Every(s[at + 1..dot], IsDomainChar) &&
    2 <= |s| - dot - 1 <= 4 && Every(s[dot + 1..], IsAsciiLetter)
  }

  /** The language of the e-mail pattern: some split of `s` fits it. */
  ghost predicate EmailShape(s: string) {
    exists at, dot :: EmailSplitAt(s, at, dot)
  }

  /** A deterministic test of the e-mail pattern: the local part ends at the first `@`,
      the letter run starts after the last `.`. */
  function EmailFormat(s: string): (ok: bool)
    ensures ok <==> EmailShape(s)
  {
    match IndexOf(s, '@')
    case None =>
      EmailNeedsAt(s);
      false
    case Some(at) =>
      var rest := s[at + 1..];
      match LastIndexOf(rest, '.')
      case None =>
        EmailNeedsDotAfterAt(s, at);
        false
      case Some(d) =>
        var ok := EmailSplitAt(s, at, at + 1 + d);
        assert !ok ==> !EmailShape(s) by {
          EmailSplitUnique(s, at, at + 1 + d);
        }
        ok
  }

  lemma EmailNeedsAt(s: string)
    requires '@' !in s
    ensures !EmailShape(s)
  {
    forall at, dot | 0 <= at < |s| ensures !EmailSplitAt(s, at, dot) {
      assert s[at] != '@';
    }
  }

  lemma EmailNeedsDotAfterAt(s: string, at: nat)
    requires at < |s| && s[at] == '@' && '@' !in s[..at]
    requires '.' !in s[at + 1..]
    ensures !EmailShape(s)
  {
    forall k | at < k < |s| ensures s[k] != '.' {
      assert s[at + 1..][k - at - 1] == s[k];
    }
    forall a, dot ensures !EmailSplitAt(s, a, dot) {
      AtIsFirst(s, at, a, dot);
    }
  }

  /** The local part admits no `@`, so the `@` of any split is the first one. */
  lemma AtIsFirst(s: string, at: nat, a: int, dot: int)
    requires at < |s| && s[at] == '@' && '@' !in s[..at]
    ensures EmailSplitAt(s, a, dot) ==> a == at
  {
    forall k | 0 <= k < at ensures s[k] != '@' {
      assert s[..at][k] == s[k];
    }
    if EmailSplitAt(s, a, dot) {
      forall k | 0 <= k < a ensures s[k] != '@' {
        assert s[..a][k] == s[k];
        assert IsLocalChar(s[..a][k]);
      }
    }
  }

  /** The letter run admits no `.`, so the `.` of any split is the last one. */
  lemma DotIsLast(s: string, at: nat, e: nat, dot: int)
    requires e < |s| && s[e] == '.' && '.' !in s[e + 1..]
    ensures EmailSplitAt(s, at, dot) ==> dot == e
  {
    forall k | e < k < |s| ensures s[k] != '.' {
      assert s[e + 1..][k - e - 1] == s[k];
    }
    if EmailSplitAt(s, at, dot) {
      forall k | dot < k < |s| ensures s[k] != '.' {
        assert s[dot + 1..][k - dot - 1] == s[k];
        assert IsAsciiLetter(s[dot + 1..][k - dot - 1]);
      }
    }
  }

  lemma EmailSplitUnique(s: string, at: nat, dot: nat)
    requires at < |s| && s[at] == '@' && '@' !in s[..at]
    requires dot < |s| && at < dot && s[dot] == '.' && '.' !in s[dot + 1..]
    ensures EmailShape(s) ==> EmailSplitAt(s, at, dot)
  {
    if EmailShape(s) {
      var a, d :| EmailSplitAt(s, a, d);
      AtIsFirst(s, at, a, d);
      DotIsLast(s, at, dot, d);
    }
  }

  /** The pattern `validationSelectorFamily` picks for a field; `Other` has none. */
  function FormatOk(field: Field, value: string): bool {
    match field
    case Email => EmailFormat(value)
    case Phone => PhoneFormat(value)
    case Nickname => NicknameFormat(value)
    case Other => false
  }

  /** The noun the messages are built from; every field without its own noun gets "닉네임". */
  function BaseMessage(field: Field): string {
    match field
    case Email => "이메일"
    case Phone => "전화번호"
    case _ => "닉네임"
  }

  const FormatErrorSuffix: string := "의 형식이 올바르지 않습니다."

  /** One evaluation of `validationSelectorFamily(field)` on the atom value `value`,
      given how the duplicate check would end. */
  function Validate(field: Field, value: string, lookup: Lookup): (r: InputState)
    ensures r.value == value
    ensures value == "" ==> r == InputState(value, false, false, "")
    ensures r.isValidFormat <==> value != "" && FormatOk(field, value) && lookup.Answered?
    ensures r.isDuplicate <==> value != "" && FormatOk(field, value) && lookup == Answered(false)
    ensures value != "" && field != Other && !FormatOk(field, value) ==>
      r.message == BaseMessage(field) + FormatErrorSuffix
  {
    if value == "" then
      InputState(value, false, false, "")
    else if field == Other then
      InputState(value, false, false, "코딩에러 관리자에게 문의하십시오.")
    else if !FormatOk(field, value) then
      InputState(value, false, false, BaseMessage(field) + FormatErrorSuffix)
    else
      match lookup
      case Answered(true) =>
        InputState(value, true, false, "해당 " + BaseMessage(field) + " 를 사용 가능합니다.")
      case Answered(false) =>
        InputState(value, true, true, "해당 " + BaseMessage(field) + "는 중복된 값입니다.")
      case Failed =>
        InputState(value, false, false, "확인 중 오류 발생.")
  }

  /** A value that fails its pattern is answered before any lookup: the outcome of
      the duplicate check cannot change the result. */
  lemma FormatFailureIgnoresLookup(field: Field, value: string, l1: Lookup, l2: Lookup)
    requires !FormatOk(field, value)
    ensures Validate(field, value, l1) == Validate(field, value, l2)
    ensures !Validate(field, value, l1).isValidFormat && !Validate(field, value, l1).isDuplicate
  {
  }

  /** Line terminators, which `.` in a JavaScript pattern does not match. */
  predicate IsLineTerminator(c: char) {
    c == '\n' || c == '\r' || c == '\U{2028}' || c == '\U{2029}'
  }

  /** `[!@#$%^*+=-]`. */
  predicate IsPasswordSymbol(c: char) {
    c == '!' || c == '@' || c == '#' || c == '$' || c == '%' || c == '^' ||
    c == '*' || c == '+' || c == '=' || c == '-'
  }

  /** The length JavaScript reports: characters beyond U+FFFF take two UTF-16 units. */
  function Utf16Length(s: string): nat {
    if s == [] then 0 else Utf16Length(s[1..]) + (if s[0] as int > 0xFFFF then 2 else 1)
  }

  predicate Contains(s: string, p: char -> bool) {
    exists i :: 0 <= i < |s| && p(s[i])
  }

  /** `^(?=.*[a-zA-Z])(?=.*[!@#$%^*+=-])(?=.*[0-9]).{8,25}$`: 8 to 25 UTF-16 units, none
      a line terminator, with a letter, a symbol and a digit somewhere. */
  predicate PasswordPattern(s: string) {
    8 <= Utf16Length(s) <= 25 && !Contains(s, IsLineTerminator) &&
    Contains(s, IsAsciiLetter) && Contains(s, IsPasswordSymbol) && Contains(s, IsAsciiDigit)
  }

  /** What `isPasswordMatchState` yields: either only a format verdict, or the format
      verdict with the comparison against the confirmation field. */
  datatype PasswordState =
    | FormatOnly(isValidFormat: bool, message: string)
    | WithMatch(isValidFormat: bool, isDuplicate: bool, message: string, confirmMessage: string)

  function MatchVerdict(isValidFormat: bool, value: string, confirmValue: string): PasswordState {
    var same := value == confirmValue;
    WithMatch(isValidFormat, same, "비밀번호 형식이 올바릅니다.",
      if same then "비밀번호와 일치합니다." else "비밀번호와 비밀번호 확인이 일치하지 않습니다.")
  }

  /** `isPasswordMatchState` as written: a password that MATCHES the pattern is reported
      as badly formed, and one that does not is compared with its confirmation. */
  function PasswordMatchAsWritten(value: string, confirmValue: string): (r: PasswordState)
    ensures r.isValidFormat <==> !PasswordPattern(value)
    ensures r.WithMatch? <==> !PasswordPattern(value)
    ensures r.WithMatch? ==> (r.isDuplicate <==> value == confirmValue)
  {
    if PasswordPattern(value) then FormatOnly(false, "비밀번호 형식이 올바르지 않습니다.")
    else MatchVerdict(true, value, confirmValue)
  }

  /** A password with a letter, a symbol and a digit is refused by the selector as
      written, and a one-letter password is accepted. */
  lemma PasswordCheckIsInverted()
    ensures !PasswordMatchAsWritten("abcd123!", "abcd123!").isValidFormat
    ensures PasswordMatchAsWritten("a", "a").isValidFormat
    ensures PasswordMatchAsWritten("a", "a").isDuplicate
  {
    var s := "abcd123!";
    assert Utf16Length(s[7..]) == 1;
    assert Utf16Length(s) == 8;
    assert IsAsciiLetter(s[0]) && IsPasswordSymbol(s[7]) && IsAsciiDigit(s[4]);
    forall i | 0 <= i < |s| ensures !IsLineTerminator(s[i]) { }
    assert Utf16Length("a") == 1;
  }

  /** The selector as evidently intended (and as the password input component checks it):
      the format verdict is the pattern itself. */
  function PasswordMatch(value: string, confirmValue: string): (r: PasswordState)
    ensures r.isValidFormat <==> PasswordPattern(value)
    ensures r.WithMatch? <==> PasswordPattern(value)
    ensures r.WithMatch? ==> (r.isDuplicate <==> value == confirmValue)
  {
    if !PasswordPattern(value) then FormatOnly(false, "비밀번호 형식이 올바르지 않습니다.")
    else MatchVerdict(true, value, confirmValue)
  }

  /** The two differ on every password: the as-written verdict is the negation. */
  lemma {:induction false} PasswordVerdictsDisagree(value: string, confirmValue: string)
    ensures PasswordMatch(value, confirmValue).isValidFormat
        != PasswordMatchAsWritten(value, confirmValue).isValidFormat
  {
  }
}
