/** The form checks of `FormValidator`, `DateUtils.getDaysBetween` and
    `ToastManager.getIcon` (static/js/utils.js). */
module Validators {
  import opened Common

  // ---------------------------------------------------------------------------
  // validateEmail

  /** `[^\s@]`. */
  predicate IsEmailChar(c: char) {
    !IsJsSpace(c) && c != '@'
  }

  predicate AllEmailChars(s: string) {
    forall i :: 0 <= i < |s| ==> IsEmailChar(s[i])
  }

  /** The strings `/^[^\s@]+@[^\s@]+\.[^\s@]+$/` accepts: three non-empty runs
      without whitespace or `@`, joined by an `@` and then a `.`. */
  ghost predicate MatchesEmailPattern(s: string) {
    exists i, j :: 0 < i && i + 1 < j && j + 1 < |s| && s[i] == '@' && s[j] == '.'
      && AllEmailChars(s[..i]) && AllEmailChars(s[i + 1..j]) && AllEmailChars(s[j + 1..])
  }

  /** The index of the first `@`, if any. */
  function FindAt(s: string): (r: Option<nat>)
    ensures r.Some? ==> r.value < |s| && s[r.value] == '@' && forall k :: 0 <= k < r.value ==> s[k] != '@'
    ensures r.None? ==> forall k :: 0 <= k < |s| ==> s[k] != '@'
    decreases |s|
  {
    if s == [] then None
    else if s[0] == '@' then Some(0)
    else match FindAt(s[1..])
      case None => None
      case Some(k) => Some(k + 1)
  }

  /** `validateEmail(email)`: one `@` after a non-empty local part, a domain with
      a `.` that is neither its first nor its last character, no whitespace. */
  function ValidateEmail(s: string): bool {
    match FindAt(s)
    case None => false
    case Some(p) =>
      && p > 0
      && AllEmailChars(s[..p])
      && AllEmailChars(s[p + 1..])
      && p + 4 <= |s|
      && '.' in s[p + 2..|s| - 1]
  }

  /** Every string the scan accepts is matched by the regular expression. */
  lemma EmailSound(s: string)
    requires ValidateEmail(s)
    ensures MatchesEmailPattern(s)
  {
    var p := FindAt(s).value;
    var mid := s[p + 2..|s| - 1];
    var k :| 0 <= k < |mid| && mid[k] == '.';
    var j := p + 2 + k;
    assert s[j] == '.';
    forall m | p + 1 <= m < |s| ensures IsEmailChar(s[m]) {
      assert s[m] == s[p + 1..][m - p - 1];
    }
    assert AllEmailChars(s[p + 1..j]);
    assert AllEmailChars(s[j + 1..]);
  }

  /** Every string the regular expression matches is accepted by the scan. */
  lemma EmailComplete(s: string)
    requires MatchesEmailPattern(s)
    ensures ValidateEmail(s)
  {
    var i, j :| 0 < i && i + 1 < j && j + 1 < |s| && s[i] == '@' && s[j] == '.'
      && AllEmailChars(s[..i]) && AllEmailChars(s[i + 1..j]) && AllEmailChars(s[j + 1..]);
    assert forall k :: 0 <= k < i ==> s[k] == s[..i][k];
    assert FindAt(s) == Some(i);
    forall k | i + 1 <= k < |s| ensures IsEmailChar(s[k]) {
      if k < j {
        assert s[k] == s[i + 1..j][k - i - 1];
      } else if k > j {
        assert s[k] == s[j + 1..][k - j - 1];
      }
    }
    assert AllEmailChars(s[i + 1..]);
    assert s[i + 2..|s| - 1][j - i - 2] == '.';
  }

  /** The scan accepts exactly the strings the regular expression matches. */
  lemma EmailIff(s: string)
    ensures ValidateEmail(s) <==> MatchesEmailPattern(s)
  {
    if ValidateEmail(s) {
      EmailSound(s);
    }
    if MatchesEmailPattern(s) {
      EmailComplete(s);
    }
  }

  // ---------------------------------------------------------------------------
  // validatePhone

  /** `[\d\s\-\+\(\)]`. */
  predicate IsPhoneChar(c: char) {
    IsDigit(c) || IsJsSpace(c) || c == '-' || c == '+' || c == '(' || c == ')'
  }

  /** `phone.replace(/\D/g, '')`. */
  function StripNonDigits(s: string): (r: string)
    ensures AllDigits(r) && |r| <= |s|
    decreases |s|
  {
    if s == [] then []
    else StripNonDigits(s[..|s| - 1]) + (if IsDigit(s[|s| - 1]) then [s[|s| - 1]] else [])
  }

  /** `validatePhone(phone)`. */
  function ValidatePhone(s: string): bool {
    && |s| > 0
    && (forall i :: 0 <= i < |s| ==> IsPhoneChar(s[i]))
    && |StripNonDigits(s)| >= 10
  }

  /** The digits kept are one per digit position. */
  lemma {:induction false} StripCountsDigits(s: string)
    ensures |StripNonDigits(s)| == |Positions(s, IsDigit)|
    decreases |s|
  {
    if s != [] {
      var init := s[..|s| - 1];
      StripCountsDigits(init);
      assert s == init + [s[|s| - 1]];
      PositionsSnoc(init, s[|s| - 1], IsDigit);
    }
  }

  /** A phone number is valid exactly when it uses only digits, whitespace and
      `-+()` and holds at least ten digits. */
  lemma PhoneIff(s: string)
    ensures ValidatePhone(s) <==>
      (forall i :: 0 <= i < |s| ==> IsPhoneChar(s[i])) && |Positions(s, IsDigit)| >= 10
  {
    StripCountsDigits(s);
    if |s| == 0 {
      assert Positions(s, IsDigit) == {};
    }
  }

  // ---------------------------------------------------------------------------
  // validateRequired

  /** A form field with its `name` and `value`; `None` stands for an undefined
      value. */
  datatype Field = Field(name: string, value: Option<string>)

  /** `!field.value || field.value.trim() === ''`. */
  predicate IsMissing(f: Field) {
    f.value.None? || IsBlank(f.value.value)
  }

  function RequiredMessage(name: string): string {
    name + " is required"
  }

  /** The messages `validateRequired` collects, in field order. */
  ghost function MissingMessages(fields: seq<Field>): seq<string>
    decreases |fields|
  {
    if fields == [] then []
    else
      var last := fields[|fields| - 1];
      MissingMessages(fields[..|fields| - 1]) + (if IsMissing(last) then [RequiredMessage(last.name)] else [])
  }

  /** `validateRequired(fields)`: the `forEach` that pushes one message per
      missing field. */
  method ValidateRequired(fields: seq<Field>) returns (errors: seq<string>)
    ensures errors == MissingMessages(fields)
  {
    errors := [];
    for i := 0 to |fields|
      invariant errors == MissingMessages(fields[..i])
    {
      assert fields[..i + 1][..i] == fields[..i];
      if IsMissing(fields[i]) {
        errors := errors + [RequiredMessage(fields[i].name)];
      }
    }
    assert fields[..|fields|] == fields;
  }

  /** One message per missing field, and a message exactly for those fields. */
  lemma {:induction false} MissingMessagesExact(fields: seq<Field>)
    ensures |MissingMessages(fields)| == |Positions(fields, IsMissing)|
    ensures forall m :: m in MissingMessages(fields) <==>
      exists i :: 0 <= i < |fields| && IsMissing(fields[i]) && m == RequiredMessage(fields[i].name)
    decreases |fields|
  {
    if fields != [] {
      var init := fields[..|fields| - 1];
      var last := fields[|fields| - 1];
      MissingMessagesExact(init);
      assert fields == init + [last];
      PositionsSnoc(init, last, IsMissing);
      forall m ensures m in MissingMessages(fields) <==>
        exists i :: 0 <= i < |fields| && IsMissing(fields[i]) && m == RequiredMessage(fields[i].name)
      {
        if m in MissingMessages(init) {
          var i :| 0 <= i < |init| && IsMissing(init[i]) && m == RequiredMessage(init[i].name);
          assert fields[i] == init[i];
        }
        if exists i :: 0 <= i < |fields| && IsMissing(fields[i]) && m == RequiredMessage(fields[i].name) {
          var i :| 0 <= i < |fields| && IsMissing(fields[i]) && m == RequiredMessage(fields[i].name);
          if i < |init| {
            assert init[i] == fields[i];
          }
        }
      }
    }
  }

  /** A form passes exactly when every field has a non-blank value. */
  lemma NoMessagesIffAllFilled(fields: seq<Field>)
    ensures MissingMessages(fields) == [] <==> forall i :: 0 <= i < |fields| ==> !IsMissing(fields[i])
  {
    MissingMessagesExact(fields);
    if MissingMessages(fields) != [] {
      assert MissingMessages(fields)[0] in MissingMessages(fields);
    }
  }

  // ---------------------------------------------------------------------------
  // getDaysBetween

  const DayMs: int := 86400000

  function Abs(x: int): nat {
    if x < 0 then -x else x
  }

  /** `getDaysBetween(start, end)` over millisecond timestamps: the distance in
      days, any part of a day counting as a whole day. */
  function GetDaysBetween(start: int, end: int): (days: int)
    ensures days >= 0
    ensures DayMs * (days - 1) < Abs(end - start) <= DayMs * days
  {
    CeilDiv(Abs(end - start), DayMs)
  }

  /** The order of the two dates does not matter. */
  lemma DaysBetweenSymmetric(a: int, b: int)
    ensures GetDaysBetween(a, b) == GetDaysBetween(b, a)
  {
  }

  /** A stay of `k` whole days is `k` days; one more millisecond makes it `k + 1`. */
  lemma DaysBetweenWholeDays(start: int, k: nat)
    ensures GetDaysBetween(start, start + k * DayMs) == k
    ensures GetDaysBetween(start, start + k * DayMs + 1) == k + 1
  {
    CeilDivUnique(k * DayMs, DayMs, k);
    CeilDivUnique(k * DayMs + 1, DayMs, k + 1);
  }

  // ---------------------------------------------------------------------------
  // getIcon

  const SuccessIcon: string := "\U{2705}"
  const ErrorIcon: string := "\U{274C}"
  const WarningIcon: string := "\U{26A0}\U{FE0F}"
  const InfoIcon: string := "\U{2139}\U{FE0F}"

  /** `getIcon(type)`: the icon of a known toast type, the info icon otherwise. */
  function GetIcon(toastType: string): (icon: string)
    ensures icon in {SuccessIcon, ErrorIcon, WarningIcon, InfoIcon}
    ensures toastType !in {"success", "error", "warning"} ==> icon == InfoIcon
  {
    if toastType == "success" then SuccessIcon
    else if toastType == "error" then ErrorIcon
    else if toastType == "warning" then WarningIcon
    else InfoIcon
  }

  /** The four known types get four different icons. */
  lemma IconsDistinct(a: string, b: string)
    requires a in {"success", "error", "warning", "info"} && b in {"success", "error", "warning", "info"}
    requires a != b
    ensures GetIcon(a) != GetIcon(b)
  {
  }
}
