/**
 * The month/year text fields of the experience and education steps: the
 * keystroke formatter, the two date checks and the inline error they drive.
 */
module DateField {
  import opened Wrappers
  import opened JsStrings

  /** `/^(0[1-9]|1[0-2])\/\d{4}$/`: a month 01-12, a slash, four ASCII digits. */
  predicate MonthYearShape(d: string) {
    && |d| == 7
    && ((d[0] == '0' && '1' <= d[1] <= '9') || (d[0] == '1' && '0' <= d[1] <= '2'))
    && d[2] == '/'
    && IsDigit(d[3]) && IsDigit(d[4]) && IsDigit(d[5]) && IsDigit(d[6])
  }

  /**
   * The experience step's date check: empty is allowed; otherwise the pattern
   * must match, and after `split('/')` and `parseInt` the month must lie in
   * 1-12 and the year in 1900-2100 (a NaN fails no comparison).
   */
  predicate ExperienceDateValid(d: string) {
    if d == "" then true
    else if !MonthYearShape(d) then false
    else
      var parts := Split(d, "/");
      var month := ParseInt(Piece(parts, 0));
      var year := ParseInt(Piece(parts, 1));
      && !(month.Some? && (month.value < 1 || month.value > 12))
      && !(year.Some? && (year.value < 1900 || year.value > 2100))
  }

  /** The education step's date check: empty is allowed, otherwise the pattern alone. */
  predicate EducationDateValid(d: string) {
    d == "" || MonthYearShape(d)
  }

  const ExperienceDateMessage := "Please use MM/YYYY format (e.g., 01/2024). Month must be 01-12."
  const EducationDateMessage := "Please use MM/YYYY format (e.g., 01/2024)"

  // ------------------------------------------------ reference: MM/YYYY text

  /** `n` as two decimal digits with a leading zero. */
  function Pad2(n: nat): string
    requires n < 100
  {
    [DigitChar(n / 10), DigitChar(n % 10)]
  }

  /** `n` as four decimal digits with leading zeros. */
  function Pad4(n: nat): string
    requires n < 10000
  {
    Pad2(n / 100) + Pad2(n % 100)
  }

  /** The text of month `m` of year `y`. */
  function MonthYear(m: nat, y: nat): string
    requires m < 100 && y < 10000
  {
    Pad2(m) + "/" + Pad4(y)
  }

  lemma DigitCharValue(d: nat)
    requires d < 10
    ensures IsDigit(DigitChar(d)) && DigitValue(DigitChar(d), 10) == d
  {
  }

  lemma CharOfDigitValue(c: char)
    requires IsDigit(c)
    ensures 0 <= DigitValue(c, 10) < 10 && DigitChar(DigitValue(c, 10)) == c
  {
  }

  /** The value of a two-digit string. */
  lemma DigitsValue2(s: string)
    requires |s| == 2
    ensures DigitsValue(s, 10) == DigitValue(s[0], 10) * 10 + DigitValue(s[1], 10)
  {
    assert s[..1][..0] == [];
    assert DigitsValue(s[..1], 10) == DigitValue(s[0], 10);
  }

  /** The value of a four-digit string from its two halves. */
  lemma DigitsValue4(s: string)
    requires |s| == 4
    ensures DigitsValue(s, 10) == DigitsValue(s[..2], 10) * 100 + DigitsValue(s[2..], 10)
  {
    assert s[..3][..2] == s[..2];
    DigitsValue2(s[2..]);
  }

  /** Reading back a padded number below 100 gives the number. */
  lemma Pad2Value(n: nat)
    requires n < 100
    ensures IsDigit(Pad2(n)[0]) && IsDigit(Pad2(n)[1])
    ensures DigitsValue(Pad2(n), 10) == n
  {
    DigitCharValue(n / 10);
    DigitCharValue(n % 10);
    DigitsValue2(Pad2(n));
  }

  /** Padding the value of a two-digit text gives the text back. */
  lemma Pad2OfDigits(s: string)
    requires |s| == 2 && IsDigit(s[0]) && IsDigit(s[1])
    ensures 0 <= DigitsValue(s, 10) < 100 && Pad2(DigitsValue(s, 10)) == s
  {
    CharOfDigitValue(s[0]);
    CharOfDigitValue(s[1]);
    DigitsValue2(s);
  }

  /** Reading back a padded number below 10000 gives the number. */
  lemma Pad4Value(n: nat)
    requires n < 10000
    ensures forall i :: 0 <= i < 4 ==> IsDigit(Pad4(n)[i])
    ensures DigitsValue(Pad4(n), 10) == n
  {
    Pad2Value(n / 100);
    Pad2Value(n % 100);
    var t := Pad4(n);
    assert t[..2] == Pad2(n / 100) && t[2..] == Pad2(n % 100);
    DigitsValue4(t);
  }

  /** Padding the value of a four-digit text gives the text back. */
  lemma Pad4OfDigits(s: string)
    requires |s| == 4 && forall i :: 0 <= i < 4 ==> IsDigit(s[i])
    ensures 0 <= DigitsValue(s, 10) < 10000 && Pad4(DigitsValue(s, 10)) == s
  {
    Pad2OfDigits(s[..2]);
    Pad2OfDigits(s[2..]);
    DigitsValue4(s);
    var p, q := DigitsValue(s[..2], 10), DigitsValue(s[2..], 10);
    assert (p * 100 + q) / 100 == p && (p * 100 + q) % 100 == q;
    assert s == s[..2] + s[2..];
  }

  /** The padded text of a month 1-12 matches the month part of the pattern. */
  lemma MonthShape(m: nat)
    requires 1 <= m <= 12
    ensures (Pad2(m)[0] == '0' && '1' <= Pad2(m)[1] <= '9') || (Pad2(m)[0] == '1' && '0' <= Pad2(m)[1] <= '2')
  {
    if m < 10 {
      assert m / 10 == 0 && m % 10 == m;
    } else {
      assert m / 10 == 1 && m % 10 == m - 10;
    }
  }

  /** The text of a month 1-12 of a year 0000-9999 matches the pattern. */
  lemma MonthYearShaped(m: nat, y: nat)
    requires 1 <= m <= 12 && y < 10000
    ensures MonthYearShape(MonthYear(m, y))
    ensures MonthYear(m, y)[..2] == Pad2(m) && MonthYear(m, y)[3..] == Pad4(y)
  {
    MonthShape(m);
    Pad4Value(y);
    var d := MonthYear(m, y);
    assert d[3..] == Pad4(y);
    assert forall i :: 3 <= i < 7 ==> d[i] == Pad4(y)[i - 3];
  }

  /** A string of the pattern splits at its slash into the month and year texts, read as their values. */
  lemma ShapeParts(d: string)
    requires MonthYearShape(d)
    ensures Split(d, "/") == [d[..2], d[3..]]
    ensures ParseInt(d[..2]) == Some(DigitsValue(d[..2], 10))
    ensures ParseInt(d[3..]) == Some(DigitsValue(d[3..], 10))
  {
    ShapeSplit(d);
    ShapeDigits(d);
    ParseDigits(d[..2]);
    ParseDigits(d[3..]);
  }

  lemma ShapeSplit(d: string)
    requires MonthYearShape(d)
    ensures Split(d, "/") == [d[..2], d[3..]]
  {
    var a, b := d[..2], d[3..];
    assert d == a + ['/'] + b;
    assert '/' !in a by { assert a == [d[0], d[1]]; }
    assert '/' !in b by { assert b == [d[3], d[4], d[5], d[6]]; }
    SplitOnce(a, '/', b);
  }

  lemma ShapeDigits(d: string)
    requires MonthYearShape(d)
    ensures |d[..2]| >= 1 && forall i :: 0 <= i < |d[..2]| ==> IsDigit(d[..2][i])
    ensures |d[3..]| >= 1 && forall i :: 0 <= i < |d[3..]| ==> IsDigit(d[3..][i])
  {
  }

  /** The pattern matches exactly the texts of months 1-12 of years 0000-9999. */
  lemma ShapeIff(d: string)
    ensures MonthYearShape(d) <==>
      exists m: nat, y: nat :: 1 <= m <= 12 && y < 10000 && d == MonthYear(m, y)
  {
    if MonthYearShape(d) {
      var m, y := DigitsValue(d[..2], 10), DigitsValue(d[3..], 10);
      Pad2OfDigits(d[..2]);
      Pad4OfDigits(d[3..]);
      DigitsValue2(d[..2]);
      assert d == Pad2(m) + "/" + Pad4(y);
      assert d == MonthYear(m, y);
    }
    if exists m: nat, y: nat :: 1 <= m <= 12 && y < 10000 && d == MonthYear(m, y) {
      var m: nat, y: nat :| 1 <= m <= 12 && y < 10000 && d == MonthYear(m, y);
      MonthYearShaped(m, y);
    }
  }

  /** On the text of a month and year, the check reads back that month and year. */
  lemma MonthYearReadBack(m: nat, y: nat)
    requires 1 <= m <= 12 && y < 10000
    ensures MonthYearShape(MonthYear(m, y))
    ensures var parts := Split(MonthYear(m, y), "/");
      ParseInt(Piece(parts, 0)) == Some(m) && ParseInt(Piece(parts, 1)) == Some(y)
  {
    MonthYearShaped(m, y);
    MonthYearParts(m, y);
    var d := MonthYear(m, y);
    assert ParseInt(d[..2]) == Some(m) by {
      ShapeParts(d);
      Pad2Value(m);
    }
    assert ParseInt(d[3..]) == Some(y) by {
      ShapeParts(d);
      Pad4Value(y);
    }
  }

  /** The text of a month splits at its slash into the month's and the year's digits. */
  lemma MonthYearParts(m: nat, y: nat)
    requires 1 <= m <= 12 && y < 10000
    ensures var d := MonthYear(m, y);
      Piece(Split(d, "/"), 0) == d[..2] && Piece(Split(d, "/"), 1) == d[3..]
  {
    MonthYearShaped(m, y);
    ShapeSplit(MonthYear(m, y));
  }

  /**
   * The experience check accepts exactly the empty text and the texts of
   * months 01-12 of the years 1900-2100.
   */
  lemma ExperienceDateValidIff(d: string)
    ensures ExperienceDateValid(d) <==>
      d == "" || exists m: nat, y: nat :: 1 <= m <= 12 && 1900 <= y <= 2100 && d == MonthYear(m, y)
  {
    ShapeIff(d);
    if d != "" && MonthYearShape(d) {
      var m: nat, y: nat :| 1 <= m <= 12 && y < 10000 && d == MonthYear(m, y);
      ExperienceOnMonth(m, y);
      if exists m': nat, y': nat :: 1 <= m' <= 12 && 1900 <= y' <= 2100 && d == MonthYear(m', y') {
        var m': nat, y': nat :| 1 <= m' <= 12 && 1900 <= y' <= 2100 && d == MonthYear(m', y');
        MonthYearInjective(m, y, m', y');
      }
    }
  }

  /** On the text of a month the experience check asks only for a year in 1900-2100. */
  lemma ExperienceOnMonth(m: nat, y: nat)
    requires 1 <= m <= 12 && y < 10000
    ensures ExperienceDateValid(MonthYear(m, y)) <==> 1900 <= y <= 2100
  {
    MonthYearReadBack(m, y);
    assert MonthYear(m, y) != "";
  }

  /** Different months or years have different texts. */
  lemma MonthYearInjective(m: nat, y: nat, m': nat, y': nat)
    requires 1 <= m <= 12 && y < 10000 && 1 <= m' <= 12 && y' < 10000
    requires MonthYear(m, y) == MonthYear(m', y')
    ensures m == m' && y == y'
  {
    MonthYearReadBack(m, y);
    MonthYearReadBack(m', y');
  }

  /** The education check accepts exactly the empty text and the texts of months 01-12 of any four-digit year. */
  lemma EducationDateValidIff(d: string)
    ensures EducationDateValid(d) <==>
      d == "" || exists m: nat, y: nat :: 1 <= m <= 12 && y < 10000 && d == MonthYear(m, y)
  {
    ShapeIff(d);
  }

  /** The experience check is the stricter one. */
  lemma ExperienceDateStricter(d: string)
    ensures ExperienceDateValid(d) ==> EducationDateValid(d)
    ensures EducationDateValid(MonthYear(1, 1899)) && !ExperienceDateValid(MonthYear(1, 1899))
  {
    MonthYearReadBack(1, 1899);
  }

  // ------------------------------------------------------- input formatter

  predicate IsDateChar(c: char) {
    IsDigit(c) || c == '/'
  }

  /** `value.replace(/[^0-9/]/g, '')`. */
  function KeepDateChars(s: string): (r: string)
    ensures |r| <= |s|
    ensures forall i :: 0 <= i < |r| ==> IsDateChar(r[i])
    decreases |s|
  {
    if s == [] then []
    else (if IsDateChar(s[0]) then [s[0]] else []) + KeepDateChars(s[1..])
  }

  /** Text that already holds only digits and slashes passes the filter unchanged. */
  lemma {:induction false} KeepDateCharsIdentity(s: string)
    requires forall i :: 0 <= i < |s| ==> IsDateChar(s[i])
    ensures KeepDateChars(s) == s
    decreases |s|
  {
    if s != [] {
      assert forall i :: 0 <= i < |s[1..]| ==> s[1..][i] == s[i + 1];
      KeepDateCharsIdentity(s[1..]);
      assert s == [s[0]] + s[1..];
    }
  }

  /**
   * `handleDateChange`'s formatting: keep digits and slashes, append a slash
   * to a two-character slash-free entry, cut to seven characters.
   */
  function FormatDateInput(value: string): (r: string)
    ensures |r| <= 7
    ensures forall i :: 0 <= i < |r| ==> IsDateChar(r[i])
  {
    var sanitized := KeepDateChars(value);
    var formatted := if |sanitized| == 2 && !Contains(sanitized, "/") then sanitized + "/" else sanitized;
    if |formatted| > 7 then formatted[..7] else formatted
  }

  /** Formatting text the formatter produced changes nothing. */
  lemma FormatDateInputIdempotent(value: string)
    ensures FormatDateInput(FormatDateInput(value)) == FormatDateInput(value)
  {
    var r := FormatDateInput(value);
    KeepDateCharsIdentity(r);
    var sanitized := KeepDateChars(value);
    if |r| == 2 {
      assert r == sanitized;
      assert Contains(r, "/");
    }
  }

  /** A complete month/year text is kept exactly as typed. */
  lemma FormatKeepsMonthYear(m: nat, y: nat)
    requires m < 100 && y < 10000
    ensures FormatDateInput(MonthYear(m, y)) == MonthYear(m, y)
  {
    var d := MonthYear(m, y);
    Pad2Value(m);
    Pad4Value(y);
    assert forall i :: 3 <= i < 7 ==> d[i] == Pad4(y)[i - 3];
    KeepDateCharsIdentity(d);
  }

  /** An entry of exactly two digits gets its slash: `"05"` becomes `"05/"`. */
  lemma FormatAddsSlash(a: char, b: char)
    requires IsDigit(a) && IsDigit(b)
    ensures FormatDateInput([a, b]) == [a, b, '/']
  {
    KeepDateCharsIdentity([a, b]);
    forall j | 0 <= j <= 2 ensures !OccursAt([a, b], "/", j) {
      if j + 1 <= 2 {
        assert [a, b][j..j + 1] == [[a, b][j]];
      }
    }
  }

  /** The error `handleDateChange` records for a formatted text: only a complete text that the check rejects. */
  function DateError(formatted: string, valid: bool, message: string): (e: Option<string>)
    ensures e.Some? ==> e.value == message && |formatted| >= 7 && !valid
    ensures |formatted| >= 7 && !valid ==> e.Some?
  {
    if formatted != "" && |formatted| >= 7 then
      if !valid then Some(message) else None
    else None
  }

  /**
   * After a keystroke the experience date field shows an error exactly when
   * the formatted text has seven characters and is no month 01-12 of a year 1900-2100.
   */
  lemma ExperienceKeystrokeError(value: string)
    ensures var f := FormatDateInput(value);
      DateError(f, ExperienceDateValid(f), ExperienceDateMessage).Some? <==>
        |f| == 7 && !exists m: nat, y: nat :: 1 <= m <= 12 && 1900 <= y <= 2100 && f == MonthYear(m, y)
  {
    ExperienceDateValidIff(FormatDateInput(value));
  }

  /** The same for the education date field, where any four-digit year is accepted. */
  lemma EducationKeystrokeError(value: string)
    ensures var f := FormatDateInput(value);
      DateError(f, MonthYearShape(f), EducationDateMessage).Some? <==>
        |f| == 7 && !exists m: nat, y: nat :: 1 <= m <= 12 && y < 10000 && f == MonthYear(m, y)
  {
    ShapeIff(FormatDateInput(value));
  }
}
