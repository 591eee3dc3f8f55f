/** Calendar dates and the filename date parser: the filename branch of
    `get_file_date` (arrange-files-ui-2.py:43-54), which anchors
    `(\d{4})-(\d{2})-(\d{2})` at the start of the base name and hands the match
    to `datetime.strptime(..., '%Y-%m-%d')`, turning every failure into `None`.
    Also the `strftime('%Y')` and `strftime('%B-%m')` folder names
    (arrange-files-ui-2.py:94-95), with English month names. */
module Dates {
  import opened Wrappers

  datatype Date = Date(year: int, month: int, day: int)

  /** Proleptic Gregorian leap years, as Python's `datetime` uses. */
  predicate IsLeapYear(y: int) {
    y % 4 == 0 && (y % 100 != 0 || y % 400 == 0)
  }

  function DaysInMonth(y: int, m: int): int
    requires 1 <= m <= 12
  {
    if m == 2 then (if IsLeapYear(y) then 29 else 28)
    else if m == 4 || m == 6 || m == 9 || m == 11 then 30
    else 31
  }

  /** What Python's `datetime` accepts: years 1 to 9999 (MINYEAR, MAXYEAR),
      months 1 to 12, and a day that exists in that month. */
  predicate IsValid(d: Date) {
    1 <= d.year <= 9999 && 1 <= d.month <= 12 && 1 <= d.day <= DaysInMonth(d.year, d.month)
  }

  /** A `datetime` value, reduced to its date. */
  type CalendarDate = d: Date | IsValid(d) witness Date(1970, 1, 1)

  // ---------------------------------------------------------------- digits

  predicate IsDigit(c: char) {
    '0' <= c <= '9'
  }

  predicate AllDigits(s: string) {
    forall i :: 0 <= i < |s| ==> IsDigit(s[i])
  }

  function DigitValue(c: char): int
    requires IsDigit(c)
  {
    c as int - '0' as int
  }

  function DigitChar(n: int): char
    requires 0 <= n < 10
  {
    ('0' as int + n) as char
  }

  function Pow10(w: nat): nat {
    if w == 0 then 1 else 10 * Pow10(w - 1)
  }

  /** The decimal value of a string of digits, most significant first. */
  function DigitsValue(s: string): nat
    requires AllDigits(s)
  {
    if s == [] then 0 else DigitsValue(s[..|s| - 1]) * 10 + DigitValue(s[|s| - 1])
  }

  /** The `w` low-order decimal digits of `n`, zero-padded on the left
      (the `%Y`, `%m` and `%d` directives use widths 4, 2 and 2). */
  function Pad(n: nat, w: nat): (r: string)
    ensures |r| == w
    ensures AllDigits(r)
  {
    if w == 0 then [] else Pad(n / 10, w - 1) + [DigitChar(n % 10)]
  }

  /** Reading back a padded number gives the number, when it fits. */
  lemma {:induction false} PadValue(n: nat, w: nat)
    requires n < Pow10(w)
    ensures DigitsValue(Pad(n, w)) == n
  {
    if w > 0 {
      var p := Pad(n, w);
      assert p[..|p| - 1] == Pad(n / 10, w - 1);
      assert n / 10 < Pow10(w - 1);
      PadValue(n / 10, w - 1);
    }
  }

  /** Padding the value of a digit string to its own width gives it back. */
  lemma {:induction false} PadOfValue(s: string)
    requires AllDigits(s)
    ensures Pad(DigitsValue(s), |s|) == s
  {
    if s != [] {
      var init := s[..|s| - 1];
      var v := DigitsValue(s);
      var d := DigitValue(s[|s| - 1]);
      assert v == DigitsValue(init) * 10 + d;
      assert v / 10 == DigitsValue(init) && v % 10 == d;
      PadOfValue(init);
      assert s == init + [s[|s| - 1]];
    }
  }

  // ---------------------------------------------------------------- formatting

  /** `YYYY-MM-DD`, the layout the filename parser accepts. */
  function FormatDate(d: CalendarDate): string {
    Pad(d.year, 4) + "-" + Pad(d.month, 2) + "-" + Pad(d.day, 2)
  }

  /** The English month names `%B` prints under the C locale. */
  function MonthName(m: int): string
    requires 1 <= m <= 12
  {
    match m
    case 1 => "January" case 2 => "February" case 3 => "March" case 4 => "April"
    case 5 => "May" case 6 => "June" case 7 => "July" case 8 => "August"
    case 9 => "September" case 10 => "October" case 11 => "November" case _ => "December"
  }

  /** `strftime('%Y')`. */
  function YearFolderName(d: CalendarDate): string {
    Pad(d.year, 4)
  }

  /** `strftime('%B-%m')`, for instance "September-09". */
  function MonthFolderName(d: CalendarDate): string {
    MonthName(d.month) + "-" + Pad(d.month, 2)
  }

  // ---------------------------------------------------------------- parsing

  /** The regular expression `(\d{4})-(\d{2})-(\d{2})` matches at the start
      of `name` (`re.match` anchors at the start only). */
  predicate MatchesDatePattern(name: string) {
    |name| >= 10
    && AllDigits(name[0..4]) && name[4] == '-'
    && AllDigits(name[5..7]) && name[7] == '-'
    && AllDigits(name[8..10])
  }

  /** The date in front of a base file name, or `None` when there is no
      `DDDD-DD-DD` prefix or `strptime` rejects it (the exception it raises
      is caught and also yields `None`). */
  function ParseFilenameDate(name: string): Option<CalendarDate> {
    if !MatchesDatePattern(name) then None
    else
      var d := Date(DigitsValue(name[0..4]), DigitsValue(name[5..7]), DigitsValue(name[8..10]));
      if IsValid(d) then Some(d) else None
  }

  /** What the parser returns is the date the name starts with. */
  lemma ParsedDateIsPrefix(name: string)
    requires ParseFilenameDate(name).Some?
    ensures |name| >= 10 && name[..10] == FormatDate(ParseFilenameDate(name).value)
  {
    PadOfValue(name[0..4]);
    PadOfValue(name[5..7]);
    PadOfValue(name[8..10]);
    assert name[..10] == name[0..4] + "-" + name[5..7] + "-" + name[8..10];
  }

  /** A name that starts with a formatted date parses to that date. */
  lemma PrefixDateIsParsed(name: string, d: CalendarDate)
    requires |name| >= 10 && name[..10] == FormatDate(d)
    ensures ParseFilenameDate(name) == Some(d)
  {
    assert name[0..4] == Pad(d.year, 4);
    assert name[5..7] == Pad(d.month, 2);
    assert name[8..10] == Pad(d.day, 2);
    PadValue(d.year, 4);
    PadValue(d.month, 2);
    PadValue(d.day, 2);
  }

  /** The parser returns `d` exactly when the name starts with `d` written
      as `YYYY-MM-DD`; whatever follows the tenth character is irrelevant. */
  lemma ParseFilenameDateIff(name: string, d: CalendarDate)
    ensures ParseFilenameDate(name) == Some(d) <==> |name| >= 10 && name[..10] == FormatDate(d)
  {
    if ParseFilenameDate(name) == Some(d) {
      ParsedDateIsPrefix(name);
    }
    if |name| >= 10 && name[..10] == FormatDate(d) {
      PrefixDateIsParsed(name, d);
    }
  }

  /** Round trip: a formatted date, followed by anything, parses back to it. */
  lemma ParseFormatted(d: CalendarDate, rest: string)
    ensures ParseFilenameDate(FormatDate(d) + rest) == Some(d)
  {
    ParseFilenameDateIff(FormatDate(d) + rest, d);
    assert (FormatDate(d) + rest)[..10] == FormatDate(d);
  }

  /** A two-digit string read as a number. */
  lemma DigitsValueTwo(s: string)
    requires |s| == 2 && AllDigits(s)
    ensures DigitsValue(s) == 10 * DigitValue(s[0]) + DigitValue(s[1])
  {
    var s1 := s[..1];
    assert s1[..0] == [] && s1[0] == s[0];
    assert DigitsValue(s1) == DigitValue(s[0]);
  }

  /** A four-digit string read as a number. */
  lemma DigitsValueFour(s: string)
    requires |s| == 4 && AllDigits(s)
    ensures DigitsValue(s) == 1000 * DigitValue(s[0]) + 100 * DigitValue(s[1]) + 10 * DigitValue(s[2]) + DigitValue(s[3])
  {
    var s3 := s[..3];
    var s2 := s[..2];
    assert s3[..2] == s2 && s3[2] == s[2];
    DigitsValueTwo(s2);
    assert DigitsValue(s3) == 10 * DigitsValue(s2) + DigitValue(s[2]);
  }

  /** A February 29th in the name yields a date exactly in leap years. */
  lemma LeapDay(y: int, rest: string)
    requires 1 <= y <= 9999
    ensures ParseFilenameDate(Pad(y, 4) + "-02-29" + rest).Some? <==> IsLeapYear(y)
  {
    var name := Pad(y, 4) + "-02-29" + rest;
    assert name[0..4] == Pad(y, 4);
    assert name[5..7] == "02" && name[8..10] == "29";
    assert name[4] == '-' && name[7] == '-';
    PadValue(y, 4);
    DigitsValueTwo("02");
    DigitsValueTwo("29");
    assert MatchesDatePattern(name);
  }

  /** A name shorter than ten characters, or with the wrong layout, has no date. */
  lemma MalformedNamesRejected()
    ensures ParseFilenameDate("2023-05") == None
    ensures ParseFilenameDate("2023_05_01.jpg") == None
    ensures ParseFilenameDate("IMG-2023-05-01.jpg") == None
    ensures ParseFilenameDate("2023-5-01-x.jpg") == None
  {
    assert "2023_05_01.jpg"[4] == '_';
    assert !IsDigit("IMG-2023-05-01.jpg"[0]);
    assert "2023-5-01-x.jpg"[7] == '0';
  }

  /** `strptime` rejects month 13; the exception becomes `None`. */
  lemma MonthThirteenRejected()
    ensures ParseFilenameDate("2023-13-01.jpg") == None
  {
    var name := "2023-13-01.jpg";
    assert name[5..7] == "13";
    DigitsValueTwo("13");
  }

  /** `datetime` rejects February 30th. */
  lemma FebruaryThirtiethRejected()
    ensures ParseFilenameDate("2024-02-30.jpg") == None
  {
    var name := "2024-02-30.jpg";
    assert name[5..7] == "02" && name[8..10] == "30";
    DigitsValueTwo("02");
    DigitsValueTwo("30");
  }

  /** `datetime` rejects year zero. */
  lemma YearZeroRejected()
    ensures ParseFilenameDate("0000-01-01.jpg") == None
  {
    var name := "0000-01-01.jpg";
    assert name[0..4] == "0000";
    DigitsValueFour("0000");
  }
}
