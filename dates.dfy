/**
  Calendar days and the upload handler's `parseDate` (routes/upload.js).
  A date is an integer day number counted from 1970-01-01; time of day and
  time zones are not modelled (every clock is UTC).
*/
module Dates {
  import opened Js

  /** Days since 1970-01-01. */
  type Day = int

  /** Day number of a proleptic Gregorian date; `d` may overflow the month,
      as it may in JavaScript's `new Date(y, m, d)`. */
  function DaysFromCivil(y: int, m: int, d: int): Day
    requires 1 <= m <= 12
  {
    var y' := if m <= 2 then y - 1 else y;
    var era := y' / 400;
    var yoe := y' - era * 400;
    var mp := if m > 2 then m - 3 else m + 9;
    var doy := (153 * mp + 2) / 5 + d - 1;
    var doe := yoe * 365 + yoe / 4 - yoe / 100 + doy;
    era * 146097 + doe - 719468
  }

  /** Year, month and day of a day number (the inverse of DaysFromCivil). */
  function CivilFromDays(z: Day): (int, int, int) {
    var z' := z + 719468;
    var era := z' / 146097;
    var doe := z' - era * 146097;
    var yoe := (doe - doe / 1460 + doe / 36524 - doe / 146096) / 365;
    var doy := doe - (365 * yoe + yoe / 4 - yoe / 100);
    var mp := (5 * doy + 2) / 153;
    var d := doy - (153 * mp + 2) / 5 + 1;
    var m := if mp < 10 then mp + 3 else mp - 9;
    (yoe + era * 400 + (if m <= 2 then 1 else 0), m, d)
  }

  function Zeros(n: nat): string {
    seq(n, _ => '0')
  }

  /** `String(n).padStart(w, '0')` */
  function Pad(n: int, w: nat): string {
    var s := IntToString(n);
    if |s| >= w then s else Zeros(w - |s|) + s
  }

  /** The year field of `toISOString`: four digits, or a sign and six digits. */
  function YearText(y: int): string {
    if 0 <= y <= 9999 then Pad(y, 4)
    else (if y < 0 then "-" else "+") + Pad(if y < 0 then -y else y, 6)
  }

  /** `date.toISOString().split('T')[0]` */
  function FormatDate(z: Day): string {
    FormatCivil(CivilFromDays(z))
  }

  /** A year, month and day as `YYYY-MM-DD`. */
  function FormatCivil(c: (int, int, int)): string {
    YearText(c.0) + "-" + Pad(c.1, 2) + "-" + Pad(c.2, 2)
  }

  /** `new Date().toISOString()`: the date of `today` and a time-of-day text. */
  function NowIso(today: Day, timeText: string): string {
    FormatDate(today) + "T" + timeText
  }

  /** `new Date(year, month, date)` with a zero-based month: years 0..99 mean
      1900..1999 and the month and date may overflow. */
  function MakeDate(year: int, month0: int, date: int): Day {
    var fullYear := if 0 <= year <= 99 then 1900 + year else year;
    DaysFromCivil(fullYear + month0 / 12, month0 % 12 + 1, 1) + date - 1
  }

  /** `new Date(1900, 0, 1)` */
  const EPOCH_1900: Day := DaysFromCivil(1900, 1, 1)

  /** The serial branch of parseDate: 1900-01-01 plus (n - 2) days. */
  function SerialDay(n: real): Day {
    EPOCH_1900 + (n - 2.0).Floor
  }

  // ---------------------------------------------------------------------
  // The regular expression /(\d{1,2})-(\d{1,2})-(\d{4})/
  // ---------------------------------------------------------------------

  datatype DMY = DMY(day: nat, month: nat, year: nat)

  /** The pattern at the start of `t` with a day of `dl` and a month of `ml` digits. */
  function TryShape(t: string, dl: nat, ml: nat): Option<DMY> {
    var ms := dl + 1;
    var ys := dl + ml + 2;
    if |t| >= ys + 4 && AllDigits(t[..dl]) && t[dl] == '-' && AllDigits(t[ms..ms + ml])
       && t[ms + ml] == '-' && AllDigits(t[ys..ys + 4])
    then Some(DMY(DigitsValue(t[..dl]), DigitsValue(t[ms..ms + ml]), DigitsValue(t[ys..ys + 4])))
    else None
  }

  /** The pattern anchored at the start of `t`, alternatives in the order a
      backtracking matcher tries them (greedy `{1,2}` first). */
  function MatchAt(t: string): Option<DMY> {
    var a := TryShape(t, 2, 2);
    if a.Some? then a else
    var b := TryShape(t, 2, 1);
    if b.Some? then b else
    var c := TryShape(t, 1, 2);
    if c.Some? then c else TryShape(t, 1, 1)
  }

  /** `s.match(regex)` without anchors: the leftmost match from position `i`. */
  function SearchDMY(s: string, i: nat): Option<DMY>
    requires i <= |s|
    decreases |s| - i
  {
    var here := MatchAt(s[i..]);
    if here.Some? then here
    else if i == |s| then None
    else SearchDMY(s, i + 1)
  }

  // ---------------------------------------------------------------------
  // parseDate
  // ---------------------------------------------------------------------

  /** `parseDate(value)`. `now` is `new Date()`; `engineParse` is the
      JavaScript engine's `new Date(text)`, None for an invalid date. */
  function ParseDate(value: Cell, now: Day, engineParse: string -> Option<Day>): Day {
    if !Truthy(value) then now
    else ParseText(Trim(CellString(value)), now, engineParse)
  }

  /** parseDate on the trimmed text of a truthy value: a spreadsheet serial
      first, then the day-month-year pattern, then the engine's parser. */
  function ParseText(clean: string, now: Day, engineParse: string -> Option<Day>): Day {
    var numeric := ParseFloatText(clean);
    if numeric.Some? && 1.0 < numeric.value < 100000.0 then SerialDay(numeric.value)
    else
      match SearchDMY(clean, 0)
      case Some(m) => MakeDate(m.year, m.month - 1, m.day)
      case None =>
        match engineParse(clean)
        case Some(d) => d
        case None => now
  }

  // ---------------------------------------------------------------------
  // Lemmas
  // ---------------------------------------------------------------------

  /** An empty cell (`''`, `0`, `undefined`, `false`) dates the row "now". */
  lemma ParseDateFalsy(value: Cell, now: Day, engineParse: string -> Option<Day>)
    requires !Truthy(value)
    ensures ParseDate(value, now, engineParse) == now
  {
  }

  lemma TrimUnchanged(s: string)
    requires |s| > 0 && !IsSpace(s[0]) && !IsSpace(s[|s| - 1])
    ensures Trim(s) == s
  {
  }

  lemma {:induction false} ZerosValue(n: nat)
    ensures AllDigits(Zeros(n)) && DigitsValue(Zeros(n)) == 0
  {
    if n > 0 {
      assert Zeros(n)[..n - 1] == Zeros(n - 1);
      ZerosValue(n - 1);
    }
  }

  /** Leading zeros do not change the value of a digit string. */
  lemma {:induction false} LeadingZerosValue(z: nat, s: string)
    requires AllDigits(s)
    ensures AllDigits(Zeros(z) + s) && DigitsValue(Zeros(z) + s) == DigitsValue(s)
    decreases |s|
  {
    ZerosValue(z);
    var t := Zeros(z) + s;
    assert AllDigits(t) by {
      forall i | 0 <= i < |t| ensures IsDigit(t[i]) {
        if i < z { assert t[i] == Zeros(z)[i]; } else { assert t[i] == s[i - z]; }
      }
    }
    if |s| > 0 {
      assert t[..|t| - 1] == Zeros(z) + s[..|s| - 1];
      LeadingZerosValue(z, s[..|s| - 1]);
    } else {
      assert t == Zeros(z);
    }
  }

  lemma {:induction false} NatToStringShort(n: nat, k: nat)
    requires k >= 1 && n < Pow10(k)
    ensures |NatToString(n)| <= k
    decreases k
  {
    if n >= 10 {
      NatToStringShort(n / 10, k - 1);
    }
  }

  /** `String(n).padStart(w, '0')` is `w` digits whose value is `n`. */
  lemma PadDigits(n: nat, w: nat)
    requires w >= 1 && n < Pow10(w)
    ensures |Pad(n, w)| == w && AllDigits(Pad(n, w)) && DigitsValue(Pad(n, w)) == n
  {
    NatToStringShort(n, w);
    DigitsValueOfNat(n);
    var s := NatToString(n);
    if |s| < w {
      LeadingZerosValue(w - |s|, s);
    }
  }

  lemma TrimStartUnchanged(s: string)
    requires |s| > 0 && !IsSpace(s[0])
    ensures TrimStart(s) == s
  {
  }

  /** A leading digit string followed by `-` is read by parseFloat as its value. */
  lemma LeadingDigitsBeforeDash(digits: string, rest: string)
    requires |digits| > 0 && AllDigits(digits)
    ensures ParseFloatText(digits + "-" + rest) == Some(DigitsValue(digits) as real)
  {
    var s := digits + "-" + rest;
    assert s == digits + ("-" + rest);
    assert s[0] == digits[0];
    TrimStartUnchanged(s);
    LeadingNumberOfDigits(digits, "-" + rest);
  }

  /** The regular expression reads back a day, month and year written as
      `DD-MM-YYYY`. */
  lemma DmyReadBack(d: nat, m: nat, y: nat)
    requires d <= 99 && m <= 99 && y <= 9999
    ensures SearchDMY(Pad(d, 2) + "-" + Pad(m, 2) + "-" + Pad(y, 4), 0) == Some(DMY(d, m, y))
  {
    PadDigits(d, 2);
    PadDigits(m, 2);
    PadDigits(y, 4);
    var s := Pad(d, 2) + "-" + Pad(m, 2) + "-" + Pad(y, 4);
    assert s[0..] == s;
    assert s[..2] == Pad(d, 2);
    assert s[3..5] == Pad(m, 2);
    assert s[6..10] == Pad(y, 4);
  }

  /** The serial branch of parseDate. */
  lemma SerialBranch(s: string, n: real, now: Day, engineParse: string -> Option<Day>)
    requires s != "" && ParseFloatText(Trim(s)) == Some(n) && 1.0 < n < 100000.0
    ensures ParseDate(Str(s), now, engineParse) == SerialDay(n)
  {
  }

  /** The day-month-year branch of parseDate: trimmed text that is not a
      serial and that the pattern matches. */
  lemma DmyBranch(s: string, m: DMY, now: Day, engineParse: string -> Option<Day>)
    requires s != "" && SearchDMY(Trim(s), 0) == Some(m)
    requires ParseFloatText(Trim(s)).None? || !(1.0 < ParseFloatText(Trim(s)).value < 100000.0)
    ensures ParseDate(Str(s), now, engineParse) == MakeDate(m.year, m.month - 1, m.day)
  {
  }

  /** The engine's branch: text that is neither a serial nor matched by the
      pattern is handed to `new Date(text)`. */
  lemma EngineBranch(s: string, d: Day, now: Day, engineParse: string -> Option<Day>)
    requires s != "" && SearchDMY(Trim(s), 0).None?
    requires ParseFloatText(Trim(s)).None? || !(1.0 < ParseFloatText(Trim(s)).value < 100000.0)
    requires engineParse(Trim(s)) == Some(d)
    ensures ParseDate(Str(s), now, engineParse) == d
  {
  }

  /** Text that no branch reads (an invalid date) dates the row "now". */
  lemma UnparseableIsNow(s: string, now: Day, engineParse: string -> Option<Day>)
    requires s != "" && SearchDMY(Trim(s), 0).None?
    requires ParseFloatText(Trim(s)).None? || !(1.0 < ParseFloatText(Trim(s)).value < 100000.0)
    requires engineParse(Trim(s)).None?
    ensures ParseDate(Str(s), now, engineParse) == now
  {
  }

  /** What parseFloat and the regular expression read from `DD-MM-YYYY` text. */
  lemma DdMmYyyyReading(d: nat, m: nat, y: nat)
    requires d <= 99 && m <= 99 && y <= 9999
    ensures var s := Pad(d, 2) + "-" + Pad(m, 2) + "-" + Pad(y, 4);
      && s != "" && Trim(s) == s && ParseFloatText(s) == Some(d as real)
      && SearchDMY(s, 0) == Some(DMY(d, m, y))
  {
    DdMmYyyyTrim(d, m, y);
    DdMmYyyyFloat(d, m, y);
    DmyReadBack(d, m, y);
  }

  lemma DdMmYyyyTrim(d: nat, m: nat, y: nat)
    requires d <= 99 && m <= 99 && y <= 9999
    ensures var s := Pad(d, 2) + "-" + Pad(m, 2) + "-" + Pad(y, 4);
      s != "" && Trim(s) == s
  {
    var dd, mm, yy := Pad(d, 2), Pad(m, 2), Pad(y, 4);
    var s := dd + "-" + mm + "-" + yy;
    PadDigits(d, 2);
    PadDigits(y, 4);
    assert s[0] == dd[0];
    assert s[|s| - 1] == yy[3];
    TrimUnchanged(s);
  }

  lemma DdMmYyyyFloat(d: nat, m: nat, y: nat)
    requires d <= 99
    ensures ParseFloatText(Pad(d, 2) + "-" + Pad(m, 2) + "-" + Pad(y, 4)) == Some(d as real)
  {
    var dd, mm, yy := Pad(d, 2), Pad(m, 2), Pad(y, 4);
    PadDigits(d, 2);
    assert dd + "-" + mm + "-" + yy == dd + "-" + (mm + "-" + yy);
    LeadingDigitsBeforeDash(dd, mm + "-" + yy);
  }

  /** parseDate on `DD-MM-YYYY` text: the leading day is read by parseFloat
      first, so every day from 02 on takes the serial branch and only days
      00 and 01 reach the day-month-year reading. */
  lemma DdMmYyyyText(d: nat, m: nat, y: nat, now: Day, engineParse: string -> Option<Day>)
    requires d <= 99 && m <= 99 && y <= 9999
    ensures var s := Pad(d, 2) + "-" + Pad(m, 2) + "-" + Pad(y, 4);
      && (d >= 2 ==> ParseDate(Str(s), now, engineParse) == SerialDay(d as real))
      && (d <= 1 ==> ParseDate(Str(s), now, engineParse) == MakeDate(y, m - 1, d))
  {
    var s := Pad(d, 2) + "-" + Pad(m, 2) + "-" + Pad(y, 4);
    DdMmYyyyReading(d, m, y);
    if d >= 2 {
      SerialBranch(s, d as real, now, engineParse);
    } else {
      DmyBranch(s, DMY(d, m, y), now, engineParse);
    }
  }

  /** "05-03-2024" is 1900-01-04 (serial 5), not 5 March 2024. */
  lemma FifthOfMarchIsSerialFive(now: Day, engineParse: string -> Option<Day>)
    ensures ParseDate(Str("05-03-2024"), now, engineParse) == DaysFromCivil(1900, 1, 4)
    ensures ParseDate(Str("05-03-2024"), now, engineParse) != MakeDate(2024, 2, 5)
  {
    DdMmYyyyLiteral(5, 3, "05-03-2024");
    DdMmYyyyText(5, 3, 2024, now, engineParse);
  }

  /** "01-03-2024" reaches the day-month-year reading: 1 March 2024. */
  lemma FirstOfMarchIsDayMonthYear(now: Day, engineParse: string -> Option<Day>)
    ensures ParseDate(Str("01-03-2024"), now, engineParse) == DaysFromCivil(2024, 3, 1)
  {
    DdMmYyyyLiteral(1, 3, "01-03-2024");
    DdMmYyyyText(1, 3, 2024, now, engineParse);
    MakeDateInYear(2024, 2, 1);
  }

  /** Within a year past 99 and a month in range, `new Date(y, m, d)` is the
      calendar date (y, m + 1, d). */
  lemma MakeDateInYear(y: int, month0: int, d: int)
    requires y > 99 && 0 <= month0 < 12
    ensures MakeDate(y, month0, d) == DaysFromCivil(y, month0 + 1, d)
  {
    assert month0 / 12 == 0 && month0 % 12 == month0;
  }

  /** `DD-MM-2024` for a one-digit day and month. */
  lemma DdMmYyyyLiteral(d: nat, m: nat, s: string)
    requires 1 <= d <= 9 && 1 <= m <= 9
    requires s == ['0', DigitChar(d), '-', '0', DigitChar(m), '-', '2', '0', '2', '4']
    ensures Pad(d, 2) + "-" + Pad(m, 2) + "-" + Pad(2024, 4) == s
  {
    Year2024Text();
  }

  lemma Year2024Text()
    ensures Pad(2024, 4) == "2024"
  {
  }

  /** A numeric serial n with 1 < n < 100000 is the day n days after 1899-12-30. */
  lemma SerialRoundTrip(n: int, now: Day, engineParse: string -> Option<Day>)
    requires 1 < n < 100000
    ensures ParseDate(Num(n), now, engineParse) == DaysFromCivil(1899, 12, 30) + n
  {
    var s := IntToString(n);
    assert s == NatToString(n);
    assert !IsSpace(s[0]) && !IsSpace(s[|s| - 1]);
    TrimUnchanged(s);
    ParseFloatOfInt(n);
    assert ParseFloatText(s) == Some(n as real);
    assert (n as real - 2.0).Floor == n - 2;
    assert ParseDate(Num(n), now, engineParse) == EPOCH_1900 + (n - 2);
    EpochMinusTwo();
  }

  /** 1900-01-01 less two days is 1899-12-30. */
  lemma EpochMinusTwo()
    ensures EPOCH_1900 - 2 == DaysFromCivil(1899, 12, 30)
  {
    assert EPOCH_1900 == -25567;
    assert DaysFromCivil(1899, 12, 30) == -25569;
  }

  /** With no date column a row is dated by `new Date().toISOString()`,
      whose leading year is read as a serial number: the row gets the day
      (year - 2) days after 1900-01-01 instead of today. */
  lemma DefaultDateIsSerialYear(today: Day, timeText: string, engineParse: string -> Option<Day>)
    requires 1000 <= CivilFromDays(today).0 <= 9999
    ensures ParseDate(Str(NowIso(today, timeText)), today, engineParse)
            == SerialDay(CivilFromDays(today).0 as real)
  {
    var y := CivilFromDays(today).0;
    var s := NowIso(today, timeText);
    IsoYearPrefix(today, timeText);
    var yy := Pad(y, 4);
    PadDigits(y, 4);
    var c := Trim(s);
    assert c == yy + "-" + c[5..];
    LeadingDigitsBeforeDash(yy, c[5..]);
    SerialBranch(s, y as real, today, engineParse);
  }

  /** The trimmed ISO text starts with the four-digit year and a dash. */
  lemma IsoYearPrefix(today: Day, timeText: string)
    requires 1000 <= CivilFromDays(today).0 <= 9999
    ensures var c := Trim(NowIso(today, timeText));
      |c| >= 5 && c[..5] == Pad(CivilFromDays(today).0, 4) + "-"
  {
    CivilYearPrefix(CivilFromDays(today), timeText);
  }

  lemma CivilYearPrefix(civil: (int, int, int), timeText: string)
    requires 1000 <= civil.0 <= 9999
    ensures var c := Trim(FormatCivil(civil) + "T" + timeText);
      |c| >= 5 && c[..5] == Pad(civil.0, 4) + "-"
  {
    var yy := Pad(civil.0, 4);
    PadDigits(civil.0, 4);
    var tail := Pad(civil.1, 2) + "-" + Pad(civil.2, 2) + "T" + timeText;
    assert YearText(civil.0) == yy;
    assert FormatCivil(civil) == yy + "-" + (Pad(civil.1, 2) + "-" + Pad(civil.2, 2));
    assert FormatCivil(civil) + "T" + timeText == (yy + "-") + tail;
    TrimKeepsPrefix(yy + "-", tail);
  }

  /** Trimming keeps a prefix that starts and ends with a non-space. */
  lemma TrimKeepsPrefix(p: string, t: string)
    requires |p| > 0 && !IsSpace(p[0]) && !IsSpace(p[|p| - 1])
    ensures |Trim(p + t)| >= |p| && Trim(p + t)[..|p|] == p
  {
    assert (p + t)[0] == p[0];
    TrimStartUnchanged(p + t);
    TrimEndKeepsPrefix(p, t);
  }

  /** Trimming the end never removes a prefix that ends in a non-space. */
  lemma {:induction false} TrimEndKeepsPrefix(p: string, t: string)
    requires |p| > 0 && !IsSpace(p[|p| - 1])
    ensures |TrimEnd(p + t)| >= |p| && TrimEnd(p + t)[..|p|] == p
    decreases |t|
  {
    var s := p + t;
    if |t| > 0 && IsSpace(s[|s| - 1]) {
      assert s[..|s| - 1] == p + t[..|t| - 1];
      TrimEndKeepsPrefix(p, t[..|t| - 1]);
    } else if |t| == 0 {
      assert s == p;
    }
  }

  /** In 2026 a row without a date is dated 18 July 1905. */
  lemma SerialOf2026()
    ensures SerialDay(2026.0) == DaysFromCivil(1905, 7, 18)
  {
  }
}
