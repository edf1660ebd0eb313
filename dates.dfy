/** Calendar dates as the scripts use them: a session date is read from a
    sheet as text `YYYY-MM-DD` (`format_date` / `formatDate`), printed back
    in the ISO 8601 extended calendar-date form for the output file name
    (`short_date` / `sDate`, section 4.1.2.2 of ISO 8601:2004), and printed
    as `DD.MM` (`strftime("%d.%m")`) for the not-found list. */
module Dates {
  import opened Basics

  datatype Date = Date(year: int, month: int, day: int)

  predicate IsLeap(y: int) {
    y % 4 == 0 && (y % 100 != 0 || y % 400 == 0)
  }

  function DaysInMonth(y: int, m: int): (n: int)
    requires 1 <= m <= 12
    ensures 28 <= n <= 31
    ensures n == 29 <==> m == 2 && IsLeap(y)
  {
    if m == 2 then (if IsLeap(y) then 29 else 28)
    else if m == 4 || m == 6 || m == 9 || m == 11 then 30
    else 31
  }

  /** The dates Python's `datetime` constructor accepts (years 1 to 9999). */
  predicate ValidDate(d: Date) {
    1 <= d.year <= 9999 && 1 <= d.month <= 12 && 1 <= d.day <= DaysInMonth(d.year, d.month)
  }

  /** A date the `datetime` constructor accepts. */
  type CalendarDate = d: Date | ValidDate(d) witness Date(1, 1, 1)

  predicate IsDigit(c: char) { '0' <= c <= '9' }

  predicate AllDigits(s: string) {
    forall i :: 0 <= i < |s| ==> IsDigit(s[i])
  }

  function DigitChar(k: nat): (c: char)
    requires k < 10
    ensures IsDigit(c) && c as int - '0' as int == k
  {
    ('0' as int + k) as char
  }

  /** The value of a string of decimal digits, most significant first. */
  function Decimal(s: string): nat
    requires AllDigits(s)
  {
    if s == [] then 0 else 10 * Decimal(s[..|s| - 1]) + (s[|s| - 1] as int - '0' as int)
  }

  function Pow10(w: nat): (p: nat)
    ensures p >= 1
  {
    if w == 0 then 1 else 10 * Pow10(w - 1)
  }

  lemma {:induction false} DecimalBound(s: string)
    requires AllDigits(s)
    ensures Decimal(s) < Pow10(|s|)
  {
    if s != [] {
      DecimalBound(s[..|s| - 1]);
    }
  }

  /** Python's `int(t)` on the strings it reads here. It fails (a
      `ValueError`) on the empty string and on anything but decimal digits. */
  function ParseInt(t: string): (r: Option<int>)
    ensures r.Some? <==> t != [] && AllDigits(t)
    ensures r.Some? ==> 0 <= r.value < Pow10(|t|)
  {
    if t != [] && AllDigits(t) then
      DecimalBound(t);
      Some(Decimal(t))
    else None
  }

  /** Python's slice `s[lo:hi]` for non-negative bounds: both are clamped to
      the length, and an inverted range is empty. */
  function Slice(s: string, lo: nat, hi: nat): (r: string)
    ensures lo <= hi <= |s| ==> r == s[lo..hi]
    ensures lo <= |s| < hi ==> r == s[lo..]
    ensures |s| <= lo || hi <= lo ==> r == []
  {
    var a := if lo < |s| then lo else |s|;
    var b := if hi < |s| then hi else |s|;
    if a <= b then s[a..b] else []
  }

  /** `format_date` / `formatDate`: `datetime(int(s[:4]), int(s[5:7]),
      int(s[8:]))`. The characters at positions 4 and 7 are never looked at.
      `None` stands for the `ValueError` that `int` or `datetime` raises. */
  function ParseDate(s: string): (r: Option<Date>)
    ensures r.Some? ==> ValidDate(r.value)
    ensures r.Some? ==> |s| >= 9
  {
    var y := ParseInt(Slice(s, 0, 4));
    var m := ParseInt(Slice(s, 5, 7));
    var d := ParseInt(Slice(s, 8, |s|));
    if y.Some? && m.Some? && d.Some? && ValidDate(Date(y.value, m.value, d.value))
    then Some(Date(y.value, m.value, d.value))
    else None
  }

  /** `n` printed with `%0<w>d` when it fits in `w` digits. */
  function Pad(n: nat, w: nat): (r: string)
    requires n < Pow10(w)
    ensures |r| == w && AllDigits(r)
    ensures Decimal(r) == n
  {
    if w == 0 then ""
    else
      var r := Pad(n / 10, w - 1) + [DigitChar(n % 10)];
      assert r[..|r| - 1] == Pad(n / 10, w - 1);
      r
  }

  lemma {:induction false} PadDecimal(s: string)
    requires AllDigits(s)
    ensures Decimal(s) < Pow10(|s|)
    ensures Pad(Decimal(s), |s|) == s
  {
    DecimalBound(s);
    if s != [] {
      var init := s[..|s| - 1];
      PadDecimal(init);
      var n := Decimal(s);
      assert n / 10 == Decimal(init) && n % 10 == s[|s| - 1] as int - '0' as int;
      assert s == init + [s[|s| - 1]];
    }
  }

  /** `short_date` / `sDate`: `str(dt).split(" ")[0]`, i.e. the date part of
      Python's `YYYY-MM-DD HH:MM:SS` rendering of a datetime. */
  function ShortDate(d: Date): (r: string)
    requires ValidDate(d)
    ensures |r| == 10 && r[4] == '-' && r[7] == '-'
  {
    Pad(d.year, 4) + "-" + Pad(d.month, 2) + "-" + Pad(d.day, 2)
  }

  /** The same call on a date variable that is still `None` (a workbook with
      no attendance sheet): `str(None)` is `"None"`. */
  function ShortDateOr(d: Option<Date>): (r: string)
    requires d.Some? ==> ValidDate(d.value)
  {
    match d
    case None => "None"
    case Some(x) => ShortDate(x)
  }

  /** `strftime("%d.%m")`: the session label stored beside a username that
      was not found. */
  function DayMonth(d: Date): (r: string)
    requires ValidDate(d)
    ensures |r| == 5 && r[2] == '.'
    ensures AllDigits(r[..2]) && Decimal(r[..2]) == d.day
    ensures AllDigits(r[3..]) && Decimal(r[3..]) == d.month
  {
    var r := Pad(d.day, 2) + "." + Pad(d.month, 2);
    assert r[..2] == Pad(d.day, 2) && r[3..] == Pad(d.month, 2);
    r
  }

  /** A zero-padded `YYYY-MM-DD` string. */
  predicate IsIsoShape(s: string) {
    |s| == 10 && AllDigits(s[..4]) && s[4] == '-' && AllDigits(s[5..7]) && s[7] == '-' && AllDigits(s[8..])
  }

  /** Reading back a printed date gives the date again. */
  lemma ParseShortDate(d: Date)
    requires ValidDate(d)
    ensures IsIsoShape(ShortDate(d))
    ensures ParseDate(ShortDate(d)) == Some(d)
  {
    var s := ShortDate(d);
    assert Slice(s, 0, 4) == s[..4] == Pad(d.year, 4);
    assert Slice(s, 5, 7) == s[5..7] == Pad(d.month, 2);
    assert Slice(s, 8, |s|) == s[8..] == Pad(d.day, 2);
  }

  /** `short_date(format_date(s)) == s` for every zero-padded `YYYY-MM-DD`
      string that names a real date. */
  lemma ShortDateOfParse(s: string)
    requires IsIsoShape(s) && ParseDate(s).Some?
    ensures ShortDate(ParseDate(s).value) == s
  {
    var d := ParseDate(s).value;
    assert Slice(s, 0, 4) == s[..4];
    assert Slice(s, 5, 7) == s[5..7];
    assert Slice(s, 8, |s|) == s[8..];
    PadDecimal(s[..4]);
    PadDecimal(s[5..7]);
    PadDecimal(s[8..]);
    assert s == s[..4] + "-" + s[5..7] + "-" + s[8..];
  }

  /** Without zero padding the round trip fails although the date is read:
      `2024-01-5` is accepted (the day slice is `5`) and prints back as the
      ten-character `2024-01-05`. */
  lemma UnpaddedDayIsNormalised()
    ensures ParseDate("2024-01-5") == Some(Date(2024, 1, 5))
    ensures ShortDate(ParseDate("2024-01-5").value) != "2024-01-5"
  {
    var s := "2024-01-5";
    assert Slice(s, 0, 4) == "2024";
    assert Slice(s, 5, 7) == "01";
    assert Slice(s, 8, |s|) == "5";
    assert Decimal("2024") == 2024 by {
      assert "2024"[..3] == "202" && "202"[..2] == "20" && "20"[..1] == "2";
    }
    assert Decimal("01") == 1 by { assert "01"[..1] == "0"; }
  }
}
