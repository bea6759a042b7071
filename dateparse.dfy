/**
 * Python's `datetime.strptime(s, "%Y-%m-%d")`, the date check of every diary handler.
 * `%Y` matches exactly four digits, `%m` the regular expression `1[0-2]|0[1-9]|[1-9]`,
 * `%d` the expression `3[01]|[12]\d|0[1-9]|[1-9]| [1-9]`; the whole string must be
 * consumed, and the result must be a real calendar date of a year from 1 to 9999.
 * So unpadded months and days (`2024-3-1`) and a day written with a leading blank
 * (`2024-03- 5`) are accepted; `2023-02-29` and `2024-13-01` are not.
 */
module DateParse {
  import opened Strings
  import opened Wrappers

  datatype Date = Date(year: int, month: int, day: int)

  predicate IsLeapYear(y: int)
  {
    y % 4 == 0 && (y % 100 != 0 || y % 400 == 0)
  }

  function DaysInMonth(y: int, m: int): (n: int)
    requires 1 <= m <= 12
    ensures 28 <= n <= 31
  {
    if m == 2 then (if IsLeapYear(y) then 29 else 28)
    else if m == 4 || m == 6 || m == 9 || m == 11 then 30
    else 31
  }

  predicate IsValidDate(d: Date)
  {
    1 <= d.year <= 9999 && 1 <= d.month <= 12 && 1 <= d.day <= DaysInMonth(d.year, d.month)
  }

  /**
   * How many characters `%m` takes at the start of `t`, or 0 when it matches nothing.
   * Taking the first alternative that matches is exact here: once a two-character
   * alternative has matched, the one-character one would leave a digit where the
   * format needs `-`.
   */
  function MonthFieldLength(t: string): (k: nat)
    ensures k <= 2 && k <= |t|
    ensures AllDigits(t[..k])
  {
    if |t| >= 2 && t[0] == '1' && '0' <= t[1] <= '2' then 2
    else if |t| >= 2 && t[0] == '0' && '1' <= t[1] <= '9' then 2
    else if |t| >= 1 && '1' <= t[0] <= '9' then 1
    else 0
  }

  /** The text `%d` accepts when it must reach the end of the string. */
  predicate IsDayField(r: string)
  {
    || (|r| == 1 && '1' <= r[0] <= '9')
    || (|r| == 2 && r[0] == '3' && (r[1] == '0' || r[1] == '1'))
    || (|r| == 2 && (r[0] == '1' || r[0] == '2') && IsDigit(r[1]))
    || (|r| == 2 && (r[0] == '0' || r[0] == ' ') && '1' <= r[1] <= '9')
  }

  function DayFieldValue(r: string): (n: int)
    requires IsDayField(r)
    ensures 1 <= n <= 39
  {
    if |r| == 1 then r[0] as int - '0' as int
    else (if r[0] == ' ' then 0 else r[0] as int - '0' as int) * 10 + (r[1] as int - '0' as int)
  }

  /** `datetime.strptime(s, "%Y-%m-%d")`: the date, or `None` where Python raises `ValueError`. */
  function Strptime(s: string): (r: Option<Date>)
    ensures r.Some? ==> IsValidDate(r.value)
  {
    if |s| < 5 || !AllDigits(s[..4]) || s[4] != '-' then None
    else
      var rest := s[5..];
      var k := MonthFieldLength(rest);
      if k == 0 || |rest| <= k || rest[k] != '-' then None
      else
        var dayText := rest[k + 1..];
        if !IsDayField(dayText) then None
        else
          var d := Date(DigitsValue(s[..4]), DigitsValue(rest[..k]), DayFieldValue(dayText));
          if IsValidDate(d) then Some(d) else None
  }

  /** An accepted string is made of digits, `-` and blanks only. */
  lemma StrptimeCharacters(s: string)
    requires Strptime(s).Some?
    ensures forall i :: 0 <= i < |s| ==> IsDigit(s[i]) || s[i] == '-' || s[i] == ' '
  {
    var rest := s[5..];
    var k := MonthFieldLength(rest);
    var dayText := rest[k + 1..];
    forall i | 0 <= i < |s| ensures IsDigit(s[i]) || s[i] == '-' || s[i] == ' ' {
      if i < 4 { assert s[i] == s[..4][i]; }
      else if 5 <= i < 5 + k { assert s[i] == rest[..k][i - 5]; }
      else if i > 5 + k { assert s[i] == dayText[i - 6 - k]; }
    }
  }

  /** An accepted date never contains `_`, the separator of the document keys. */
  lemma StrptimeNoUnderscore(s: string)
    requires Strptime(s).Some?
    ensures '_' !in s
  {
    StrptimeCharacters(s);
  }

  /** Reading `y-m-d` when each field has the shape its directive takes. */
  lemma StrptimeOf(y: string, m: string, d: string)
    requires |y| == 4 && AllDigits(y) && AllDigits(m) && IsDayField(d)
    requires |m| >= 1 && MonthFieldLength(m + "-" + d) == |m|
    ensures var date := Date(DigitsValue(y), DigitsValue(m), DayFieldValue(d));
      Strptime(y + "-" + m + "-" + d) == if IsValidDate(date) then Some(date) else None
  {
    var rest := m + "-" + d;
    assert y + "-" + m + "-" + d == y + "-" + rest;
    DashSplit(y, rest);
    DashSplit(m, d);
  }

  /** `int()` of four ASCII digits. */
  lemma FourDigitsValue(s: string)
    requires |s| == 4 && AllDigits(s)
    ensures DigitsValue(s) == 1000 * (s[0] as int - '0' as int) + 100 * (s[1] as int - '0' as int)
                              + 10 * (s[2] as int - '0' as int) + (s[3] as int - '0' as int)
  {
    var a, b, c := s[..1], s[..2], s[..3];
    assert a[..0] == [] && DigitsValue(a) == s[0] as int - '0' as int;
    assert b[..1] == a && DigitsValue(b) == DigitsValue(a) * 10 + (s[1] as int - '0' as int);
    assert c[..2] == b && DigitsValue(c) == DigitsValue(b) * 10 + (s[2] as int - '0' as int);
    assert s[..3] == c && DigitsValue(s) == DigitsValue(c) * 10 + (s[3] as int - '0' as int);
  }

  /** The canonical `YYYY-MM-DD` spelling of a date. */
  function FormatDate(d: Date): (s: string)
    requires IsValidDate(d)
    ensures |s| == 10
  {
    Digits(d.year, 4) + "-" + Digits(d.month, 2) + "-" + Digits(d.day, 2)
  }

  lemma TwoDigits(n: nat)
    requires n < 100
    ensures Digits(n, 2) == [DigitChar(n / 10), DigitChar(n % 10)]
  {
    var hi := n / 10;
    assert 10 * hi <= n;
    assert hi < 10 && hi / 10 == 0 && hi % 10 == hi;
    assert Digits(hi, 1) == Digits(0, 0) + [DigitChar(hi)];
  }

  /** `%m` takes both characters of a zero-padded month. */
  lemma PaddedMonthField(month: nat, r: string)
    requires 1 <= month <= 12
    ensures MonthFieldLength(Digits(month, 2) + "-" + r) == 2
  {
    TwoDigits(month);
    var t := Digits(month, 2) + "-" + r;
    assert t[0] == DigitChar(month / 10) && t[1] == DigitChar(month % 10);
  }

  /** `%d` takes a zero-padded day and reads back its value. */
  lemma PaddedDayField(day: nat)
    requires 1 <= day <= 31
    ensures IsDayField(Digits(day, 2)) && DayFieldValue(Digits(day, 2)) == day
  {
    TwoDigits(day);
  }

  /** Every valid date, written canonically, is read back as itself. */
  lemma StrptimeFormatDate(d: Date)
    requires IsValidDate(d)
    ensures Strptime(FormatDate(d)) == Some(d)
  {
    var y, m, dd := Digits(d.year, 4), Digits(d.month, 2), Digits(d.day, 2);
    assert Pow10(4) == 10000 && Pow10(2) == 100;
    DigitsValueOfDigits(d.year, 4);
    DigitsValueOfDigits(d.month, 2);
    PaddedMonthField(d.month, dd);
    PaddedDayField(d.day);
    StrptimeOf(y, m, dd);
  }

  lemma AcceptsUnpadded()
    ensures Strptime("2024-3-1") == Some(Date(2024, 3, 1))
  {
    FourDigitsValue("2024");
    assert DigitsValue("2024") == 2024;
    assert DigitsValue("3") == 3 by { assert "3"[..0] == ""; }
    assert "2024-3-1" == "2024" + "-" + "3" + "-" + "1";
    StrptimeOf("2024", "3", "1");
  }

  /** `%Y-%m-%d` accepts the two-digit month `02` and reads it as 2. */
  lemma FebruaryField()
    ensures AllDigits("02") && DigitsValue("02") == 2 && MonthFieldLength("02-29") == 2
    ensures IsDayField("29") && DayFieldValue("29") == 29
  {
    assert "02"[..1] == "0" && "0"[..0] == "";
  }

  lemma RejectsNonLeapFebruary29()
    ensures Strptime("2023-02-29") == None
  {
    FourDigitsValue("2023");
    assert DigitsValue("2023") == 2023;
    FebruaryField();
    assert "2023-02-29" == "2023" + "-" + "02" + "-" + "29";
    StrptimeOf("2023", "02", "29");
    assert !IsValidDate(Date(2023, 2, 29));
  }

  lemma AcceptsLeapFebruary29()
    ensures Strptime("2024-02-29") == Some(Date(2024, 2, 29))
  {
    FourDigitsValue("2024");
    assert DigitsValue("2024") == 2024;
    FebruaryField();
    assert "2024-02-29" == "2024" + "-" + "02" + "-" + "29";
    StrptimeOf("2024", "02", "29");
    assert IsValidDate(Date(2024, 2, 29));
  }

  /** Chronological order of dates. */
  predicate DateBefore(a: Date, b: Date)
  {
    || a.year < b.year
    || (a.year == b.year && a.month < b.month)
    || (a.year == b.year && a.month == b.month && a.day < b.day)
  }

  lemma DigitsEqual(a: nat, b: nat, w: nat)
    requires a < Pow10(w) && b < Pow10(w)
    ensures Digits(a, w) == Digits(b, w) <==> a == b
  {
    if Digits(a, w) == Digits(b, w) {
      DigitsValueOfDigits(a, w);
      DigitsValueOfDigits(b, w);
    }
  }

  /** Canonically written dates sort as strings exactly as they follow each other in time. */
  lemma FormatDateOrder(a: Date, b: Date)
    requires IsValidDate(a) && IsValidDate(b)
    ensures LexLess(FormatDate(a), FormatDate(b)) <==> DateBefore(a, b)
  {
    assert Pow10(4) == 10000 && Pow10(2) == 100;
    var ya, ma, da := Digits(a.year, 4), Digits(a.month, 2), Digits(a.day, 2);
    var yb, mb, db := Digits(b.year, 4), Digits(b.month, 2), Digits(b.day, 2);
    assert FormatDate(a) == ya + "-" + (ma + "-" + da);
    assert FormatDate(b) == yb + "-" + (mb + "-" + db);
    DashedOrder(ya, ma + "-" + da, yb, mb + "-" + db);
    DashedOrder(ma, da, mb, db);
    DigitsOrder(a.year, b.year, 4);
    DigitsEqual(a.year, b.year, 4);
    DigitsOrder(a.month, b.month, 2);
    DigitsEqual(a.month, b.month, 2);
    DigitsOrder(a.day, b.day, 2);
  }

  /** Two valid dates with the same canonical spelling are the same date. */
  lemma FormatDateInjective(a: Date, b: Date)
    requires IsValidDate(a) && IsValidDate(b) && FormatDate(a) == FormatDate(b)
    ensures a == b
  {
    FormatDateOrder(a, b);
    FormatDateOrder(b, a);
    LexLessIrreflexive(FormatDate(a));
  }
}
