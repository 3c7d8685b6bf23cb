/** The ISO 8601 calendar-date text `YYYY-MM-DD` (the complete
    representation in extended format, section 4.1.2.2 of ISO 8601:2004)
    as `DateTimeFormatter.ISO_LOCAL_DATE` prints and reads it, and the
    shape check `\d{4}-\d{2}-\d{2}` of the add/edit form. */
module IsoDate {
  import opened Wrappers
  import opened Text
  import opened Calendar

  function Pow10(w: nat): (p: nat)
    ensures p >= 1
  {
    if w == 0 then 1 else 10 * Pow10(w - 1)
  }

  function Digit(n: int): (c: char)
    requires 0 <= n <= 9
    ensures IsDigit(c) && DigitValue(c) == n
  {
    ('0' as int + n) as char
  }

  /** The last `w` decimal digits of `n`, zero-padded. */
  function Fixed(n: nat, w: nat): (s: string)
    ensures |s| == w && AllDigits(s)
  {
    if w == 0 then [] else Fixed(n / 10, w - 1) + [Digit(n % 10)]
  }

  /** The decimal digits of `n`, without padding. */
  function Decimal(n: nat): (s: string)
    ensures |s| >= 1 && AllDigits(s)
    ensures n >= 10 ==> |s| >= 2
    ensures n >= 100 ==> |s| >= 3
    ensures n >= 1000 ==> |s| >= 4
  {
    if n < 10 then [Digit(n)] else Decimal(n / 10) + [Digit(n % 10)]
  }

  /** The year field of ISO_LOCAL_DATE: four digits at least, a `+` when a
      positive year needs more than four, a `-` on negative years. */
  function FormatYear(y: int): (r: string)
    ensures |r| >= 4 && (0 <= y <= 9999 ==> |r| == 4)
    ensures r[0] == '-' <==> y < 0
    ensures r[0] == '+' <==> y > 9999
  {
    if 0 <= y <= 9999 then Fixed(y, 4)
    else if y > 9999 then ['+'] + Decimal(y)
    else ['-'] + (if -y <= 9999 then Fixed(-y, 4) else Decimal(-y))
  }

  /** `LocalDate.format(ISO_LOCAL_DATE)`: ten characters for a four-digit
      year; a sign only on years outside 0 to 9999, `-` before the year's
      digits for negative years and `+` for years past 9999. */
  function Format(d: Date): (r: string)
    requires ValidDate(d)
    ensures 0 <= d.year <= 9999 ==> |r| == 10
    ensures |r| >= 10 && r[|r| - 6] == '-' && r[|r| - 3] == '-'
    ensures r[0] == '-' <==> d.year < 0
    ensures r[0] == '+' <==> d.year > 9999
  {
    FormatYear(d.year) + ['-'] + Fixed(d.month, 2) + ['-'] + Fixed(d.day, 2)
  }

  /** `matches(Regex("""\d{4}-\d{2}-\d{2}"""))`: the whole string is four
      ASCII digits, a hyphen, two digits, a hyphen and two digits. */
  predicate IsDateShape(s: string) {
    |s| == 10 && AllDigits(s[0..4]) && s[4] == '-' && AllDigits(s[5..7]) && s[7] == '-'
    && AllDigits(s[8..10])
  }

  /** The year range of a LocalDate (`Year.MIN_VALUE` to `Year.MAX_VALUE`). */
  predicate InYearRange(y: int) {
    -999_999_999 <= y <= 999_999_999
  }

  /** The year field as the strict ISO_LOCAL_DATE parser reads it: four
      unsigned digits; or `+` and five to ten digits; or `-` and four to ten
      digits that do not spell zero. */
  function ParseYear(t: string): (r: Option<int>)
  {
    if |t| == 0 then None
    else if t[0] == '+' then
      if AllDigits(t[1..]) && 5 <= |t| - 1 <= 10 then Some(DecimalValue(t[1..]) as int) else None
    else if t[0] == '-' then
      if AllDigits(t[1..]) && 4 <= |t| - 1 <= 10 && DecimalValue(t[1..]) != 0
      then Some(-(DecimalValue(t[1..]) as int)) else None
    else if |t| == 4 && AllDigits(t) then Some(DecimalValue(t) as int)
    else None
  }

  /** `LocalDate.parse(s)`: a year field, `-`, two digits, `-`, two digits,
      nothing else; the strict resolver then rejects a year out of range and
      a day the month does not have (2023-02-29, 2024-13-45). */
  function Parse(s: string): (r: Option<Date>)
    ensures r.Some? ==> ValidDate(r.value) && InYearRange(r.value.year)
  {
    if |s| < 6 then None
    else
      var n := |s| - 6;
      if !(s[n] == '-' && AllDigits(s[n + 1..n + 3]) && s[n + 3] == '-' && AllDigits(s[n + 4..]))
      then None
      else match ParseYear(s[..n])
        case None => None
        case Some(y) =>
          var d := Date(y, DecimalValue(s[n + 1..n + 3]), DecimalValue(s[n + 4..]));
          if InYearRange(y) && ValidDate(d) then Some(d) else None
  }

  /** The numbers a date-shaped string spells. */
  function DateOfShape(s: string): (d: Date)
    requires IsDateShape(s)
    ensures 0 <= d.year <= 9999
  {
    DecimalBound(s[0..4]);
    Date(DecimalValue(s[0..4]), DecimalValue(s[5..7]), DecimalValue(s[8..10]))
  }

  /** On text of the form's shape the parser reads the numbers it spells,
      and succeeds exactly when they make a real date. */
  lemma ParseShaped(s: string)
    requires IsDateShape(s)
    ensures Parse(s) == if ValidDate(DateOfShape(s)) then Some(DateOfShape(s)) else None
  {
    assert s[..4] == s[0..4] && s[4 + 4..] == s[8..10];
    DecimalBound(s[0..4]);
  }

  lemma {:induction false} DecimalBound(s: string)
    requires AllDigits(s)
    ensures DecimalValue(s) < Pow10(|s|)
  {
    if s != [] {
      DecimalBound(s[..|s| - 1]);
    }
  }

  lemma {:induction false} FixedValue(n: nat, w: nat)
    requires n < Pow10(w)
    ensures DecimalValue(Fixed(n, w)) == n
  {
    if w > 0 {
      FixedValue(n / 10, w - 1);
      var s := Fixed(n, w);
      assert s[..|s| - 1] == Fixed(n / 10, w - 1);
    }
  }

  lemma {:induction false} FixedOfValue(s: string)
    requires AllDigits(s)
    ensures Fixed(DecimalValue(s), |s|) == s
  {
    if s != [] {
      var init := s[..|s| - 1];
      FixedOfValue(init);
      assert s == init + [s[|s| - 1]];
    }
  }

  lemma {:induction false} DecimalValueOf(n: nat)
    ensures DecimalValue(Decimal(n)) == n
  {
    if n >= 10 {
      DecimalValueOf(n / 10);
      var s := Decimal(n);
      assert s[..|s| - 1] == Decimal(n / 10);
    }
  }

  /** `Decimal(n)` fits in `w` characters exactly when `n < 10^w`. */
  lemma {:induction false} DecimalLength(n: nat, w: nat)
    requires w >= 1
    ensures |Decimal(n)| <= w <==> n < Pow10(w)
  {
    if w > 1 {
      if n >= 10 {
        DecimalLength(n / 10, w - 1);
      } else {
        Pow10AtLeastTen(w);
      }
    }
  }

  lemma {:induction false} Pow10AtLeastTen(w: nat)
    requires w >= 1
    ensures Pow10(w) >= 10
  {
    if w > 1 {
      Pow10AtLeastTen(w - 1);
    }
  }

  /** The printed year field reads back as the year whenever it has at
      most ten digits, and is refused otherwise. */
  lemma ParseFormatYear(y: int)
    ensures ParseYear(FormatYear(y)) == if -9_999_999_999 <= y <= 9_999_999_999 then Some(y) else None
  {
    if 0 <= y <= 9999 {
      ParseFormatPlainYear(y);
    } else if y > 9999 {
      ParseFormatSignedYear(y, ['+'] + Decimal(y));
    } else if -y <= 9999 {
      ParseFormatShortNegativeYear(y);
    } else {
      ParseFormatSignedYear(y, ['-'] + Decimal(-y));
    }
  }

  lemma ParseFormatPlainYear(y: int)
    requires 0 <= y <= 9999
    ensures ParseYear(FormatYear(y)) == Some(y)
  {
    assert Pow10(4) == 10000;
    FixedValue(y, 4);
    assert IsDigit(FormatYear(y)[0]);
  }

  lemma ParseFormatShortNegativeYear(y: int)
    requires -9999 <= y < 0
    ensures ParseYear(FormatYear(y)) == Some(y)
  {
    var t := FormatYear(y);
    assert Pow10(4) == 10000;
    assert t[1..] == Fixed(-y, 4);
    FixedValue(-y, 4);
  }

  /** A year of five digits or more, printed with its sign. */
  lemma ParseFormatSignedYear(y: int, t: string)
    requires y > 9999 || y < -9999
    requires t == FormatYear(y)
    ensures ParseYear(t) == if -9_999_999_999 <= y <= 9_999_999_999 then Some(y) else None
  {
    var n := if y > 0 then y else -y;
    assert t == [t[0]] + Decimal(n);
    assert t[1..] == Decimal(n);
    assert Pow10(4) == 10000;
    assert Pow10(10) == 10_000_000_000;
    DecimalValueOf(n);
    DecimalLength(n, 4);
    DecimalLength(n, 10);
  }

  /** How the parser reads a year field followed by two two-digit fields. */
  lemma ParseOfParts(t: string, m: string, dd: string)
    requires |m| == 2 && |dd| == 2 && AllDigits(m) && AllDigits(dd)
    ensures Parse(t + ['-'] + m + ['-'] + dd)
         == match ParseYear(t)
            case None => None
            case Some(y) =>
              var d := Date(y, DecimalValue(m), DecimalValue(dd));
              if InYearRange(y) && ValidDate(d) then Some(d) else None
  {
    var s := t + ['-'] + m + ['-'] + dd;
    var n := |t|;
    assert |s| == n + 6;
    assert s[..n] == t;
    assert s[n] == '-' && s[n + 3] == '-';
    assert s[n + 1..n + 3] == m;
    assert s[n + 4..] == dd;
  }

  /** Reading the printed text of a valid date gives the date back exactly
      when its year is in the LocalDate range. */
  lemma ParseFormat(d: Date)
    requires ValidDate(d)
    ensures Parse(Format(d)) == if InYearRange(d.year) then Some(d) else None
  {
    var t, m, dd := FormatYear(d.year), Fixed(d.month, 2), Fixed(d.day, 2);
    ParseOfParts(t, m, dd);
    ParseFormatYear(d.year);
    FixedValue(d.month, 2);
    FixedValue(d.day, 2);
    assert DecimalValue(m) == d.month && DecimalValue(dd) == d.day;
    if InYearRange(d.year) {
      assert ParseYear(t) == Some(d.year);
      assert Date(d.year, d.month, d.day) == d;
    } else if -9_999_999_999 <= d.year <= 9_999_999_999 {
      assert ParseYear(t) == Some(d.year);
    } else {
      assert ParseYear(t) == None;
    }
  }

  /** A valid date with a year from 0000 to 9999 prints in the form's shape. */
  lemma FormatShape(d: Date)
    requires ValidDate(d) && 0 <= d.year <= 9999
    ensures IsDateShape(Format(d))
  {
    var s := Format(d);
    assert s[0..4] == Fixed(d.year, 4);
    assert s[5..7] == Fixed(d.month, 2);
    assert s[8..10] == Fixed(d.day, 2);
  }

  /** Text of the form's shape that parses is exactly what printing its
      date gives. */
  lemma FormatParse(s: string)
    requires IsDateShape(s) && Parse(s).Some?
    ensures Format(Parse(s).value) == s
  {
    ParseShaped(s);
    var d := DateOfShape(s);
    FixedOfValue(s[0..4]);
    FixedOfValue(s[5..7]);
    FixedOfValue(s[8..10]);
    FormatFourDigitYear(d);
    ShapeParts(s);
  }

  /** A date with a four-digit year prints as three zero-padded fields. */
  lemma FormatFourDigitYear(d: Date)
    requires ValidDate(d) && 0 <= d.year <= 9999
    ensures Format(d) == Fixed(d.year, 4) + ['-'] + Fixed(d.month, 2) + ['-'] + Fixed(d.day, 2)
  {
  }

  /** Text of the form's shape is its three digit fields joined by hyphens. */
  lemma ShapeParts(s: string)
    requires IsDateShape(s)
    ensures s == s[0..4] + ['-'] + s[5..7] + ['-'] + s[8..10]
  {
    assert s == s[0..4] + [s[4]] + s[5..7] + [s[7]] + s[8..10];
  }

  /** The parser also takes the signed extended-year forms, so text it
      accepts need not have the form's shape: `+02024` is read as 2024 and
      printed back without the sign and the extra zero. */
  lemma ExtendedYearExamples()
    ensures ParseYear("+12024") == Some(12024)
    ensures ParseYear("-0001") == Some(-1)
    ensures ParseYear("-0000") == None
    ensures ParseYear("12024") == None
    ensures ParseYear("+2024") == None
  {
    assert "+12024"[1..] == "12024";
    assert "12024"[..4] == "1202" && "1202"[..3] == "120" && "120"[..2] == "12" && "12"[..1] == "1";
    assert DecimalValue("12024") == 12024;
    assert "-0001"[1..] == "0001";
    assert "0001"[..3] == "000" && "000"[..2] == "00" && "00"[..1] == "0";
    assert DecimalValue("0001") == 1;
    assert "-0000"[1..] == "0000";
    assert "0000"[..3] == "000";
    assert DecimalValue("0000") == 0;
  }

  /** A date-shaped string need not be a date: the form lets 2024-13-45
      through, and parsing it fails. */
  lemma ShapeIsNotValidity()
    ensures IsDateShape("2024-13-45") && Parse("2024-13-45") == None
  {
    var s := "2024-13-45";
    assert s[0..4] == "2024" && s[5..7] == "13" && s[8..10] == "45";
    ParseShaped(s);
    assert s[5..7] == "13";
    assert DecimalValue("13") == 13 by { assert "13"[..1] == "1"; }
  }

  /** Comparing two concatenations whose first parts have one length: the
      first parts decide unless they are equal. */
  lemma {:induction false} StringLeConcat(p1: string, p2: string, q1: string, q2: string)
    requires |p1| == |q1|
    ensures StringLe(p1 + p2, q1 + q2) == if p1 == q1 then StringLe(p2, q2) else StringLe(p1, q1)
  {
    if p1 != [] {
      assert (p1 + p2)[1..] == p1[1..] + p2;
      assert (q1 + q2)[1..] == q1[1..] + q2;
      StringLeConcat(p1[1..], p2, q1[1..], q2);
      assert p1 == [p1[0]] + p1[1..];
      assert q1 == [q1[0]] + q1[1..];
    } else {
      assert p1 + p2 == p2 && q1 + q2 == q2;
    }
  }

  /** Fixed-width digit strings compare as the numbers they spell. */
  lemma {:induction false} FixedOrder(a: nat, b: nat, w: nat)
    requires a < Pow10(w) && b < Pow10(w)
    ensures StringLe(Fixed(a, w), Fixed(b, w)) <==> a <= b
  {
    if w > 0 {
      var a1, b1 := a / 10, b / 10;
      var a0, b0 := a % 10, b % 10;
      assert a == 10 * a1 + a0 && b == 10 * b1 + b0;
      assert a1 < Pow10(w - 1) && b1 < Pow10(w - 1);
      FixedOrder(a1, b1, w - 1);
      FixedValue(a1, w - 1);
      FixedValue(b1, w - 1);
      StringLeConcat(Fixed(a1, w - 1), [Digit(a0)], Fixed(b1, w - 1), [Digit(b0)]);
      DigitOrder(a0, b0);
      assert a <= b <==> a1 < b1 || (a1 == b1 && a0 <= b0);
    }
  }

  /** One-digit strings compare as their digits. */
  lemma DigitOrder(x: int, y: int)
    requires 0 <= x <= 9 && 0 <= y <= 9
    ensures StringLe([Digit(x)], [Digit(y)]) <==> x <= y
  {
    assert [Digit(x)][1..] == [] && [Digit(y)][1..] == [];
  }

  /** For years 0000 to 9999 the order of the printed text is the
      chronological order: the next-payment list, sorted by its date
      strings, is sorted by date. */
  lemma FormatOrder(a: Date, b: Date)
    requires ValidDate(a) && ValidDate(b)
    requires 0 <= a.year <= 9999 && 0 <= b.year <= 9999
    ensures StringLe(Format(a), Format(b)) <==> !Before(b, a)
  {
    var ya, yb := Fixed(a.year, 4), Fixed(b.year, 4);
    FormatYearThenMonthDay(a);
    FormatYearThenMonthDay(b);
    assert Pow10(4) == 10000;
    FixedOrder(a.year, b.year, 4);
    FixedValue(a.year, 4);
    FixedValue(b.year, 4);
    StringLeConcat(ya, MonthDayText(a), yb, MonthDayText(b));
    MonthDayOrder(a, b);
  }

  /** The `-MM-DD` tail of a printed date. */
  function MonthDayText(d: Date): string
    requires ValidDate(d)
  {
    ['-'] + Fixed(d.month, 2) + ['-'] + Fixed(d.day, 2)
  }

  lemma FormatYearThenMonthDay(d: Date)
    requires ValidDate(d) && 0 <= d.year <= 9999
    ensures Format(d) == Fixed(d.year, 4) + MonthDayText(d)
  {
    FormatFourDigitYear(d);
  }

  /** The printed tails compare as month, then day. */
  lemma MonthDayOrder(a: Date, b: Date)
    requires ValidDate(a) && ValidDate(b)
    ensures StringLe(MonthDayText(a), MonthDayText(b))
            <==> a.month < b.month || (a.month == b.month && a.day <= b.day)
  {
    var ma, mb := Fixed(a.month, 2), Fixed(b.month, 2);
    var da, db := Fixed(a.day, 2), Fixed(b.day, 2);
    assert Pow10(2) == 100;
    FixedOrder(a.month, b.month, 2);
    FixedOrder(a.day, b.day, 2);
    FixedValue(a.month, 2);
    FixedValue(b.month, 2);
    assert MonthDayText(a) == ['-'] + (ma + (['-'] + da));
    assert MonthDayText(b) == ['-'] + (mb + (['-'] + db));
    StringLeConcat(['-'], ma + (['-'] + da), ['-'], mb + (['-'] + db));
    StringLeConcat(ma, ['-'] + da, mb, ['-'] + db);
    StringLeConcat(['-'], da, ['-'], db);
  }
}
