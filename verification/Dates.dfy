/**
 Calendar dates in the `YYYY-MM-DD` form: Go's `time.Parse` and `Time.Format`
 for that layout, and the band labels that generalize a birth date.
 */
module Dates {
  import opened Text

  datatype Day = Day(year: int, month: int, day: int)

  predicate IsLeap(year: int)
  {
    year % 4 == 0 && (year % 100 != 0 || year % 400 == 0)
  }

  function DaysIn(month: int, year: int): int
  {
    if month == 2 then (if IsLeap(year) then 29 else 28)
    else if month == 4 || month == 6 || month == 9 || month == 11 then 30
    else 31
  }

  predicate IsDate(d: Day)
  {
    1 <= d.month <= 12 && 1 <= d.day <= DaysIn(d.month, d.year)
  }

  type Date = d: Day | IsDate(d) witness Day(1, 1, 1)

  /** The year printed with at least four digits, the sign in front. */
  function FormatYear(year: int): string
  {
    if year < 0 then "-" + Pad(Digits(-year), 4) else Pad(Digits(year), 4)
  }

  function TwoDigits(n: int): (s: string)
    requires 0 <= n < 100
    ensures AllDigits(s) && |s| == 2
  {
    [DigitChar(n / 10), DigitChar(n % 10)]
  }

  /** `Format("2006-01-02")`. */
  function Format(d: Date): (s: string)
    ensures |s| >= 10
  {
    FormatYear(d.year) + "-" + TwoDigits(d.month) + "-" + TwoDigits(d.day)
  }

  /** `time.Parse("2006-01-02", s)`: four, two and two digits, and a real day. */
  function Parse(s: string): Option<Date>
  {
    if |s| == 10 && s[4] == '-' && s[7] == '-'
       && AllDigits(s[..4]) && AllDigits(s[5..7]) && AllDigits(s[8..])
    then
      var d := Day(Value(s[..4]), Value(s[5..7]), Value(s[8..]));
      if IsDate(d) then Some(d) else None
    else None
  }

  lemma TwoDigitsValue(n: int)
    requires 0 <= n < 100
    ensures Value(TwoDigits(n)) == n
  {
    var s := TwoDigits(n);
    assert s[..1][..0] == "" && s[..1] == [DigitChar(n / 10)];
    assert Value(s[..1]) == 10 * Value("") + n / 10;
  }

  lemma YearInjective(y: int, z: int)
    requires FormatYear(y) == FormatYear(z)
    ensures y == z
  {
    if y < 0 {
      PadValue(Digits(-y), 4);
      DigitsRoundTrip(-y);
      assert FormatYear(y)[1..] == Pad(Digits(-y), 4);
    } else {
      PadValue(Digits(y), 4);
      DigitsRoundTrip(y);
      assert IsDigit(FormatYear(y)[0]);
    }
    if z < 0 {
      PadValue(Digits(-z), 4);
      DigitsRoundTrip(-z);
      assert FormatYear(z)[1..] == Pad(Digits(-z), 4);
    } else {
      PadValue(Digits(z), 4);
      DigitsRoundTrip(z);
      assert IsDigit(FormatYear(z)[0]);
    }
  }

  /** The printed parts of a date, located from the end of the text. */
  lemma FormatParts(d: Date)
    ensures var s := Format(d);
            var n := |s|;
            && s[..n - 6] == FormatYear(d.year) && s[n - 6] == '-' && s[n - 3] == '-'
            && s[n - 5..n - 3] == TwoDigits(d.month) && s[n - 2..] == TwoDigits(d.day)
  {
  }

  /** Two dates print alike only if they are the same date, for years of any size and sign. */
  lemma FormatInjective(d: Date, e: Date)
    requires Format(d) == Format(e)
    ensures d == e
  {
    FormatParts(d);
    FormatParts(e);
    YearInjective(d.year, e.year);
    TwoDigitsValue(d.month);
    TwoDigitsValue(e.month);
    TwoDigitsValue(d.day);
    TwoDigitsValue(e.day);
  }

  /**
   Parsing and printing are inverse: a text parses exactly when it is the
   printed form of a date whose year lies between 0 and 9999.
   */
  lemma ParseIffFormatted(s: string, d: Date)
    ensures Parse(s) == Some(d) <==> 0 <= d.year <= 9999 && s == Format(d)
  {
    if Parse(s) == Some(d) {
      ParsedIsFormatted(s, d);
    }
    if 0 <= d.year <= 9999 && s == Format(d) {
      FormattedParses(d);
    }
  }

  lemma ParsedIsFormatted(s: string, d: Date)
    requires Parse(s) == Some(d)
    ensures 0 <= d.year <= 9999 && s == Format(d)
  {
    ValueBound(s[..4]);
    FourDigits(d.year);
    PadValue(Digits(d.year), 4);
    DigitsRoundTrip(d.year);
    ValueInjective(s[..4], FormatYear(d.year));
    TwoDigitsValue(d.month);
    ValueInjective(s[5..7], TwoDigits(d.month));
    TwoDigitsValue(d.day);
    ValueInjective(s[8..], TwoDigits(d.day));
    assert s == s[..4] + [s[4]] + s[5..7] + [s[7]] + s[8..];
  }

  lemma FormattedParses(d: Date)
    requires 0 <= d.year <= 9999
    ensures Parse(Format(d)) == Some(d)
  {
    var s := Format(d);
    FourDigits(d.year);
    FormatParts(d);
    PadValue(Digits(d.year), 4);
    DigitsRoundTrip(d.year);
    TwoDigitsValue(d.month);
    TwoDigitsValue(d.day);
    assert |s| == 10;
    assert s[5..7] == TwoDigits(d.month) && s[8..] == TwoDigits(d.day);
  }

  lemma FourDigits(year: int)
    requires 0 <= year <= 9999
    ensures |Pad(Digits(year), 4)| == 4 && AllDigits(FormatYear(year))
  {
    DigitsLength(year);
  }

  lemma DigitsLength(n: nat)
    requires n <= 9999
    ensures |Digits(n)| <= 4
  {
    assert |Digits(n / 1000)| == 1;
    if n >= 10 {
      assert |Digits(n)| == |Digits(n / 10)| + 1;
      if n >= 100 {
        assert n / 10 / 10 == n / 100;
        assert |Digits(n / 10)| == |Digits(n / 100)| + 1;
        if n >= 1000 {
          assert n / 100 / 10 == n / 1000;
          assert |Digits(n / 100)| == |Digits(n / 1000)| + 1;
        }
      }
    }
  }

  /** Read back as numbers, the printed date is year, month and day in this order. */
  lemma FormatReads(d: Date)
    requires 0 <= d.year <= 9999
    ensures var s := Format(d);
            && |s| == 10 && s[4] == '-' && s[7] == '-'
            && AllDigits(s[..4]) && AllDigits(s[5..7]) && AllDigits(s[8..])
            && Value(s[..4]) == d.year && Value(s[5..7]) == d.month && Value(s[8..]) == d.day
  {
    FourDigits(d.year);
    FormatParts(d);
    PadValue(Digits(d.year), 4);
    DigitsRoundTrip(d.year);
    TwoDigitsValue(d.month);
    TwoDigitsValue(d.day);
  }

  // ── Generalization ─────────────────────────────────────────────────────

  const BIRTH_BAND_SIZE := 5

  /** Go's remainder: truncated division, so the sign follows the dividend. */
  function GoMod(a: int, b: int): int
    requires b > 0
  {
    if a >= 0 then a % b else -((-a) % b)
  }

  function BandStart(year: int): int
  {
    year - GoMod(year, BIRTH_BAND_SIZE)
  }

  /** `generalizeBirth`: the band label, such as "2010-2014". */
  function GeneralizeBirth(d: Date): string
  {
    var start := BandStart(d.year);
    Itoa(start) + "-" + Itoa(start + BIRTH_BAND_SIZE - 1)
  }

  /** The first dash after position 0 ends the number in front of it. */
  lemma NumberBeforeDash(a: string, x: string, b: string, y: string)
    requires a != "" && b != "" && AllDigits(b[1..])
    requires a + "-" + x == b + "-" + y
    ensures |b| <= |a|
  {
    assert (a + "-" + x)[|a|] == '-';
    assert forall i :: 1 <= i < |b| ==> b[i] == b[1..][i - 1];
  }

  /** Two labels are equal exactly when the two years share their band start. */
  lemma LabelDeterminesBand(d: Date, e: Date)
    ensures GeneralizeBirth(d) == GeneralizeBirth(e) <==> BandStart(d.year) == BandStart(e.year)
  {
    if GeneralizeBirth(d) == GeneralizeBirth(e) {
      var a, b := Itoa(BandStart(d.year)), Itoa(BandStart(e.year));
      var x, y := Itoa(BandStart(d.year) + 4), Itoa(BandStart(e.year) + 4);
      NumberBeforeDash(a, x, b, y);
      NumberBeforeDash(b, y, a, x);
      assert GeneralizeBirth(d)[..|a|] == a && GeneralizeBirth(e)[..|b|] == b;
      ItoaInjective(BandStart(d.year), BandStart(e.year));
    }
  }

  lemma Remainder(n: int, q: int, r: int)
    requires n == 5 * q + r && 0 <= r < 5
    ensures n % 5 == r
  {
  }

  /** How far a year lies above the start of its band: truncation makes this negative below year zero. */
  lemma BandOffset(year: int, q: int, r: int)
    requires year == 5 * q + r && 0 <= r < 5
    ensures BandStart(year) == if year >= 0 || r == 0 then 5 * q else 5 * (q + 1)
  {
    if year >= 0 {
      Remainder(year, q, r);
    } else if r == 0 {
      Remainder(-year, -q, 0);
    } else {
      Remainder(-year, -q - 1, 5 - r);
    }
  }

  /**
   The label's five years contain the date's own year exactly when the year is
   not negative or is a multiple of five: truncated remainders round negative
   years toward zero.
   */
  lemma BandContainsYear(year: int)
    ensures BandStart(year) % BIRTH_BAND_SIZE == 0
    ensures BandStart(year) <= year <= BandStart(year) + BIRTH_BAND_SIZE - 1
            <==> year >= 0 || year % BIRTH_BAND_SIZE == 0
  {
    var q, r := year / 5, year % 5;
    BandOffset(year, q, r);
    Remainder(BandStart(year), if year >= 0 || r == 0 then q else q + 1, 0);
  }

  /** Every date that passes the import's parser lies inside its own band. */
  lemma ImportedDateInItsBand(s: string)
    requires Parse(s).Some?
    ensures var year := Parse(s).value.year;
            0 <= BandStart(year) <= year < BandStart(year) + BIRTH_BAND_SIZE
  {
    ParseIffFormatted(s, Parse(s).value);
    var year := Parse(s).value.year;
    BandOffset(year, year / 5, year % 5);
  }
}
