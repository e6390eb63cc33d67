/**
 * The two `strftime` patterns the program uses, `%d.%m.%Y` and `%Y%m%d`,
 * on the years the calendar model covers, and parsers that invert them.
 */
module DateFormat {
  import opened Results
  import opened Calendar

  function Pow10(w: nat): (p: nat)
    ensures p >= 1
  {
    if w == 0 then 1 else 10 * Pow10(w - 1)
  }

  predicate IsDigit(c: char) {
    '0' <= c <= '9'
  }

  predicate AllDigits(s: string) {
    forall i | 0 <= i < |s| :: IsDigit(s[i])
  }

  function Digit(n: int): (c: char)
    requires 0 <= n <= 9
    ensures IsDigit(c)
  {
    ('0' as int + n) as char
  }

  function DigitValue(c: char): int
    requires IsDigit(c)
  {
    c as int - '0' as int
  }

  /**
   * n in decimal, zero-padded on the left to exactly w characters, as the
   * `%d`, `%m` (w = 2) and `%Y` (w = 4, years 1000..9999) directives print it.
   */
  function Padded(n: nat, w: nat): (s: string)
    requires n < Pow10(w)
    ensures |s| == w && AllDigits(s)
  {
    if w == 0 then "" else Padded(n / 10, w - 1) + [Digit(n % 10)]
  }

  /** The value of a string of decimal digits. */
  function ParseDecimal(s: string): (n: nat)
    requires AllDigits(s)
    ensures n < Pow10(|s|)
  {
    if s == [] then 0 else 10 * ParseDecimal(s[..|s| - 1]) + DigitValue(s[|s| - 1])
  }

  /** Reading back a padded number gives the number. */
  lemma {:induction false} ParsePadded(n: nat, w: nat)
    requires n < Pow10(w)
    ensures ParseDecimal(Padded(n, w)) == n
  {
    if w > 0 {
      var s := Padded(n, w);
      assert s[..|s| - 1] == Padded(n / 10, w - 1);
      ParsePadded(n / 10, w - 1);
    }
  }

  /** Every digit string is the padded form of its value. */
  lemma {:induction false} PadParsed(s: string)
    requires AllDigits(s)
    ensures Padded(ParseDecimal(s), |s|) == s
  {
    if s != [] {
      var init := s[..|s| - 1];
      PadParsed(init);
      var n := ParseDecimal(s);
      assert n / 10 == ParseDecimal(init) && n % 10 == DigitValue(s[|s| - 1]);
    }
  }

  /** `strftime("%d.%m.%Y")`. */
  function FormatDmy(d: Date): (s: string)
    requires Valid(d)
    ensures |s| == 10
  {
    Padded(d.day, 2) + "." + Padded(d.month, 2) + "." + Padded(d.year, 4)
  }

  /** `strftime("%Y%m%d")`. */
  function FormatYmd(d: Date): (s: string)
    requires Valid(d)
    ensures |s| == 8 && AllDigits(s)
  {
    Padded(d.year, 4) + Padded(d.month, 2) + Padded(d.day, 2)
  }

  /** The date a `DD.MM.YYYY` string denotes, if it is one. */
  function ParseDmy(s: string): Option<Date> {
    if |s| == 10 && s[2] == '.' && s[5] == '.'
       && AllDigits(s[..2]) && AllDigits(s[3..5]) && AllDigits(s[6..])
    then
      var d := Date(ParseDecimal(s[6..]), ParseDecimal(s[3..5]), ParseDecimal(s[..2]));
      if Valid(d) then Some(d) else None
    else None
  }

  /** The date a `YYYYMMDD` string denotes, if it is one. */
  function ParseYmd(s: string): Option<Date> {
    if |s| == 8 && AllDigits(s) then
      var d := Date(ParseDecimal(s[..4]), ParseDecimal(s[4..6]), ParseDecimal(s[6..]));
      if Valid(d) then Some(d) else None
    else None
  }

  /** `DD.MM.YYYY` loses nothing: parsing the formatted date gives the date back. */
  lemma DmyRoundTrip(d: Date)
    requires Valid(d)
    ensures ParseDmy(FormatDmy(d)) == Some(d)
  {
    var s := FormatDmy(d);
    assert s[..2] == Padded(d.day, 2);
    assert s[3..5] == Padded(d.month, 2);
    assert s[6..] == Padded(d.year, 4);
    ParsePadded(d.day, 2);
    ParsePadded(d.month, 2);
    ParsePadded(d.year, 4);
  }

  /** Every string that parses as `DD.MM.YYYY` is the formatted form of its date. */
  lemma DmyParseFormat(s: string, d: Date)
    requires ParseDmy(s) == Some(d)
    ensures FormatDmy(d) == s
  {
    PadParsed(s[..2]);
    PadParsed(s[3..5]);
    PadParsed(s[6..]);
    SplitAround(s, 2, 5);
    assert [s[2]] == "." && [s[5]] == ".";
  }

  /** A sequence is its pieces around two positions i < j put back together. */
  lemma SplitAround<T>(s: seq<T>, i: nat, j: nat)
    requires i < j < |s|
    ensures s == s[..i] + [s[i]] + s[i + 1..j] + [s[j]] + s[j + 1..]
  {
  }

  /** `YYYYMMDD` loses nothing: parsing the formatted date gives the date back. */
  lemma YmdRoundTrip(d: Date)
    requires Valid(d)
    ensures ParseYmd(FormatYmd(d)) == Some(d)
  {
    var s := FormatYmd(d);
    assert s[..4] == Padded(d.year, 4);
    assert s[4..6] == Padded(d.month, 2);
    assert s[6..] == Padded(d.day, 2);
    ParsePadded(d.year, 4);
    ParsePadded(d.month, 2);
    ParsePadded(d.day, 2);
  }

  /** Every string that parses as `YYYYMMDD` is the formatted form of its date. */
  lemma YmdParseFormat(s: string, d: Date)
    requires ParseYmd(s) == Some(d)
    ensures FormatYmd(d) == s
  {
    PadParsed(s[..4]);
    PadParsed(s[4..6]);
    PadParsed(s[6..]);
    SplitAt(s, 4, 6);
  }

  /** A sequence is its three pieces around positions i <= j put back together. */
  lemma SplitAt<T>(s: seq<T>, i: nat, j: nat)
    requires i <= j <= |s|
    ensures s == s[..i] + s[i..j] + s[j..]
  {
  }

  /** As an eight-digit number, `YYYYMMDD` follows the calendar order. */
  lemma YmdValueOrdered(a: Date, b: Date)
    requires Valid(a) && Valid(b) && Before(a, b)
    ensures ParseDecimal(FormatYmd(a)) < ParseDecimal(FormatYmd(b))
  {
    YmdValue(a);
    YmdValue(b);
  }

  lemma YmdValue(d: Date)
    requires Valid(d)
    ensures ParseDecimal(FormatYmd(d)) == d.year * 10000 + d.month * 100 + d.day
  {
    var y, m, dd := Padded(d.year, 4), Padded(d.month, 2), Padded(d.day, 2);
    assert Pow10(2) == 100;
    ParsePadded(d.year, 4);
    ParsePadded(d.month, 2);
    ParsePadded(d.day, 2);
    ParseConcat(y, m);
    assert ParseDecimal(y + m) == d.year * 100 + d.month;
    ParseConcat(y + m, dd);
    assert ParseDecimal(y + m + dd) == (d.year * 100 + d.month) * 100 + d.day;
  }

  /** Decimal value of a concatenation. */
  lemma {:induction false} ParseConcat(a: string, b: string)
    requires AllDigits(a) && AllDigits(b)
    ensures AllDigits(a + b)
    ensures ParseDecimal(a + b) == ParseDecimal(a) * Pow10(|b|) + ParseDecimal(b)
  {
    if b != [] {
      var b' := b[..|b| - 1];
      assert (a + b)[..|a + b| - 1] == a + b';
      ParseConcat(a, b');
      calc {
        ParseDecimal(a + b);
        10 * ParseDecimal(a + b') + DigitValue(b[|b| - 1]);
        10 * (ParseDecimal(a) * Pow10(|b'|) + ParseDecimal(b')) + DigitValue(b[|b| - 1]);
        { MulAssoc(ParseDecimal(a), Pow10(|b'|)); }
        ParseDecimal(a) * Pow10(|b|) + ParseDecimal(b);
      }
    } else {
      assert a + b == a;
    }
  }

  lemma MulAssoc(x: nat, p: nat)
    ensures 10 * (x * p) == x * (10 * p)
  {
  }
}
