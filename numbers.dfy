/**
  The conversions a transaction line goes through: `int(...)`, `float(...)`,
  `datetime.fromisoformat(...)` and `strftime("%m")`, each in a simplified
  grammar (see the README), together with the printers they invert.
 */
module Numbers {
  import opened Text
  import opened Outcomes

  predicate IsDigit(c: char) {
    '0' <= c <= '9'
  }

  predicate AllDigits(s: string) {
    forall i :: 0 <= i < |s| ==> IsDigit(s[i])
  }

  /** The value of a string of decimal digits, most significant first. */
  function DigitsValue(s: string): nat
    requires AllDigits(s)
  {
    if s == [] then 0 else 10 * DigitsValue(s[..|s| - 1]) + (s[|s| - 1] as int - '0' as int)
  }

  function Pow10(n: nat): (p: nat)
    ensures p >= 1
  {
    if n == 0 then 1 else 10 * Pow10(n - 1)
  }

  /** `n` digits stand for a number below `10^n`. */
  lemma {:induction false} DigitsBound(s: string)
    requires AllDigits(s)
    ensures DigitsValue(s) < Pow10(|s|)
  {
    if s != [] {
      DigitsBound(s[..|s| - 1]);
    }
  }

  /** Digits written after other digits shift them left by their own length. */
  lemma {:induction false} DigitsConcat(a: string, b: string)
    requires AllDigits(a) && AllDigits(b)
    ensures AllDigits(a + b) && DigitsValue(a + b) == DigitsValue(a) * Pow10(|b|) + DigitsValue(b)
  {
    if b != [] {
      var b' := b[..|b| - 1];
      var d := b[|b| - 1] as int - '0' as int;
      assert (a + b)[..|a + b| - 1] == a + b' && (a + b)[|a + b| - 1] == b[|b| - 1];
      DigitsConcat(a, b');
      assert DigitsValue(a + b) == 10 * DigitsValue(a + b') + d;
      assert Pow10(|b|) == 10 * Pow10(|b'|);
      ShiftLeft(DigitsValue(a), Pow10(|b'|), DigitsValue(b'), d);
    } else {
      assert a + b == a;
    }
  }

  /** Appending a digit to `x` followed by `y` shifts `x` one more place. */
  lemma ShiftLeft(x: int, p: int, y: int, d: int)
    ensures 10 * (x * p + y) + d == x * (10 * p) + (10 * y + d)
  {
  }

  lemma {:induction false} DigitNotSpace(c: char)
    requires IsDigit(c) || c == '-' || c == '+'
    ensures !IsSpace(c)
  {
    OccursMeansIn(c, WhiteSpace);
  }

  lemma {:induction false} OccursMeansIn(c: char, s: string)
    ensures Occurs(c, s) <==> c in s
  {
    if s != [] {
      OccursMeansIn(c, s[1..]);
      assert s == [s[0]] + s[1..];
    }
  }

  function DigitChar(d: nat): (c: char)
    requires d < 10
    ensures IsDigit(c) && c as int - '0' as int == d
  {
    ('0' as int + d) as char
  }

  /** `str(n)` for a natural number: its decimal digits, no leading zero. */
  function ShowNat(n: nat): (s: string)
    ensures |s| > 0 && AllDigits(s) && DigitsValue(s) == n
    ensures |s| > 1 ==> s[0] != '0'
  {
    if n < 10 then [DigitChar(n)]
    else
      var s := ShowNat(n / 10) + [DigitChar(n % 10)];
      assert s[..|s| - 1] == ShowNat(n / 10);
      s
  }

  /** `str(n)` for an integer. */
  function ShowInt(n: int): string
  {
    if n < 0 then "-" + ShowNat(-n) else ShowNat(n)
  }

  /** `str(n)` holds only digits and, for a negative `n`, a leading minus sign. */
  lemma ShowIntChars(n: int)
    ensures forall i :: 0 <= i < |ShowInt(n)| ==> IsDigit(ShowInt(n)[i]) || ShowInt(n)[i] == '-'
  {
    if n < 0 {
      var s := ShowNat(-n);
      assert forall i :: 1 <= i < |ShowInt(n)| ==> ShowInt(n)[i] == s[i - 1];
    }
  }

  /**
    `int(s)`: after stripping white space, an optional sign followed by one or
    more decimal digits; anything else is the ValueError, here None.
   */
  function ParseInt(s: string): Option<int>
  {
    var t := Strip(s);
    if |t| > 0 && (t[0] == '+' || t[0] == '-') then
      var digits := t[1..];
      if |digits| > 0 && AllDigits(digits) then
        var v: int := DigitsValue(digits);
        Some(if t[0] == '-' then -v else v)
      else None
    else if |t| > 0 && AllDigits(t) then Some(DigitsValue(t))
    else None
  }

  /** `int(str(n)) == n`. */
  lemma {:induction false} ParseShowInt(n: int)
    ensures ParseInt(ShowInt(n)) == Some(n)
  {
    var s := ShowInt(n);
    DigitNotSpace(s[0]);
    DigitNotSpace(s[|s| - 1]);
    StripUnpadded(s);
    if n < 0 {
      assert s[1..] == ShowNat(-n);
    }
  }

  /**
    `float(s)`: after stripping white space, an optional sign and a decimal
    number with an optional fractional part (`"12"`, `"12.5"`, `"12."`,
    `".5"`); anything else is the ValueError, here None.
   */
  function ParseFloat(s: string): Option<real>
  {
    var t := Strip(s);
    if |t| > 0 && (t[0] == '+' || t[0] == '-') then
      match ParseDecimal(t[1..])
      case None => None
      case Some(v) => Some(if t[0] == '-' then -v else v)
    else ParseDecimal(t)
  }

  function ParseDecimal(b: string): Option<real>
  {
    var parts := Split(b, '.');
    if |parts| == 1 then
      if |b| > 0 && AllDigits(b) then Some(DigitsValue(b) as real) else None
    else if |parts| == 2 && |parts[0]| + |parts[1]| > 0 && AllDigits(parts[0]) && AllDigits(parts[1]) then
      Some(DigitsValue(parts[0]) as real + DigitsValue(parts[1]) as real / Pow10(|parts[1]|) as real)
    else None
  }

  /** Two digits with a leading zero, as `%02d` writes them. */
  function Pad2(n: nat): (s: string)
    requires n < 100
    ensures |s| == 2 && AllDigits(s) && DigitsValue(s) == n
  {
    var s := [DigitChar(n / 10), DigitChar(n % 10)];
    assert s[..1] == [DigitChar(n / 10)] && s[..1][..0] == [];
    assert DigitsValue(s[..1]) == n / 10;
    s
  }

  /** Four digits with leading zeros, as `%04d` writes them. */
  function Pad4(n: nat): (s: string)
    requires n < 10000
    ensures |s| == 4 && AllDigits(s) && DigitsValue(s) == n
  {
    DigitsConcat(Pad2(n / 100), Pad2(n % 100));
    Pad2(n / 100) + Pad2(n % 100)
  }

  /** A non-negative amount in cents, written `units.cc` as `f"{x:.2f}"` writes it. */
  function ShowCents(a: nat): (s: string)
    ensures |s| > 0 && IsDigit(s[0]) && IsDigit(s[|s| - 1])
  {
    ShowNat(a / 100) + "." + Pad2(a % 100)
  }

  /** `float` reads back a non-negative amount written with two decimals. */
  lemma {:induction false} ParseShowCents(a: nat)
    ensures ParseFloat(ShowCents(a)) == Some(a as real / 100.0)
  {
    DecimalWithCents(a);
    UnsignedDecimal(ShowCents(a));
  }

  /**
    A minus sign in front of a decimal number negates what `float` reads, so
    with `ParseShowCents` every amount, of either sign, reads back.
   */
  lemma {:induction false} SignedDecimal(body: string, v: real)
    requires |body| > 0 && IsDigit(body[|body| - 1])
    requires ParseDecimal(body) == Some(v)
    ensures ParseFloat("-" + body) == Some(-v)
  {
    var s := "-" + body;
    DigitNotSpace(s[0]);
    DigitNotSpace(s[|s| - 1]);
    StripUnpadded(s);
    assert s[1..] == body;
  }

  lemma {:induction false} UnsignedDecimal(body: string)
    requires |body| > 0 && IsDigit(body[0]) && IsDigit(body[|body| - 1])
    ensures ParseFloat(body) == ParseDecimal(body)
  {
    DigitNotSpace(body[0]);
    DigitNotSpace(body[|body| - 1]);
    StripUnpadded(body);
  }

  lemma {:induction false} DecimalWithCents(a: nat)
    ensures ParseDecimal(ShowCents(a)) == Some(a as real / 100.0)
  {
    var w, f := ShowNat(a / 100), Pad2(a % 100);
    var body := w + "." + f;
    assert Split(body, '.') == [w, f] by {
      assert '.' !in w by {
        forall i | 0 <= i < |w| ensures w[i] != '.' { assert IsDigit(w[i]); }
      }
      assert '.' !in f by {
        forall i | 0 <= i < |f| ensures f[i] != '.' { assert IsDigit(f[i]); }
      }
      SplitPiece(w, '.', f);
      SplitWithout(f, '.');
    }
    assert Pow10(|f|) == 100 by {
      assert |f| == 2;
      assert Pow10(2) == 10 * Pow10(1);
    }
    assert DigitsValue(w) as real + DigitsValue(f) as real / 100 as real == a as real / 100.0 by {
      CentsSplit(a);
    }
  }

  /** Whole units plus hundredths make up the amount. */
  lemma CentsSplit(a: nat)
    ensures (a / 100) as real + (a % 100) as real / 100 as real == a as real / 100.0
  {
    var q, r := (a / 100) as real, (a % 100) as real;
    assert a as real == 100.0 * q + r;
  }

  type Month = m: int | 1 <= m <= 12 witness 1
  type Hour = h: int | 0 <= h <= 23

  /** A `datetime` without time zone or fractions of a second. */
  datatype DateTime = DateTime(year: int, month: Month, day: int, hour: Hour, minute: int, second: int)

  predicate IsLeap(year: int) {
    year % 4 == 0 && (year % 100 != 0 || year % 400 == 0)
  }

  function DaysInMonth(year: int, month: Month): int {
    if month == 2 then (if IsLeap(year) then 29 else 28)
    else if month == 4 || month == 6 || month == 9 || month == 11 then 30
    else 31
  }

  /** The values `datetime` accepts for its fields. */
  predicate ValidDateTime(t: DateTime) {
    && 1 <= t.year <= 9999
    && 1 <= t.day <= DaysInMonth(t.year, t.month)
    && 0 <= t.minute <= 59
    && 0 <= t.second <= 59
  }

  /**
    `datetime.fromisoformat(s)`: `YYYY-MM-DD`, optionally followed by any one
    separator character and `HH`, `HH:MM` or `HH:MM:SS`; every field in range.
    Anything else is the ValueError, here None.
   */
  function ParseIsoDateTime(s: string): (r: Option<DateTime>)
    ensures r.Some? ==> ValidDateTime(r.value)
  {
    if |s| < 10 || s[4] != '-' || s[7] != '-' || !AllDigits(s[..4]) || !AllDigits(s[5..7]) || !AllDigits(s[8..10]) then
      None
    else
      var y, m, d := DigitsValue(s[..4]), DigitsValue(s[5..7]), DigitsValue(s[8..10]);
      DigitsBound(s[..4]);
      assert Pow10(4) == 10000;
      if !(1 <= y && 1 <= m <= 12 && 1 <= d <= DaysInMonth(y, m)) then None
      else
        match ParseClock(s[10..])
        case None => None
        case Some(c) => Some(DateTime(y, m, d, c.0, c.1, c.2))
  }

  /** The time part after the date: empty (midnight), or a separator and `HH[:MM[:SS]]`. */
  function ParseClock(t: string): (r: Option<(Hour, int, int)>)
    ensures r.Some? ==> 0 <= r.value.1 <= 59 && 0 <= r.value.2 <= 59
  {
    if |t| == 0 then Some((0, 0, 0))
    else
      var c := t[1..];
      if !(|c| == 2 || (|c| == 5 && c[2] == ':') || (|c| == 8 && c[2] == ':' && c[5] == ':')) then None
      else if !AllDigits(c[..2]) || (|c| >= 5 && !AllDigits(c[3..5])) || (|c| == 8 && !AllDigits(c[6..8])) then None
      else
        var h := DigitsValue(c[..2]);
        var mi := if |c| >= 5 then DigitsValue(c[3..5]) else 0;
        var se := if |c| == 8 then DigitsValue(c[6..8]) else 0;
        if h <= 23 && mi <= 59 && se <= 59 then Some((h, mi, se)) else None
  }

  /** `t.isoformat()`: `YYYY-MM-DDTHH:MM:SS`. */
  function FormatIso(t: DateTime): (s: string)
    requires ValidDateTime(t)
    ensures |s| == 19
  {
    Pad4(t.year) + "-" + Pad2(t.month) + "-" + Pad2(t.day) + "T"
      + Pad2(t.hour) + ":" + Pad2(t.minute) + ":" + Pad2(t.second)
  }

  /** `datetime.fromisoformat(t.isoformat()) == t`. */
  lemma {:induction false} ParseFormatIso(t: DateTime)
    requires ValidDateTime(t)
    ensures ParseIsoDateTime(FormatIso(t)) == Some(t)
  {
    var s := FormatIso(t);
    var h, mi, se := Pad2(t.hour), Pad2(t.minute), Pad2(t.second);
    var c := h + ":" + mi + ":" + se;
    assert s == Pad4(t.year) + "-" + Pad2(t.month) + "-" + Pad2(t.day) + "T" + c;
    assert s[..4] == Pad4(t.year) && s[5..7] == Pad2(t.month) && s[8..10] == Pad2(t.day);
    assert s[10..] == "T" + c && s[10..][1..] == c;
    assert c[..2] == h && c[3..5] == mi && c[6..8] == se;
  }
}
