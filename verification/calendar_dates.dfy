/** Calendar dates as the client handles them: day, month and year, the
    fixed-width `yyyy-MM-dd` and `dd-MM-yyyy` texts it formats and parses,
    and adding years. The date-input guards compare `yyyy-MM-dd` texts as
    strings; that this agrees with the calendar order is proved here. */
module Dates {
  import opened Common

  datatype Date = Date(year: int, month: int, day: int)

  predicate IsLeap(y: int) {
    (y % 4 == 0 && y % 100 != 0) || y % 400 == 0
  }

  function DaysInMonth(y: int, m: int): int {
    if m == 2 then (if IsLeap(y) then 29 else 28)
    else if m in {4, 6, 9, 11} then 30
    else 31
  }

  /** A real calendar date with a four-digit year. */
  predicate Valid(d: Date) {
    && 0 <= d.year <= 9999
    && 1 <= d.month <= 12
    && 1 <= d.day <= DaysInMonth(d.year, d.month)
  }

  /** Calendar order. */
  predicate Before(a: Date, b: Date) {
    || a.year < b.year
    || (a.year == b.year && a.month < b.month)
    || (a.year == b.year && a.month == b.month && a.day < b.day)
  }

  function Pow10(w: nat): (p: nat)
    ensures p >= 1
  {
    if w == 0 then 1 else 10 * Pow10(w - 1)
  }

  function DigitChar(n: int): (c: char)
    requires 0 <= n < 10
    ensures IsDigit(c)
  {
    ['0', '1', '2', '3', '4', '5', '6', '7', '8', '9'][n]
  }

  function DigitValue(c: char): (n: int)
    requires IsDigit(c)
    ensures 0 <= n < 10
  {
    c as int - '0' as int
  }

  lemma DigitRoundTrip(n: int)
    requires 0 <= n < 10
    ensures DigitValue(DigitChar(n)) == n
  {
  }

  /** `n` written with exactly `w` decimal digits, zero padded. */
  function Pad(n: nat, w: nat): (s: string)
    ensures |s| == w
    ensures forall i :: 0 <= i < |s| ==> IsDigit(s[i])
  {
    if w == 0 then "" else Pad(n / 10, w - 1) + [DigitChar(n % 10)]
  }

  /** The value of a string of decimal digits. */
  function ParseDigits(s: string): (n: nat)
    requires forall i :: 0 <= i < |s| ==> IsDigit(s[i])
  {
    if |s| == 0 then 0 else ParseDigits(s[..|s| - 1]) * 10 + DigitValue(s[|s| - 1])
  }

  lemma {:induction false} PadRoundTrip(n: nat, w: nat)
    requires n < Pow10(w)
    ensures ParseDigits(Pad(n, w)) == n
  {
    if w > 0 {
      var s := Pad(n, w);
      assert s[..|s| - 1] == Pad(n / 10, w - 1);
      PadRoundTrip(n / 10, w - 1);
      DigitRoundTrip(n % 10);
    }
  }

  lemma PadInjective(a: nat, b: nat, w: nat)
    requires a < Pow10(w) && b < Pow10(w)
    requires Pad(a, w) == Pad(b, w)
    ensures a == b
  {
    PadRoundTrip(a, w);
    PadRoundTrip(b, w);
  }

  /** Comparing two strings that start with prefixes of equal length. */
  lemma {:induction false} StrLtConcat(p: string, q: string, s: string, t: string)
    requires |p| == |q|
    ensures StrLt(p + s, q + t) <==> StrLt(p, q) || (p == q && StrLt(s, t))
    decreases |p|
  {
    if |p| == 0 {
      assert p + s == s && q + t == t;
      assert p == q;
      assert !StrLt(p, q);
    } else {
      assert (p + s)[0] == p[0] && (q + t)[0] == q[0];
      assert (p + s)[1..] == p[1..] + s && (q + t)[1..] == q[1..] + t;
      StrLtConcat(p[1..], q[1..], s, t);
      if p[0] == q[0] {
        assert p == q <==> p[1..] == q[1..] by {
          assert p == [p[0]] + p[1..] && q == [q[0]] + q[1..];
        }
      }
    }
  }

  /** Fixed-width numerals compare like the numbers they denote. */
  lemma {:induction false} PadOrder(a: nat, b: nat, w: nat)
    requires a < Pow10(w) && b < Pow10(w)
    ensures StrLt(Pad(a, w), Pad(b, w)) <==> a < b
  {
    if w == 0 {
      assert !StrLt("", "");
    } else {
      var pa, pb := Pad(a / 10, w - 1), Pad(b / 10, w - 1);
      StrLtConcat(pa, pb, [DigitChar(a % 10)], [DigitChar(b % 10)]);
      PadOrder(a / 10, b / 10, w - 1);
      if pa == pb {
        PadInjective(a / 10, b / 10, w - 1);
      } else {
        assert a / 10 != b / 10;
      }
      assert StrLt([DigitChar(a % 10)], [DigitChar(b % 10)]) <==> a % 10 < b % 10 by {
        assert [DigitChar(a % 10)][1..] == [] && [DigitChar(b % 10)][1..] == [];
        assert !StrLt([], []);
        DigitRoundTrip(a % 10);
        DigitRoundTrip(b % 10);
      }
    }
  }

  /** `format(date, 'yyyy-MM-dd')`. */
  function FormatYMD(d: Date): (s: string)
    requires Valid(d)
    ensures |s| == 10 && s[4] == '-' && s[7] == '-'
  {
    Pad(d.year, 4) + "-" + Pad(d.month, 2) + "-" + Pad(d.day, 2)
  }

  /** `format(date, 'dd-MM-yyyy')`. */
  function FormatDMY(d: Date): (s: string)
    requires Valid(d)
    ensures |s| == 10 && s[2] == '-' && s[5] == '-'
  {
    Pad(d.day, 2) + "-" + Pad(d.month, 2) + "-" + Pad(d.year, 4)
  }

  predicate DigitsAt(s: string, lo: int, hi: int)
    requires 0 <= lo <= hi <= |s|
  {
    forall i :: lo <= i < hi ==> IsDigit(s[i])
  }

  /** `parse(s, 'yyyy-MM-dd')`: a date for a well-formed text naming a real
      day, nothing otherwise. */
  function ParseYMD(s: string): (r: Option<Date>)
    ensures r.Some? ==> Valid(r.value)
  {
    if |s| == 10 && s[4] == '-' && s[7] == '-' && DigitsAt(s, 0, 4) && DigitsAt(s, 5, 7) && DigitsAt(s, 8, 10) then
      var d := Date(ParseDigits(s[..4]), ParseDigits(s[5..7]), ParseDigits(s[8..]));
      if Valid(d) then Some(d) else None
    else None
  }

  /** `parse(s, 'dd-MM-yyyy')`. */
  function ParseDMY(s: string): (r: Option<Date>)
    ensures r.Some? ==> Valid(r.value)
  {
    if |s| == 10 && s[2] == '-' && s[5] == '-' && DigitsAt(s, 0, 2) && DigitsAt(s, 3, 5) && DigitsAt(s, 6, 10) then
      var d := Date(ParseDigits(s[6..]), ParseDigits(s[3..5]), ParseDigits(s[..2]));
      if Valid(d) then Some(d) else None
    else None
  }

  lemma ValidFits(d: Date)
    requires Valid(d)
    ensures d.year < Pow10(4) && d.month < Pow10(2) && d.day < Pow10(2)
  {
    assert Pow10(2) == 100;
    assert Pow10(4) == 10000;
  }

  lemma YMDRoundTrip(d: Date)
    requires Valid(d)
    ensures ParseYMD(FormatYMD(d)) == Some(d)
  {
    var s := FormatYMD(d);
    ValidFits(d);
    assert s[..4] == Pad(d.year, 4);
    assert s[5..7] == Pad(d.month, 2);
    assert s[8..] == Pad(d.day, 2);
    PadRoundTrip(d.year, 4);
    PadRoundTrip(d.month, 2);
    PadRoundTrip(d.day, 2);
  }

  lemma DMYRoundTrip(d: Date)
    requires Valid(d)
    ensures ParseDMY(FormatDMY(d)) == Some(d)
  {
    var s := FormatDMY(d);
    ValidFits(d);
    assert s[..2] == Pad(d.day, 2);
    assert s[3..5] == Pad(d.month, 2);
    assert s[6..] == Pad(d.year, 4);
    PadRoundTrip(d.year, 4);
    PadRoundTrip(d.month, 2);
    PadRoundTrip(d.day, 2);
  }

  /** Formatting is one-to-one on real dates. */
  lemma YMDInjective(a: Date, b: Date)
    requires Valid(a) && Valid(b) && FormatYMD(a) == FormatYMD(b)
    ensures a == b
  {
    YMDRoundTrip(a);
    YMDRoundTrip(b);
  }

  /** Comparing `yyyy-MM-dd` texts as strings is comparing the dates. */
  lemma YMDOrder(a: Date, b: Date)
    requires Valid(a) && Valid(b)
    ensures StrLt(FormatYMD(a), FormatYMD(b)) <==> Before(a, b)
  {
    ValidFits(a);
    ValidFits(b);
    var ya, yb := Pad(a.year, 4), Pad(b.year, 4);
    var ra := "-" + Pad(a.month, 2) + "-" + Pad(a.day, 2);
    var rb := "-" + Pad(b.month, 2) + "-" + Pad(b.day, 2);
    assert FormatYMD(a) == ya + ra;
    assert FormatYMD(b) == yb + rb;
    StrLtConcat(ya, yb, ra, rb);
    PadOrder(a.year, b.year, 4);
    if ya == yb { PadInjective(a.year, b.year, 4); }
    MonthDayOrder(a, b);
  }

  /** The `-MM-dd` tails compare like (month, day) pairs. */
  lemma MonthDayOrder(a: Date, b: Date)
    requires Valid(a) && Valid(b)
    ensures StrLt("-" + Pad(a.month, 2) + "-" + Pad(a.day, 2), "-" + Pad(b.month, 2) + "-" + Pad(b.day, 2))
            <==> a.month < b.month || (a.month == b.month && a.day < b.day)
  {
    ValidFits(a);
    ValidFits(b);
    var ma, mb := Pad(a.month, 2), Pad(b.month, 2);
    var da, db := Pad(a.day, 2), Pad(b.day, 2);
    assert "-" + ma + "-" + da == "-" + ma + ("-" + da);
    assert "-" + mb + "-" + db == "-" + mb + ("-" + db);
    DashThen(ma, mb, "-" + da, "-" + db);
    StrLtConcat("-", "-", da, db);
    StrLtIrreflexive("-");
    PadOrder(a.month, b.month, 2);
    PadOrder(a.day, b.day, 2);
    if ma == mb { PadInjective(a.month, b.month, 2); }
  }

  /** A dash, then a field of fixed width, then the rest. */
  lemma DashThen(x: string, y: string, s: string, t: string)
    requires |x| == |y|
    ensures StrLt("-" + x + s, "-" + y + t) <==> StrLt(x, y) || (x == y && StrLt(s, t))
  {
    assert "-" + x + s == "-" + (x + s);
    assert "-" + y + t == "-" + (y + t);
    StrLtConcat("-", "-", x + s, y + t);
    StrLtIrreflexive("-");
    StrLtConcat(x, y, s, t);
  }

  /** `addYears(d, n)`: the same day `n` years on; 29 February becomes
      28 February in a year without it. */
  function AddYears(d: Date, n: int): (r: Date)
    requires Valid(d) && 0 <= d.year + n <= 9999
    ensures Valid(r)
    ensures r.year == d.year + n && r.month == d.month
    ensures r.day == d.day || (d.month == 2 && d.day == 29 && r.day == 28 && !IsLeap(r.year))
  {
    var y := d.year + n;
    Date(y, d.month, if d.day > DaysInMonth(y, d.month) then DaysInMonth(y, d.month) else d.day)
  }

  /** A year later is later. */
  lemma AddYearLater(d: Date)
    requires Valid(d) && d.year + 1 <= 9999
    ensures Before(d, AddYears(d, 1))
    ensures StrLt(FormatYMD(d), FormatYMD(AddYears(d, 1)))
  {
    YMDOrder(d, AddYears(d, 1));
  }
}
