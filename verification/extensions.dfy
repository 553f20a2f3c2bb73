/** The formatting and exception helpers of `core/common/Extensions.kt`.

    `String.format(Locale.getDefault(), "%.2f", v)` is modelled for a locale
    with '.' as decimal separator, ASCII digits and no grouping. */
module Extensions {
  import opened Common
  import opened Decimals

  predicate IsDigit(c: char) {
    '0' <= c <= '9'
  }

  predicate AllDigits(s: string) {
    forall k :: 0 <= k < |s| ==> IsDigit(s[k])
  }

  function DigitChar(d: nat): (c: char)
    requires d < 10
    ensures IsDigit(c)
  {
    ('0' as int + d) as char
  }

  function DigitValue(c: char): (d: nat)
    requires IsDigit(c)
    ensures d < 10
  {
    c as int - '0' as int
  }

  /** Decimal digits of `n`, without leading zeros. */
  function NatToString(n: nat): (s: string)
    ensures |s| >= 1 && AllDigits(s)
    ensures s[0] == '0' <==> n == 0
    ensures |s| == 1 <==> n < 10
  {
    if n < 10 then [DigitChar(n)] else NatToString(n / 10) + [DigitChar(n % 10)]
  }

  function ParseNat(s: string): nat
    requires AllDigits(s)
  {
    if |s| == 0 then 0 else ParseNat(s[..|s| - 1]) * 10 + DigitValue(s[|s| - 1])
  }

  lemma {:induction false} NatToStringRoundTrip(n: nat)
    ensures ParseNat(NatToString(n)) == n
  {
    if n >= 10 {
      var s := NatToString(n);
      assert s[..|s| - 1] == NatToString(n / 10);
      NatToStringRoundTrip(n / 10);
    }
  }

  /** A digit string without a leading zero (other than "0" itself) is the
      one `NatToString` prints for its value: the printed text is the only
      canonical spelling of a number. */
  lemma {:induction false} CanonicalDigits(s: string)
    requires |s| >= 1 && AllDigits(s)
    requires |s| > 1 ==> s[0] != '0'
    ensures NatToString(ParseNat(s)) == s
  {
    var d := DigitValue(s[|s| - 1]);
    var p := s[..|s| - 1];
    if |s| == 1 {
      assert p == [];
      assert DigitChar(d) == s[0];
    } else {
      assert p[0] == s[0];
      CanonicalDigits(p);
      var n := ParseNat(s);
      assert n == ParseNat(p) * 10 + d;
      assert ParseNat(p) != 0;
      assert n / 10 == ParseNat(p) && n % 10 == d;
      assert DigitChar(d) == s[|s| - 1];
      assert s == p + [s[|s| - 1]];
    }
  }

  /** The shape "%.2f" prints: an optional minus, integer digits, a point
      and exactly two fractional digits. */
  predicate IsFixed2(s: string) {
    var body := if |s| > 0 && s[0] == '-' then s[1..] else s;
    && |body| >= 4
    && body[|body| - 3] == '.'
    && AllDigits(body[..|body| - 3])
    && AllDigits(body[|body| - 2..])
  }

  /** Reads back a string of the shape `IsFixed2`, in hundredths. */
  function ParseFixed2(s: string): Option<int> {
    if !IsFixed2(s) then None
    else
      var negative := |s| > 0 && s[0] == '-';
      var body := if negative then s[1..] else s;
      var magnitude := ParseNat(body[..|body| - 3]) * 100 + ParseNat(body[|body| - 2..]);
      Some(if negative then -magnitude else magnitude)
  }

  /** The unsigned part of "%.2f": integer digits, a point, two digits. */
  function FormatMagnitude(m: nat): (u: string)
    ensures |u| >= 4 && u[|u| - 3] == '.' && IsDigit(u[0]) && IsDigit(u[|u| - 1])
    ensures AllDigits(u[..|u| - 3]) && AllDigits(u[|u| - 2..])
    ensures ParseNat(u[..|u| - 3]) * 100 + ParseNat(u[|u| - 2..]) == m
    ensures |u| > 4 ==> u[0] != '0'
  {
    var whole := NatToString(m / 100);
    var frac := [DigitChar(m % 100 / 10), DigitChar(m % 10)];
    var u := whole + "." + frac;
    assert u[..|u| - 3] == whole;
    assert u[|u| - 2..] == frac;
    NatToStringRoundTrip(m / 100);
    assert ParseNat(frac) == m % 100 by {
      var t, o := m % 100 / 10, m % 10;
      assert DigitValue(frac[0]) == t && DigitValue(frac[1]) == o;
      assert frac[..1][..0] == [];
      assert ParseNat(frac[..1]) == t;
      assert ParseNat(frac) == t * 10 + o;
      assert t * 10 + o == m % 100;
    }
    u
  }

  /** The contract of `FormatMagnitude` determines its text: any string of
      that shape, without a leading zero, that reads back as `m` is the one
      "%.2f" prints. */
  lemma FormatMagnitudeUnique(m: nat, u: string)
    requires |u| >= 4 && u[|u| - 3] == '.'
    requires AllDigits(u[..|u| - 3]) && AllDigits(u[|u| - 2..])
    requires ParseNat(u[..|u| - 3]) * 100 + ParseNat(u[|u| - 2..]) == m
    requires |u| > 4 ==> u[0] != '0'
    ensures u == FormatMagnitude(m)
  {
    var w, f := u[..|u| - 3], u[|u| - 2..];
    assert f[..1][..0] == [];
    assert f[..|f| - 1] == f[..1];
    assert ParseNat(f[..1]) == DigitValue(f[0]);
    assert ParseNat(f) == DigitValue(f[0]) * 10 + DigitValue(f[1]);
    assert ParseNat(w) == m / 100 && ParseNat(f) == m % 100;
    CanonicalDigits(w);
    assert f == [DigitChar(m % 100 / 10), DigitChar(m % 10)];
    assert u == w + "." + f;
  }

  /** `"%.2f"` of an amount already at scale 2, given in hundredths. */
  function FormatFixed2(cents: int): (s: string)
    ensures IsFixed2(s)
    ensures ParseFixed2(s) == Some(cents)
    ensures s[0] == '-' <==> cents < 0
    ensures IsDigit(s[|s| - 1])
    ensures cents >= 0 && |s| > 4 ==> s[0] != '0'
    ensures cents < 0 && |s| > 5 ==> s[1] != '0'
  {
    if cents < 0 then
      var u := FormatMagnitude(-cents);
      var s := "-" + u;
      assert s[1..] == u && s[1] == u[0];
      s
    else
      FormatMagnitude(cents)
  }

  /** The contract of `FormatFixed2` determines its text: any string of the
      "%.2f" shape that reads back as `cents`, carries a minus exactly for a
      negative amount and has no leading zero is the one it prints. */
  lemma FormatFixed2Unique(cents: int, s: string)
    requires IsFixed2(s)
    requires ParseFixed2(s) == Some(cents)
    requires |s| > 0 && (s[0] == '-' <==> cents < 0)
    requires cents >= 0 && |s| > 4 ==> s[0] != '0'
    requires cents < 0 && |s| > 5 ==> s[1] != '0'
    ensures s == FormatFixed2(cents)
  {
    var body := if cents < 0 then s[1..] else s;
    var m := if cents < 0 then -cents else cents;
    FormatMagnitudeUnique(m, body);
    if cents < 0 {
      assert s == "-" + body;
    }
  }

  /** `BigDecimal.formatAsPercentage()`: rounded half-up to two decimals,
      followed by '%'. */
  function FormatAsPercentage(x: Decimal): (r: string)
    ensures |r| >= 5 && r[|r| - 1] == '%'
    ensures ParseFixed2(r[..|r| - 1]) == Some(SetScale(x, 2))
    ensures r[0] == '-' <==> SetScale(x, 2) < 0
    ensures r[..|r| - 1] == FormatFixed2(SetScale(x, 2))
  {
    var s := FormatFixed2(SetScale(x, 2));
    assert (s + "%")[..|s|] == s;
    s + "%"
  }

  const TenMillion := 10000000
  const OneLakh := 100000

  predicate EndsWith(s: string, suffix: string) {
    |s| >= |suffix| && s[|s| - |suffix|..] == suffix
  }

  /** `BigDecimal.formatIndianNumber()`: crores from ten million up, lakhs
      from one hundred thousand up, a plain two-decimal number below (every
      negative value included). */
  function FormatIndianNumber(x: Decimal): (r: string)
    ensures EndsWith(r, " Cr") <==> AtLeast(x, TenMillion)
    ensures EndsWith(r, " L") <==> !AtLeast(x, TenMillion) && AtLeast(x, OneLakh)
    ensures AtLeast(x, TenMillion) ==>
      ParseFixed2(r[..|r| - 3]) == Some(DivHalfUp(Num(x) * 100, Den(x) * TenMillion))
    ensures !AtLeast(x, TenMillion) && AtLeast(x, OneLakh) ==>
      ParseFixed2(r[..|r| - 2]) == Some(DivHalfUp(Num(x) * 100, Den(x) * OneLakh))
    ensures !AtLeast(x, OneLakh) ==> ParseFixed2(r) == Some(SetScale(x, 2))
    ensures AtLeast(x, TenMillion) ==>
      r[..|r| - 3] == FormatFixed2(DivHalfUp(Num(x) * 100, Den(x) * TenMillion))
    ensures !AtLeast(x, TenMillion) && AtLeast(x, OneLakh) ==>
      r[..|r| - 2] == FormatFixed2(DivHalfUp(Num(x) * 100, Den(x) * OneLakh))
    ensures !AtLeast(x, OneLakh) ==> r == FormatFixed2(SetScale(x, 2))
  {
    if AtLeast(x, TenMillion) then
      var s := FormatFixed2(DivHalfUp(Num(x) * 100, Den(x) * TenMillion));
      assert (s + " Cr")[..|s|] == s;
      assert (s + " Cr")[|s| + 1] == 'C';
      s + " Cr"
    else if AtLeast(x, OneLakh) then
      var s := FormatFixed2(DivHalfUp(Num(x) * 100, Den(x) * OneLakh));
      assert (s + " L")[..|s|] == s;
      assert (s + " L")[|s| + 1] == 'L';
      s + " L"
    else
      var s := FormatFixed2(SetScale(x, 2));
      assert !EndsWith(s, " Cr") && !EndsWith(s, " L");
      s
  }

  /** `Exception.throwIfCancellation()`: rethrows a cancellation, and
      otherwise returns without effect. */
  function ThrowIfCancellation(e: Exception): (r: Outcome<()>)
    ensures r.Thrown? <==> IsCancellation(e)
    ensures r.Thrown? ==> r.error == e
  {
    if IsCancellation(e) then Thrown(e) else Returned(())
  }

  // Worked cases: 12.3456, 12.345, 12.344, 0 and -12.3456 as percentages;
  // 15,000,000, 10,000,000, 5,000,000, 100,000, 50,000 and 0 in Indian units.

  lemma PercentageRoundsUp()
    ensures FormatAsPercentage(Decimal(123456, 4)) == "12.35%"
  {
    assert SetScale(Decimal(123456, 4), 2) == 1235;
    assert FormatMagnitude(1235) == "12.35";
  }

  lemma PercentageTieRoundsUp()
    ensures FormatAsPercentage(Decimal(12345, 3)) == "12.35%"
  {
    assert SetScale(Decimal(12345, 3), 2) == 1235;
    assert FormatMagnitude(1235) == "12.35";
  }

  lemma PercentageRoundsDown()
    ensures FormatAsPercentage(Decimal(12344, 3)) == "12.34%"
  {
    assert SetScale(Decimal(12344, 3), 2) == 1234;
    assert FormatMagnitude(1234) == "12.34";
  }

  lemma PercentageOfZero()
    ensures FormatAsPercentage(Decimal(0, 0)) == "0.00%"
  {
    assert SetScale(Decimal(0, 0), 2) == 0;
    assert FormatMagnitude(0) == "0.00";
  }

  lemma NegativePercentageKeepsSign()
    ensures FormatAsPercentage(Decimal(-123456, 4)) == "-12.35%"
  {
    assert SetScale(Decimal(-123456, 4), 2) == -1235;
    assert FormatMagnitude(1235) == "12.35";
  }

  lemma CroreExample()
    ensures FormatIndianNumber(Decimal(150000000, 1)) == "1.50 Cr"
  {
    assert DivHalfUp(15000000000, 100000000) == 150;
    assert FormatMagnitude(150) == "1.50";
  }

  lemma ExactlyOneCrore()
    ensures FormatIndianNumber(Decimal(100000000, 1)) == "1.00 Cr"
  {
    assert DivHalfUp(10000000000, 100000000) == 100;
    assert FormatMagnitude(100) == "1.00";
  }

  lemma LakhExample()
    ensures FormatIndianNumber(Decimal(50000000, 1)) == "50.00 L"
  {
    assert DivHalfUp(5000000000, 1000000) == 5000;
    assert FormatMagnitude(5000) == "50.00";
  }

  lemma ExactlyOneLakh()
    ensures FormatIndianNumber(Decimal(1000000, 1)) == "1.00 L"
  {
    assert DivHalfUp(100000000, 1000000) == 100;
    assert FormatMagnitude(100) == "1.00";
  }

  lemma BelowOneLakh()
    ensures FormatIndianNumber(Decimal(500000, 1)) == "50000.00"
  {
    assert SetScale(Decimal(500000, 1), 2) == 5000000;
    assert NatToString(50000) == "50000";
    assert FormatMagnitude(5000000) == "50000.00";
  }

  lemma IndianZero()
    ensures FormatIndianNumber(Decimal(0, 0)) == "0.00"
  {
    assert SetScale(Decimal(0, 0), 2) == 0;
    assert FormatMagnitude(0) == "0.00";
  }
}
