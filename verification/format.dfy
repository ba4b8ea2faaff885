/**
 * `fmt_amount`: an exact decimal amount rounded half-to-even to cents and
 * written with a thousands separator, or `"0.00"` when the rounding
 * overflows the 28-digit decimal context.
 */
module Format {

  function Abs(x: real): real { if x < 0.0 then -x else x }

  function Pow10Nat(e: nat): (r: nat)
    ensures r >= 1
  {
    if e == 0 then 1 else 10 * Pow10Nat(e - 1)
  }

  /** The digit limit of the default decimal context. */
  const Precision: nat := 28

  /** `Decimal.quantize` under `ROUND_HALF_EVEN`, for a non-negative value: the nearest integer, ties to even. */
  function RoundHalfEven(y: real): (n: nat)
    requires y >= 0.0
    ensures -0.5 <= n as real - y <= 0.5
    ensures (n as real - y == 0.5 || y - n as real == 0.5) ==> n % 2 == 0
  {
    var f := y.Floor;
    var frac := y - f as real;
    if frac < 0.5 then f
    else if frac > 0.5 then f + 1
    else if f % 2 == 0 then f
    else f + 1
  }

  /** Any integer strictly within half a unit of `y`, or at half a unit and even, is the rounded value. */
  lemma RoundingIsUnique(y: real, m: int)
    requires y >= 0.0
    requires -0.5 <= m as real - y <= 0.5
    requires (m as real - y == 0.5 || y - m as real == 0.5) ==> m % 2 == 0
    ensures m == RoundHalfEven(y)
  {
    var n := RoundHalfEven(y);
    assert -1 <= m - n <= 1;
  }

  function DigitChar(d: nat): char
    requires d < 10
  {
    ('0' as int + d) as char
  }

  function DigitValue(c: char): nat {
    if '0' <= c <= '9' then c as int - '0' as int else 0
  }

  predicate IsDigit(c: char) { '0' <= c <= '9' }

  /** `str(n)` */
  function Digits(n: nat): string {
    if n < 10 then [DigitChar(n)] else Digits(n / 10) + [DigitChar(n % 10)]
  }

  /** Three digits with leading zeros. */
  function Pad3(k: nat): string
    requires k < 1000
  {
    [DigitChar(k / 100), DigitChar(k / 10 % 10), DigitChar(k % 10)]
  }

  /** `format(n, ",")` */
  function Group(n: nat): string {
    if n < 1000 then Digits(n) else Group(n / 1000) + "," + Pad3(n % 1000)
  }

  /** A count of cents written as grouped units, a point and two digits. */
  function Layout(cents: nat): string {
    Group(cents / 100) + "." + [DigitChar(cents / 10 % 10), DigitChar(cents % 10)]
  }

  /** `format(x.quantize(Decimal("0.01")), ",f")`, `"0.00"` when `quantize` raises. */
  function FmtAmount(x: real): string {
    var cents := RoundHalfEven(Abs(x) * 100.0);
    if cents >= Pow10Nat(Precision) then "0.00"
    else (if x < 0.0 then "-" else "") + Layout(cents)
  }

  /** Reading the digits of a string as a number. */
  function ParseNat(s: string): nat {
    if s == [] then 0 else ParseNat(s[..|s| - 1]) * 10 + DigitValue(s[|s| - 1])
  }

  function DropCommas(s: string): string {
    if s == [] then [] else (if s[0] == ',' then [] else [s[0]]) + DropCommas(s[1..])
  }

  /** Reads back an amount written as `[-]digits-with-commas.dd`. */
  function ParseAmount(s: string): real
    requires |s| >= 4
  {
    var neg := s[0] == '-';
    var body := if neg then s[1..] else s;
    var v := ParseNat(DropCommas(body[..|body| - 3])) as real + ParseNat(body[|body| - 2..]) as real / 100.0;
    if neg then -v else v
  }

  lemma {:induction false} ParseDigits(n: nat)
    ensures ParseNat(Digits(n)) == n
    ensures forall i :: 0 <= i < |Digits(n)| ==> IsDigit(Digits(n)[i])
    ensures n > 0 ==> Digits(n)[0] != '0'
  {
    if n >= 10 {
      ParseDigits(n / 10);
      var d := Digits(n);
      assert d[..|d| - 1] == Digits(n / 10);
      assert d[0] == Digits(n / 10)[0];
    }
  }

  lemma {:induction false} ParseAppend(a: string, b: string)
    ensures ParseNat(a + b) == ParseNat(a) * Pow10Nat(|b|) + ParseNat(b)
    decreases |b|
  {
    if b == [] {
      assert a + b == a;
    } else {
      var b' := b[..|b| - 1];
      assert (a + b)[..|a + b| - 1] == a + b';
      ParseAppend(a, b');
      var pa, pb, e, dv := ParseNat(a), ParseNat(b'), Pow10Nat(|b'|), DigitValue(b[|b| - 1]);
      assert ParseNat(a + b) == ParseNat(a + b') * 10 + dv;
      assert ParseNat(b) == pb * 10 + dv;
      assert Pow10Nat(|b|) == e * 10;
      ShiftDigit(pa, e, pb, dv);
    }
  }

  /** One more digit after a split point: `(pa * e + pb) * 10 + dv` regrouped. */
  lemma ShiftDigit(pa: int, e: int, pb: int, dv: int)
    ensures (pa * e + pb) * 10 + dv == pa * (e * 10) + (pb * 10 + dv)
  {
  }

  lemma DigitRoundTrip(d: nat)
    requires d < 10
    ensures DigitValue(DigitChar(d)) == d && IsDigit(DigitChar(d))
  {
  }

  lemma ParseTwo(a: nat, b: nat)
    requires a < 10 && b < 10
    ensures ParseNat([DigitChar(a), DigitChar(b)]) == 10 * a + b
  {
    var p := [DigitChar(a), DigitChar(b)];
    DigitRoundTrip(a);
    DigitRoundTrip(b);
    assert p[..1] == [DigitChar(a)] && p[..1][..0] == [];
    assert ParseNat(p[..1]) == ParseNat(p[..1][..0]) * 10 + a;
    assert ParseNat(p) == ParseNat(p[..1]) * 10 + b;
  }

  lemma ParsePad3(k: nat)
    requires k < 1000
    ensures ParseNat(Pad3(k)) == k
  {
    var p := Pad3(k);
    assert p[..2] == [DigitChar(k / 100), DigitChar(k / 10 % 10)];
    ParseTwo(k / 100, k / 10 % 10);
    DigitRoundTrip(k % 10);
    assert ParseNat(p) == ParseNat(p[..2]) * 10 + k % 10;
    assert k == (k / 100) * 100 + (k / 10 % 10) * 10 + k % 10;
  }

  lemma {:induction false} DropCommasAppend(a: string, b: string)
    ensures DropCommas(a + b) == DropCommas(a) + DropCommas(b)
  {
    if a != [] {
      assert (a + b)[1..] == a[1..] + b;
      DropCommasAppend(a[1..], b);
    } else {
      assert a + b == b;
    }
  }

  lemma {:induction false} DropCommasOfDigits(s: string)
    requires forall i :: 0 <= i < |s| ==> IsDigit(s[i])
    ensures DropCommas(s) == s
  {
    if s != [] {
      DropCommasOfDigits(s[1..]);
    }
  }

  /** The thousands-grouped form reads back as the number. */
  lemma {:induction false} GroupRoundTrip(n: nat)
    ensures ParseNat(DropCommas(Group(n))) == n
  {
    if n < 1000 {
      ParseDigits(n);
      DropCommasOfDigits(Digits(n));
    } else {
      var hi, lo := n / 1000, n % 1000;
      GroupRoundTrip(hi);
      var g := Group(hi);
      var dg := DropCommas(g);
      var p := Pad3(lo);
      assert Group(n) == (g + ",") + p;
      DropCommasAppend(g + ",", p);
      DropCommasAppend(g, ",");
      PadIsDigits(lo);
      DropCommasOfDigits(p);
      assert DropCommas(",") == [];
      assert DropCommas(Group(n)) == dg + p;
      ParseAppend(dg, p);
      ParsePad3(lo);
      assert |p| == 3 && Pow10Nat(3) == 1000;
      assert n == hi * 1000 + lo;
    }
  }

  lemma PadIsDigits(k: nat)
    requires k < 1000
    ensures forall i :: 0 <= i < 3 ==> IsDigit(Pad3(k)[i])
  {
  }

  /** The grouped form is digits and commas only, and starts with a digit that is not a leading zero. */
  lemma {:induction false} GroupShape(n: nat)
    ensures Group(n) != [] && IsDigit(Group(n)[0]) && (n > 0 ==> Group(n)[0] != '0')
    ensures forall i :: 0 <= i < |Group(n)| ==> IsDigit(Group(n)[i]) || Group(n)[i] == ','
  {
    if n < 1000 {
      ParseDigits(n);
    } else {
      GroupShape(n / 1000);
      PadIsDigits(n % 1000);
      var g := Group(n / 1000);
      assert Group(n)[0] == g[0];
      forall i | 0 <= i < |Group(n)|
        ensures IsDigit(Group(n)[i]) || Group(n)[i] == ','
      {
        if i < |g| {
          assert Group(n)[i] == g[i];
        } else if i > |g| {
          assert Group(n)[i] == Pad3(n % 1000)[i - |g| - 1];
        }
      }
    }
  }

  /** The digits around the point of a layout. */
  lemma LayoutParts(cents: nat)
    ensures var body := Layout(cents);
      && |body| >= 4 && body[0] != '-'
      && ParseNat(DropCommas(body[..|body| - 3])) == cents / 100
      && ParseNat(body[|body| - 2..]) == cents % 100
  {
    var g := Group(cents / 100);
    var f := [DigitChar(cents / 10 % 10), DigitChar(cents % 10)];
    var body := Layout(cents);
    GroupRoundTrip(cents / 100);
    GroupShape(cents / 100);
    assert body[0] == g[0];
    assert body[..|body| - 3] == g;
    assert body[|body| - 2..] == f;
    ParseTwo(cents / 10 % 10, cents % 10);
    LastTwoDigits(cents);
  }

  /** The tens and units digits of `c` make up `c % 100`. */
  lemma LastTwoDigits(c: nat)
    ensures 10 * (c / 10 % 10) + c % 10 == c % 100
  {
    var q, r := c / 10, c % 10;
    assert c == 10 * q + r;
    var qq, qr := q / 10, q % 10;
    assert q == 10 * qq + qr;
    assert c == 100 * qq + (10 * qr + r);
  }

  /** The layout of a count of cents reads back as that count over 100, with the sign given. */
  lemma ParseLayout(neg: bool, cents: nat)
    ensures var s := (if neg then "-" else "") + Layout(cents);
      |s| >= 4 && ParseAmount(s) == (if neg then -1.0 else 1.0) * cents as real / 100.0
  {
    var body := Layout(cents);
    LayoutParts(cents);
    var s := (if neg then "-" else "") + body;
    assert (if s[0] == '-' then s[1..] else s) == body;
    var v := ParseNat(DropCommas(body[..|body| - 3])) as real + ParseNat(body[|body| - 2..]) as real / 100.0;
    CentsSplit(cents);
    assert ParseAmount(s) == if neg then -v else v;
  }

  lemma CentsSplit(c: nat)
    ensures (c / 100) as real + (c % 100) as real / 100.0 == c as real / 100.0
  {
    var q, r := c / 100, c % 100;
    assert c == 100 * q + r;
    assert c as real == 100.0 * q as real + r as real;
  }

  /**
   * The formatted amount reads back as the amount rounded half-to-even to
   * cents, with the sign of the input, unless the rounded value has more
   * digits than the decimal context holds, in which case it is `"0.00"`.
   */
  lemma FmtAmountRoundTrip(x: real)
    ensures var cents := RoundHalfEven(Abs(x) * 100.0);
      && (cents >= Pow10Nat(Precision) ==> FmtAmount(x) == "0.00")
      && (cents < Pow10Nat(Precision) ==>
            && |FmtAmount(x)| >= 4
            && ParseAmount(FmtAmount(x)) == (if x < 0.0 then -1.0 else 1.0) * cents as real / 100.0
            && -0.005 <= Abs(x) - cents as real / 100.0 <= 0.005)
  {
    var cents := RoundHalfEven(Abs(x) * 100.0);
    ParseLayout(x < 0.0, cents);
  }
}
