/**
  Seven-decimal coordinate printing
  (connectors/osm_overpass/src/osm_overpass/query.py, `_coordinate`).

  `format(value, ".7f")` rounds the exact value of a float to a whole number of ten-millionths,
  ties to even, and prints the sign bit also when that number is zero.
 */
module CoordinateText {
  import opened Text
  import opened Floats

  const SCALE := 10_000_000

  function Pow10(n: nat): (p: nat)
    ensures p >= 1
  {
    if n == 0 then 1 else 10 * Pow10(n - 1)
  }

  /** The last `width` decimal digits of `m`, with leading zeros. */
  function Padded(m: nat, width: nat): (s: string)
    ensures |s| == width && AllDigits(s)
  {
    if width == 0 then "" else Padded(m / 10, width - 1) + [DigitChar(m % 10)]
  }

  /** `format(value, ".7f")` for `value == (negative ? -1 : 1) * scaled / 10^7`. */
  function Fixed7(negative: bool, scaled: nat): string {
    (if negative then "-" else "") + NatText(scaled / SCALE) + "." + Padded(scaled % SCALE, 7)
  }

  /** `str.rstrip(c)`. */
  function RStrip(s: string, c: char): (r: string)
    ensures r <= s
    ensures r == [] || r[|r| - 1] != c
  {
    if s != [] && s[|s| - 1] == c then RStrip(s[..|s| - 1], c) else s
  }

  /** `_coordinate`. */
  function Coordinate(negative: bool, scaled: nat): string {
    ZeroWithoutSign(RStrip(RStrip(Fixed7(negative, scaled), '0'), '.'))
  }

  function ZeroWithoutSign(rendered: string): string {
    if rendered == "-0" || rendered == "" then "0" else rendered
  }

  /** Number of ten-millionths denoted by a decimal numeral with at most seven decimals. */
  function Scaled(text: string): Option<int> {
    if text != [] && text[0] == '-' then
      match Magnitude(text[1..])
      case None => None
      case Some(m) => Some(-m)
    else Magnitude(text)
  }

  function Magnitude(text: string): Option<int> {
    var n := Whole(text);
    var rest := text[n..];
    if n == 0 then None
    else if rest == [] then Some(NatValue(text[..n]) * SCALE)
    else if rest[0] == '.' && 1 <= |rest| - 1 <= 7 && AllDigits(rest[1..]) then
      Some(NatValue(text[..n]) * SCALE + NatValue(rest[1..]) * Pow10(8 - |rest|))
    else None
  }

  /** Length of the leading digits. */
  function Whole(s: string): (n: nat)
    ensures n <= |s| && AllDigits(s[..n])
    ensures n < |s| ==> !IsDigit(s[n])
  {
    if s != [] && IsDigit(s[0]) then
      var n := Whole(s[1..]);
      assert s[..n + 1] == [s[0]] + s[1..][..n];
      n + 1
    else 0
  }

  lemma {:induction false} WholeOf(digits: string, rest: string)
    requires AllDigits(digits) && (rest == [] || !IsDigit(rest[0]))
    ensures Whole(digits + rest) == |digits|
    ensures (digits + rest)[..|digits|] == digits && (digits + rest)[|digits|..] == rest
  {
    if digits == [] {
      assert digits + rest == rest;
    } else {
      assert (digits + rest)[1..] == digits[1..] + rest;
      WholeOf(digits[1..], rest);
    }
  }

  lemma {:induction false} NatValueSnoc(s: string, c: char)
    requires AllDigits(s) && IsDigit(c)
    ensures AllDigits(s + [c]) && NatValue(s + [c]) == 10 * NatValue(s) + DigitValue(c)
  {
    assert (s + [c])[..|s|] == s;
  }

  lemma {:induction false} TenthFits(m: nat, p: nat)
    requires m < 10 * p
    ensures m / 10 < p && 10 * (m / 10) + m % 10 == m
  {
  }

  lemma {:induction false} PaddedValue(m: nat, width: nat)
    requires m < Pow10(width)
    ensures NatValue(Padded(m, width)) == m
  {
    if width > 0 {
      TenthFits(m, Pow10(width - 1));
      PaddedValue(m / 10, width - 1);
      LastDigit(Padded(m / 10, width - 1), m);
    }
  }

  lemma {:induction false} LastDigit(init: string, m: nat)
    requires AllDigits(init) && NatValue(init) == m / 10
    ensures NatValue(init + [DigitChar(m % 10)]) == m
  {
    NatValueSnoc(init, DigitChar(m % 10));
  }

  lemma {:induction false} TenTimes(x: nat, k: nat)
    ensures x * Pow10(k + 1) == 10 * (x * Pow10(k))
  {
    assert Pow10(k + 1) == 10 * Pow10(k);
  }

  /** Stripping trailing zeros of the decimals divides their value by the matching power of ten. */
  lemma {:induction false} StripValue(f: string)
    requires AllDigits(f)
    ensures AllDigits(RStrip(f, '0'))
    ensures NatValue(f) == NatValue(RStrip(f, '0')) * Pow10(|f| - |RStrip(f, '0')|)
  {
    if f != [] && f[|f| - 1] == '0' {
      var g := f[..|f| - 1];
      StripValue(g);
      var r := RStrip(g, '0');
      assert RStrip(f, '0') == r;
      TenTimes(NatValue(r), |g| - |r|);
    }
  }

  lemma {:induction false} StripStopsAt(head: string, tail: string, c: char)
    requires head != [] && head[|head| - 1] != c
    ensures RStrip(head + tail, c) == head + RStrip(tail, c)
  {
    var s := head + tail;
    if tail == [] {
      assert s == head && head + RStrip(tail, c) == head;
    } else if tail[|tail| - 1] == c {
      assert s[..|s| - 1] == head + tail[..|tail| - 1];
      StripStopsAt(head, tail[..|tail| - 1], c);
    }
  }

  /** The digits and sign before the point, as printed by `Fixed7`. */
  function Head(negative: bool, scaled: nat): (s: string)
    ensures s != [] && IsDigit(s[|s| - 1])
  {
    (if negative then "-" else "") + NatText(scaled / SCALE)
  }

  /** The decimals that survive, point included. */
  function Tail(scaled: nat): string {
    Decimals(RStrip(Padded(scaled % SCALE, 7), '0'))
  }

  lemma {:induction false} StripPoint(head: string, g: string)
    requires head != [] && IsDigit(head[|head| - 1])
    requires g != [] ==> IsDigit(g[|g| - 1])
    ensures RStrip(head + "." + g, '.') == head + Decimals(g)
  {
    if g == [] {
      assert head + "." + g == head + ".";
      StripStopsAt(head, ".", '.');
      assert "."[..0] == "";
    } else {
      assert head + "." + g == head + ("." + g);
    }
  }

  /** Stripping only ever removes trailing zeros of the decimals and a bare point. */
  lemma {:induction false} StripKeepsInteger(negative: bool, scaled: nat)
    ensures RStrip(RStrip(Fixed7(negative, scaled), '0'), '.') == Head(negative, scaled) + Tail(scaled)
  {
    var head, f := Head(negative, scaled), Padded(scaled % SCALE, 7);
    StripStopsAt(head + ".", f, '0');
    StripValue(f);
    StripPoint(head, RStrip(f, '0'));
  }

  function Decimals(g: string): string {
    if g == [] then "" else "." + g
  }

  lemma {:induction false} Recombine(scaled: nat)
    ensures scaled / SCALE * SCALE + scaled % SCALE == scaled
  {
  }

  lemma {:induction false} MagnitudeOf(whole: string, g: string, w: nat, d: nat)
    requires whole != [] && AllDigits(whole) && AllDigits(g) && |g| <= 7
    requires NatValue(whole) == w && NatValue(g) * Pow10(7 - |g|) == d
    ensures Magnitude(whole + Decimals(g)) == Some(w * SCALE + d)
  {
    WholeOf(whole, Decimals(g));
    if g != [] {
      assert Decimals(g)[1..] == g;
    }
  }

  lemma {:induction false} ScaleIsPow10()
    ensures Pow10(7) == SCALE
  {
    assert Pow10(1) == 10 && Pow10(2) == 100 && Pow10(3) == 1_000 && Pow10(4) == 10_000;
    assert Pow10(5) == 100_000 && Pow10(6) == 1_000_000;
  }

  lemma {:induction false} DecimalsValue(d: nat) returns (g: string)
    requires d < SCALE
    ensures g == RStrip(Padded(d, 7), '0') && AllDigits(g) && |g| <= 7
    ensures NatValue(g) * Pow10(7 - |g|) == d
  {
    ScaleIsPow10();
    PaddedValue(d, 7);
    StripValue(Padded(d, 7));
    g := RStrip(Padded(d, 7), '0');
  }

  lemma {:induction false} MagnitudeParts(q: nat, r: nat)
    requires r < SCALE
    ensures Magnitude(NatText(q) + Decimals(RStrip(Padded(r, 7), '0'))) == Some(q * SCALE + r)
  {
    var g := DecimalsValue(r);
    MagnitudeOf(NatText(q), g, q, r);
  }

  lemma {:induction false} ScaledMagnitude(scaled: nat)
    ensures Magnitude(NatText(scaled / SCALE) + Tail(scaled)) == Some(scaled)
  {
    Recombine(scaled);
    MagnitudeIs(scaled, scaled / SCALE, scaled % SCALE, Tail(scaled));
  }

  lemma {:induction false} MagnitudeIs(scaled: nat, q: nat, r: nat, tail: string)
    requires r < SCALE && q * SCALE + r == scaled && tail == Decimals(RStrip(Padded(r, 7), '0'))
    ensures Magnitude(NatText(q) + tail) == Some(scaled)
  {
    MagnitudeParts(q, r);
  }

  function Signed(negative: bool, scaled: nat): int {
    if negative then -(scaled as int) else scaled
  }

  lemma {:induction false} ScaledNegative(text: string, magnitude: string, m: nat)
    requires text == "-" + magnitude && Magnitude(magnitude) == Some(m)
    ensures Scaled(text) == Some(-(m as int))
  {
    assert text[1..] == magnitude;
  }

  lemma {:induction false} ScaledPositive(text: string, magnitude: string, m: nat)
    requires text == "" + magnitude && Magnitude(magnitude) == Some(m)
    requires magnitude != [] && magnitude[0] != '-'
    ensures Scaled(text) == Some(m as int)
  {
    assert text == magnitude;
  }

  lemma {:induction false} SignedText(text: string, negative: bool, magnitude: string, m: nat)
    requires text == (if negative then "-" else "") + magnitude
    requires magnitude != [] && IsDigit(magnitude[0]) && Magnitude(magnitude) == Some(m)
    ensures Scaled(text) == Some(Signed(negative, m))
  {
    if negative {
      ScaledNegative(text, magnitude, m);
    } else {
      ScaledPositive(text, magnitude, m);
    }
  }

  lemma {:induction false} ZeroKeepsValue(text: string)
    requires Scaled(text).Some?
    ensures Scaled(ZeroWithoutSign(text)) == Scaled(text)
  {
    ZeroText();
    if text == "-0" {
      assert text[1..] == "0";
    }
  }

  lemma {:induction false} SignAssociates(negative: bool, scaled: nat)
    ensures Head(negative, scaled) + Tail(scaled)
         == (if negative then "-" else "") + (NatText(scaled / SCALE) + Tail(scaled))
  {
  }

  /** The printed coordinate denotes exactly the scaled value. */
  lemma {:induction false} CoordinateReadsBack(negative: bool, scaled: nat)
    ensures Scaled(Coordinate(negative, scaled)) == Some(Signed(negative, scaled))
  {
    StripKeepsInteger(negative, scaled);
    ScaledMagnitude(scaled);
    SignAssociates(negative, scaled);
    var text := Head(negative, scaled) + Tail(scaled);
    SignedText(text, negative, NatText(scaled / SCALE) + Tail(scaled), scaled);
    ZeroKeepsValue(text);
  }

  lemma {:induction false} ZeroText()
    ensures Magnitude("0") == Some(0) && Scaled("0") == Some(0)
  {
    WholeOf("0", "");
    assert "0" + "" == "0";
    assert NatValue("0") == 0 by {
      assert "0"[..0] == "";
    }
  }

  /** Two coordinates print alike exactly when they denote the same scaled value. */
  lemma {:induction false} CoordinateIdentifies(n1: bool, s1: nat, n2: bool, s2: nat)
    ensures Coordinate(n1, s1) == Coordinate(n2, s2) <==>
      Signed(n1, s1) == Signed(n2, s2)
  {
    CoordinateReadsBack(n1, s1);
    CoordinateReadsBack(n2, s2);
    if s1 == s2 == 0 {
      NegativeZero(n1);
      NegativeZero(n2);
    }
  }

  /** Zero prints as "0" whatever its sign bit. */
  lemma {:induction false} NegativeZero(negative: bool)
    ensures Coordinate(negative, 0) == "0"
  {
    StripKeepsInteger(negative, 0);
    PaddedZero(7);
    assert Tail(0) == "";
    assert NatText(0) == "0";
    assert Head(negative, 0) + "" == Head(negative, 0);
  }

  lemma {:induction false} PaddedZero(width: nat)
    ensures RStrip(Padded(0, width), '0') == ""
  {
    if width > 0 {
      PaddedZero(width - 1);
      var s := Padded(0, width);
      assert s[..|s| - 1] == Padded(0, width - 1);
    }
  }

  // ------------------------------------------------------------ from a float

  /** The whole number nearest to `x`, ties to even. */
  predicate Nearest(n: int, x: real) {
    && -0.5 <= n as real - x <= 0.5
    && ((n as real - x == 0.5 || n as real - x == -0.5) ==> n % 2 == 0)
  }

  function Rounded(x: real): (n: nat)
    requires x >= 0.0
    ensures Nearest(n, x)
  {
    var low := x.Floor;
    if x - low as real < 0.5 || (x - low as real == 0.5 && low % 2 == 0) then low else low + 1
  }

  function Magnify(x: real): real {
    x * SCALE as real
  }

  predicate Negative(d: Double)
    requires d.Finite?
  {
    d.value < 0.0 || d.minusZero
  }

  /** How many ten-millionths `format` finds in a float, without the sign. */
  function Digits(d: Double): nat
    requires d.Finite?
  {
    MagnifySign(d.value);
    Rounded(if d.value < 0.0 then -Magnify(d.value) else Magnify(d.value))
  }

  lemma {:induction false} MagnifySign(x: real)
    ensures x < 0.0 ==> Magnify(x) < 0.0
    ensures x >= 0.0 ==> Magnify(x) >= 0.0
  {
  }

  /** `_coordinate(value)`. */
  function CoordinateOf(d: Double): string
    requires d.Finite?
  {
    Coordinate(Negative(d), Digits(d))
  }

  lemma {:induction false} NegatedNearest(n: int, x: real)
    requires Nearest(n, -x)
    ensures Nearest(-n, x)
  {
  }

  /** Rounding is monotone. */
  lemma {:induction false} NearestMonotone(m: int, n: int, x: real, y: real)
    requires Nearest(m, x) && Nearest(n, y) && x <= y
    ensures m <= n
  {
  }

  lemma {:induction false} DigitsNearest(d: Double)
    requires d.Finite? && (d.minusZero ==> d.value == 0.0)
    ensures Nearest(Signed(Negative(d), Digits(d)), Magnify(d.value))
  {
    MagnifySign(d.value);
    if d.value < 0.0 {
      NegatedNearest(Digits(d), Magnify(d.value));
    } else if d.minusZero {
      assert Magnify(0.0) == 0.0;
    }
  }

  /** The printed coordinate is the multiple of a ten-millionth nearest to the float. */
  lemma {:induction false} CoordinateIsNearest(d: Double)
    requires d.Finite? && (d.minusZero ==> d.value == 0.0)
    ensures Scaled(CoordinateOf(d)).Some?
    ensures Nearest(Scaled(CoordinateOf(d)).value, Magnify(d.value))
  {
    CoordinateReadsBack(Negative(d), Digits(d));
    DigitsNearest(d);
  }

  lemma {:induction false} MagnifyMonotone(x: real, y: real)
    requires x <= y
    ensures Magnify(x) <= Magnify(y)
  {
  }

  /** A float that is not smaller never prints as a smaller coordinate. */
  lemma {:induction false} CoordinateMonotone(a: Double, b: Double)
    requires a.Finite? && b.Finite? && a.value <= b.value
    requires (a.minusZero ==> a.value == 0.0) && (b.minusZero ==> b.value == 0.0)
    ensures Scaled(CoordinateOf(a)).Some? && Scaled(CoordinateOf(b)).Some?
    ensures Scaled(CoordinateOf(a)).value <= Scaled(CoordinateOf(b)).value
  {
    CoordinateIsNearest(a);
    CoordinateIsNearest(b);
    MagnifyMonotone(a.value, b.value);
    NearestMonotone(Scaled(CoordinateOf(a)).value, Scaled(CoordinateOf(b)).value, Magnify(a.value), Magnify(b.value));
  }

  /** Two floats print alike exactly when they round to the same number of ten-millionths. */
  lemma {:induction false} FloatsPrintAlike(a: Double, b: Double)
    requires a.Finite? && b.Finite?
    ensures CoordinateOf(a) == CoordinateOf(b) <==> Signed(Negative(a), Digits(a)) == Signed(Negative(b), Digits(b))
  {
    CoordinateIdentifies(Negative(a), Digits(a), Negative(b), Digits(b));
  }
}
