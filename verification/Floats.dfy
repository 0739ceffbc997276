/**
  Binary floating point as far as the platform relies on it: conversion from JSON numbers,
  comparison by value, and the guarantee that `float(repr(x)) == x` with short text.
 */
module Floats {
  import opened Text
  import opened Utf8
  import opened Json

  /** A double by its real value; zero carries its sign. */
  datatype Double = Finite(value: real, minusZero: bool) | NotFinite

  const ZERO := Finite(0.0, false)

  /** `ofInt` is `float(n)` (`None` is OverflowError), `ofToken` is `float(text)`. */
  datatype Floats = Floats(
    isDouble: Double -> bool,
    ofInt: int -> Option<Double>,
    ofToken: string -> Double,
    repr: Double -> string)

  /** What is assumed of the interpreter's floating point. */
  ghost predicate Sound(fl: Floats) {
    && fl.isDouble(ZERO)
    && (forall n :: fl.ofInt(n).Some? ==> fl.isDouble(fl.ofInt(n).value))
    && (forall t :: fl.isDouble(fl.ofToken(t)))
    && (forall d :: fl.isDouble(d) && d.Finite? ==> ReprReadsBack(d, fl))
    && (forall d :: fl.isDouble(d) && d.Finite? && d.minusZero ==> d.value == 0.0)
  }

  ghost predicate ReprReadsBack(d: Double, fl: Floats) {
    IsFloatToken(fl.repr(d)) && |fl.repr(d)| <= 24 && fl.ofToken(fl.repr(d)) == d
  }

  predicate AsciiUpTo(s: string, n: nat)
    requires n <= |s|
  {
    forall k :: 0 <= k < n ==> (s[k] as int) < 0x80
  }

  lemma {:induction false} RunAscii(s: string, k: nat)
    requires k <= |s| && AsciiUpTo(s, k)
    ensures AsciiUpTo(s, k + DigitRun(s[k..]))
  {
    var n := DigitRun(s[k..]);
    forall j | k <= j < k + n ensures (s[j] as int) < 0x80 {
      assert s[j] == s[k..][..n][j - k];
    }
  }

  lemma {:induction false} PartsAscii(s: string)
    ensures AsciiUpTo(s, IntPart(s)) && AsciiUpTo(s, FracPart(s)) && AsciiUpTo(s, ExpPart(s))
  {
    if s != [] {
      RunAscii(s, 0);
      assert s[0..] == s;
      if (s[0] as int) < 0x80 {
        RunAscii(s, 1);
        if |s| > 1 && (s[1] as int) < 0x80 {
          RunAscii(s, 2);
        }
      }
    }
  }

  /** A number token is plain ASCII, so it encodes to as many bytes as it has characters. */
  lemma {:induction false} TokenAscii(t: string)
    requires IsFloatToken(t)
    ensures IsAscii(t)
  {
    var i, f, e := NumberParts(t);
    PartsAscii(t);
    PartsAscii(t[i..]);
    PartsAscii(t[i + f..]);
    ThreeParts(t, i, f, e);
  }

  lemma {:induction false} ThreeParts(t: string, i: nat, f: nat, e: nat)
    requires i + f + e == |t| && AsciiUpTo(t, i) && AsciiUpTo(t[i..], f) && AsciiUpTo(t[i + f..], e)
    ensures IsAscii(t)
  {
    forall k | 0 <= k < |t| ensures (t[k] as int) < 0x80 {
      if i <= k < i + f {
        assert t[k] == t[i..][k - i];
      } else if i + f <= k {
        assert t[k] == t[i + f..][k - i - f];
      }
    }
  }
}
