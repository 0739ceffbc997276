/**
  The UTF-8 codec behind `str.encode("utf-8")`, `bytes.decode("utf-8")` and the
  replacing decoder `unquote` uses.  A `char` is a Unicode scalar value.
 */
module Utf8 {
  import opened Text

  type Byte = b: int | 0 <= b < 256

  function EncodeChar(c: char): (bs: seq<Byte>)
    ensures 1 <= |bs| <= 4
    ensures (c as int) < 0x80 <==> bs[0] < 0x80
    ensures (c as int) < 0x80 ==> bs == [c as int]
    ensures (c as int) >= 0x80 ==> forall i :: 0 <= i < |bs| ==> bs[i] >= 0x80
  {
    var u := c as int;
    if u < 0x80 then [u]
    else if u < 0x800 then [0xC0 + u / 0x40, 0x80 + u % 0x40]
    else if u < 0x10000 then [0xE0 + u / 0x1000, 0x80 + u / 0x40 % 0x40, 0x80 + u % 0x40]
    else [0xF0 + u / 0x40000, 0x80 + u / 0x1000 % 0x40, 0x80 + u / 0x40 % 0x40, 0x80 + u % 0x40]
  }

  function Encode(s: string): (bs: seq<Byte>)
    ensures |s| <= |bs| <= 4 * |s|
  {
    if s == [] then [] else EncodeChar(s[0]) + Encode(s[1..])
  }

  /** One decoding step: a scalar value of `size` bytes, or a maximal invalid subpart. */
  datatype Next = Good(c: char, size: nat) | Bad(size: nat)

  predicate Cont(bs: seq<Byte>, i: nat, lo: int, hi: int) {
    i < |bs| && lo <= bs[i] <= hi
  }

  /** The six payload bits of a continuation byte. */
  function Low6(b: int): int {
    b - 0x80
  }

  function DecodeNext(bs: seq<Byte>): (r: Next)
    requires bs != []
    ensures 1 <= r.size <= |bs|
  {
    var b: int := bs[0];
    if b < 0x80 then Good(b as char, 1)
    else if 0xC2 <= b <= 0xDF then
      if Cont(bs, 1, 0x80, 0xBF) then Good(((b - 0xC0) * 0x40 + Low6(bs[1])) as char, 2) else Bad(1)
    else if 0xE0 <= b <= 0xEF then
      var lo := if b == 0xE0 then 0xA0 else 0x80;
      var hi := if b == 0xED then 0x9F else 0xBF;
      if !Cont(bs, 1, lo, hi) then Bad(1)
      else if !Cont(bs, 2, 0x80, 0xBF) then Bad(2)
      else Good(((b - 0xE0) * 0x1000 + Low6(bs[1]) * 0x40 + Low6(bs[2])) as char, 3)
    else if 0xF0 <= b <= 0xF4 then
      var lo := if b == 0xF0 then 0x90 else 0x80;
      var hi := if b == 0xF4 then 0x8F else 0xBF;
      if !Cont(bs, 1, lo, hi) then Bad(1)
      else if !Cont(bs, 2, 0x80, 0xBF) then Bad(2)
      else if !Cont(bs, 3, 0x80, 0xBF) then Bad(3)
      else Good(((b - 0xF0) * 0x40000 + Low6(bs[1]) * 0x1000 + Low6(bs[2]) * 0x40 + Low6(bs[3])) as char, 4)
    else Bad(1)
  }

  /** `bytes.decode("utf-8")`: `None` stands for UnicodeDecodeError. */
  function Decode(bs: seq<Byte>): Option<string>
  {
    if bs == [] then Some([])
    else
      match DecodeNext(bs)
      case Bad(_) => None
      case Good(c, n) =>
        match Decode(bs[n..])
        case None => None
        case Some(rest) => Some([c] + rest)
  }

  /** `bytes.decode("utf-8", "replace")`. */
  function DecodeReplacing(bs: seq<Byte>): string
  {
    if bs == [] then []
    else
      var next := DecodeNext(bs);
      [if next.Good? then next.c else '\U{FFFD}'] + DecodeReplacing(bs[next.size..])
  }

  lemma {:induction false} DecodeNextOfEncodeChar(c: char, rest: seq<Byte>)
    ensures DecodeNext(EncodeChar(c) + rest) == Good(c, |EncodeChar(c)|)
  {
    var u := c as int;
    SixBits(u);
    if u >= 0x10000 {
      FourBytes(c, rest);
    }
  }

  lemma {:induction false} SixBits(u: nat)
    ensures u == u / 0x40 * 0x40 + u % 0x40
    ensures u / 0x40 == u / 0x1000 * 0x40 + u / 0x40 % 0x40
    ensures u / 0x1000 == u / 0x40000 * 0x40 + u / 0x1000 % 0x40
  {
  }

  lemma {:induction false} FourBytes(c: char, rest: seq<Byte>)
    requires c as int >= 0x10000
    ensures DecodeNext(EncodeChar(c) + rest) == Good(c, 4)
  {
    var u := c as int;
    SixBits(u);
    assert u < 0x110000;
  }

  lemma {:induction false} EncodeCons(s: string)
    requires s != []
    ensures Encode(s) == EncodeChar(s[0]) + Encode(s[1..])
    ensures Encode(s) != []
    ensures DecodeNext(Encode(s)) == Good(s[0], |EncodeChar(s[0])|)
    ensures Encode(s)[|EncodeChar(s[0])|..] == Encode(s[1..])
  {
    DecodeNextOfEncodeChar(s[0], Encode(s[1..]));
  }

  /** Decoding what was encoded gives the same text back, strictly and with replacement. */
  lemma {:induction false} RoundTrip(s: string)
    ensures Decode(Encode(s)) == Some(s)
    ensures DecodeReplacing(Encode(s)) == s
  {
    if s != [] {
      EncodeCons(s);
      RoundTrip(s[1..]);
      assert s == [s[0]] + s[1..];
    }
  }

  lemma {:induction false} Digit64(q: int, r: int)
    requires 0 <= q && 0 <= r < 0x40
    ensures (q * 0x40 + r) / 0x40 == q && (q * 0x40 + r) % 0x40 == r
  {
  }

  lemma {:induction false} Quotients(u: nat)
    ensures u / 0x1000 == u / 0x40 / 0x40 && u / 0x40000 == u / 0x40 / 0x40 / 0x40
  {
  }

  lemma {:induction false} ThreePayloads(a: int, b: int, c: int)
    requires 0 <= a && 0 <= b < 0x40 && 0 <= c < 0x40
    ensures var u := a * 0x1000 + b * 0x40 + c; u / 0x1000 == a && u / 0x40 % 0x40 == b && u % 0x40 == c
  {
    Quotients(a * 0x1000 + b * 0x40 + c);
    Digit64(a * 0x40 + b, c);
    Digit64(a, b);
  }

  lemma {:induction false} FourPayloads(a: int, b: int, c: int, d: int)
    requires 0 <= a && 0 <= b < 0x40 && 0 <= c < 0x40 && 0 <= d < 0x40
    ensures var u := a * 0x40000 + b * 0x1000 + c * 0x40 + d;
      u / 0x40000 == a && u / 0x1000 % 0x40 == b && u / 0x40 % 0x40 == c && u % 0x40 == d
  {
    Quotients(a * 0x40000 + b * 0x1000 + c * 0x40 + d);
    Digit64(a * 0x1000 + b * 0x40 + c, d);
    Digit64(a * 0x40 + b, c);
    Digit64(a, b);
  }

  lemma {:induction false} ThreeBytesOf(b: Byte, x: Byte, y: Byte)
    requires 0xE0 <= b <= 0xEF && (if b == 0xE0 then 0xA0 else 0x80) <= x <= (if b == 0xED then 0x9F else 0xBF)
    requires 0x80 <= y <= 0xBF
    ensures var u := (b - 0xE0) * 0x1000 + Low6(x) * 0x40 + Low6(y);
      (0x800 <= u < 0xD800 || 0xE000 <= u < 0x10000) && EncodeChar(u as char) == [b, x, y]
  {
    ThreePayloads(b - 0xE0, Low6(x), Low6(y));
  }

  lemma {:induction false} FourBytesOf(b: Byte, x: Byte, y: Byte, z: Byte)
    requires 0xF0 <= b <= 0xF4 && (if b == 0xF0 then 0x90 else 0x80) <= x <= (if b == 0xF4 then 0x8F else 0xBF)
    requires 0x80 <= y <= 0xBF && 0x80 <= z <= 0xBF
    ensures var u := (b - 0xF0) * 0x40000 + Low6(x) * 0x1000 + Low6(y) * 0x40 + Low6(z);
      0x10000 <= u < 0x110000 && EncodeChar(u as char) == [b, x, y, z]
  {
    FourPayloads(b - 0xF0, Low6(x), Low6(y), Low6(z));
  }

  /** A step accepts exactly the encoding of one scalar value. */
  lemma {:induction false} GoodIsEncoded(bs: seq<Byte>)
    requires bs != [] && DecodeNext(bs).Good?
    ensures var (c, n) := (DecodeNext(bs).c, DecodeNext(bs).size); n == |EncodeChar(c)| && bs[..n] == EncodeChar(c)
  {
    var n := DecodeNext(bs).size;
    if n == 4 {
      FourBytesOf(bs[0], bs[1], bs[2], bs[3]);
    } else if n == 3 {
      ThreeBytesOf(bs[0], bs[1], bs[2]);
    }
  }

  /** `bs` begins like the encoding of `c`, in its first `k` bytes. */
  ghost predicate BeginsLike(bs: seq<Byte>, c: char, k: nat) {
    k <= |bs| && k <= |EncodeChar(c)| && bs[..k] == EncodeChar(c)[..k]
  }

  lemma {:induction false} SecondByte(c: char)
    requires |EncodeChar(c)| >= 3
    ensures var e := EncodeChar(c);
      && |e| == (if 0xE0 <= e[0] <= 0xEF then 3 else 4) && 0xE0 <= e[0] <= 0xF4
      && (if e[0] == 0xE0 then 0xA0 else if e[0] == 0xF0 then 0x90 else 0x80) <= e[1]
      && e[1] <= (if e[0] == 0xED then 0x9F else if e[0] == 0xF4 then 0x8F else 0xBF)
      && 0x80 <= e[2] <= 0xBF && (|e| == 4 ==> 0x80 <= e[3] <= 0xBF)
  {
    var u := c as int;
    SixBits(u);
    assert u < 0xD800 || 0xE000 <= u < 0x110000;
  }

  lemma {:induction false} WholeIsAccepted(bs: seq<Byte>, c: char)
    requires bs != []
    ensures BeginsLike(bs, c, |EncodeChar(c)|) ==> DecodeNext(bs).Good?
  {
    var n := |EncodeChar(c)|;
    if BeginsLike(bs, c, n) {
      DecodeNextOfEncodeChar(c, bs[n..]);
      assert bs == EncodeChar(c) + bs[n..];
    }
  }

  /** No encoding begins with more of the bytes than a refused step consumes. */
  lemma {:induction false} RefusedNoFurther(bs: seq<Byte>, c: char, k: nat)
    requires bs != [] && DecodeNext(bs).Bad? && BeginsLike(bs, c, k)
    ensures k <= DecodeNext(bs).size
  {
    var e := EncodeChar(c);
    WholeIsAccepted(bs, c);
    if k > DecodeNext(bs).size {
      assert forall i :: 0 <= i < k ==> bs[i] == e[i] by {
        assert forall i :: 0 <= i < k ==> bs[i] == bs[..k][i];
      }
      if |e| >= 3 {
        SecondByte(c);
      }
    }
  }

  /** What a refused step consumes is one byte, or begins like an encoding it breaks off: the maximal
      subpart that `errors="replace"` turns into one replacement character. */
  lemma {:induction false} RefusedIsPrefix(bs: seq<Byte>)
    requires bs != [] && DecodeNext(bs).Bad?
    ensures var n := DecodeNext(bs).size; n > 1 ==> exists c :: BeginsLike(bs, c, n) && n < |EncodeChar(c)|
  {
    var n := DecodeNext(bs).size;
    if n > 1 {
      if bs[0] <= 0xEF {
        ThreeBytesOf(bs[0], bs[1], 0x80);
        assert BeginsLike(bs, ((bs[0] - 0xE0) * 0x1000 + Low6(bs[1]) * 0x40 + Low6(0x80)) as char, n);
      } else {
        var y: Byte := if n == 3 then bs[2] else 0x80;
        FourBytesOf(bs[0], bs[1], y, 0x80);
        var u := (bs[0] - 0xF0) * 0x40000 + Low6(bs[1]) * 0x1000 + Low6(y) * 0x40 + Low6(0x80);
        assert BeginsLike(bs, u as char, n);
      }
    }
  }

  /** The strict decoder accepts exactly the encodings of texts: no overlong form, no surrogate, no
      truncated or stray byte. */
  lemma {:induction false} DecodeExactly(bs: seq<Byte>, s: string)
    ensures Decode(bs) == Some(s) <==> bs == Encode(s)
  {
    if Decode(bs) == Some(s) {
      DecodedIsEncoded(bs, s);
    }
    if bs == Encode(s) {
      RoundTrip(s);
    }
  }

  lemma {:induction false} DecodedIsEncoded(bs: seq<Byte>, s: string)
    requires Decode(bs) == Some(s)
    ensures bs == Encode(s)
  {
    if bs != [] {
      GoodIsEncoded(bs);
      var n := DecodeNext(bs).size;
      assert s[1..] == Decode(bs[n..]).value;
      DecodedIsEncoded(bs[n..], s[1..]);
      assert bs == bs[..n] + bs[n..];
    }
  }

  lemma {:induction false} EncodeInjective(a: string, b: string)
    requires Encode(a) == Encode(b)
    ensures a == b
  {
    RoundTrip(a);
    RoundTrip(b);
  }

  lemma {:induction false} EncodeConcat(a: string, b: string)
    ensures Encode(a + b) == Encode(a) + Encode(b)
  {
    if a == [] {
      assert a + b == b;
    } else {
      assert (a + b)[1..] == a[1..] + b;
      EncodeConcat(a[1..], b);
    }
  }

  predicate IsAscii(s: string) {
    forall i :: 0 <= i < |s| ==> (s[i] as int) < 0x80
  }

  lemma {:induction false} EncodeAscii(s: string)
    requires IsAscii(s)
    ensures |Encode(s)| == |s|
    ensures forall i :: 0 <= i < |s| ==> Encode(s)[i] == s[i] as int
  {
    if s != [] {
      EncodeAscii(s[1..]);
    }
  }

  /** `bytes.decode("utf-8-sig")`: one leading byte-order mark is dropped. */
  function DecodeSig(bs: seq<Byte>): Option<string> {
    if [0xEF, 0xBB, 0xBF] <= bs then Decode(bs[3..]) else Decode(bs)
  }

  lemma {:induction false} RoundTripSig(s: string)
    requires s != [] && (s[0] as int) < 0x80
    ensures DecodeSig(Encode(s)) == Some(s)
  {
    EncodeCons(s);
    RoundTrip(s);
  }
}
